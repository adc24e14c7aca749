/** Deriving a pool's counts and averages from its process list (metrics.go). */
module Recount {
  import opened Text
  import opened Wrappers
  import opened Pools

  const OPCACHE_SCRIPT_PREFIX := "cbox-phpfpm-opcache-"

  /** The request path: everything before the first question mark. */
  function StripQuery(uri: string): (path: string)
    ensures path <= uri && '?' !in path
    ensures path == uri || uri[|path|] == '?'
  {
    if uri == "" || uri[0] == '?' then "" else [uri[0]] + StripQuery(uri[1..])
  }

  function Stripped(w: PoolProcess): PoolProcess {
    w.(requestURI := StripQuery(w.requestURI))
  }

  function AllStripped(ws: seq<PoolProcess>): (r: seq<PoolProcess>)
    ensures |r| == |ws|
  {
    seq(|ws|, i requires 0 <= i < |ws| => Stripped(ws[i]))
  }

  const ACTIVE_STATES: set<string> := {"running", "reading headers", "info", "finishing", "ending"}

  predicate IsActive(w: PoolProcess) {
    ToLower(w.state) in ACTIVE_STATES
  }

  predicate IsIdle(w: PoolProcess) {
    ToLower(w.state) == "idle"
  }

  /** The requests left out of the averages, by a test on prefixes. */
  predicate IsExcluded(w: PoolProcess, statusPath: string) {
    HasPrefix(w.requestURI, statusPath) || HasPrefix(w.requestURI, "/" + OPCACHE_SCRIPT_PREFIX)
  }

  /** What a list of workers adds up to. */
  datatype Tally = Tally(active: nat, idle: nat, workers: nat, counted: nat, cpu: real, memory: real)

  const NOTHING := Tally(0, 0, 0, 0, 0.0, 0.0)

  function Plus(a: Tally, b: Tally): Tally {
    Tally(a.active + b.active, a.idle + b.idle, a.workers + b.workers, a.counted + b.counted,
          a.cpu + b.cpu, a.memory + b.memory)
  }

  function Of(w: PoolProcess, statusPath: string): Tally {
    var counts := !IsExcluded(w, statusPath);
    Tally(
      if IsActive(w) then 1 else 0,
      if IsIdle(w) then 1 else 0,
      1,
      if counts then 1 else 0,
      if counts then w.lastRequestCPU else 0.0,
      if counts then w.lastRequestMemory else 0.0)
  }

  function TallyOf(ws: seq<PoolProcess>, statusPath: string): Tally {
    if ws == [] then NOTHING else Plus(TallyOf(ws[..|ws| - 1], statusPath), Of(ws[|ws| - 1], statusPath))
  }

  /** The summary fields of a pool. */
  datatype Summary = Summary(active: int, idle: int, total: int, cpu: Option<real>, memory: Option<real>)

  /** The counts, and the averages over the workers that count; with none, the averages stay as they were. */
  function Summarised(ws: seq<PoolProcess>, statusPath: string, before: Summary): Summary {
    var t := TallyOf(ws, statusPath);
    Summary(t.active, t.idle, |ws|,
            if t.counted > 0 then Some(t.cpu / t.counted as real) else before.cpu,
            if t.counted > 0 then Some(t.memory / t.counted as real) else before.memory)
  }

  class Pool {
    var processes: array<PoolProcess>
    var active: int
    var idle: int
    var total: int
    var cpu: Option<real>
    var memory: Option<real>

    ghost function Fields(): Summary
      reads this
    {
      Summary(active, idle, total, cpu, memory)
    }

    constructor (processes: array<PoolProcess>)
      ensures this.processes == processes && Fields() == Summary(0, 0, 0, None, None)
    {
      this.processes := processes;
      active, idle, total, cpu, memory := 0, 0, 0, None, None;
    }

    method RecountProcesses(statusPath: string)
      modifies this, processes
      ensures processes == old(processes) && processes[..] == AllStripped(old(processes[..]))
      ensures Fields() == Summarised(AllStripped(old(processes[..])), statusPath, old(Fields()))
      ensures AveragesOf(Fields(), old(Fields()), Counted(processes[..], statusPath))
      ensures '?' !in statusPath ==>
                forall i | 0 <= i < processes.Length && AsksFor(old(processes[..])[i].requestURI, statusPath) ::
                  processes[i].requestURI == statusPath && processes[i] !in Counted(processes[..], statusPath)
    {
      ghost var was := processes[..];
      for i := 0 to processes.Length
        invariant processes == old(processes) && Fields() == old(Fields())
        invariant forall k | 0 <= k < i :: processes[k] == Stripped(was[k])
        invariant forall k | i <= k < processes.Length :: processes[k] == was[k]
      {
        processes[i] := processes[i].(requestURI := StripQuery(processes[i].requestURI));
      }
      assert processes[..] == AllStripped(was);
      TallyUp(statusPath);
      AveragesAreOfCounted(AllStripped(was), statusPath, old(Fields()));
      forall i | '?' !in statusPath && 0 <= i < processes.Length && AsksFor(was[i].requestURI, statusPath)
        ensures AllStripped(was)[i].requestURI == statusPath
        ensures AllStripped(was)[i] !in Counted(AllStripped(was), statusPath)
      {
        StatusRequestsAreNotAveraged(was, statusPath, i);
      }
    }

    /** The second loop: everything is counted afresh. */
    method TallyUp(statusPath: string)
      modifies this
      ensures processes == old(processes)
      ensures Fields() == Summarised(processes[..], statusPath, old(Fields()))
    {
      var totalCPU, totalMem := 0.0, 0.0;
      var count, activeCount, idleCount := 0, 0, 0;
      ghost var ws := processes[..];
      for i := 0 to processes.Length
        invariant processes == old(processes) && processes[..] == ws && Fields() == old(Fields())
        invariant Tally(activeCount, idleCount, i, count, totalCPU, totalMem) == TallyOf(ws[..i], statusPath)
      {
        var proc := processes[i];
        TallyStep(ws, i, statusPath);
        ActiveIsNotIdle(proc);
        if IsActive(proc) {
          activeCount := activeCount + 1;
        } else if IsIdle(proc) {
          idleCount := idleCount + 1;
        }
        if !IsExcluded(proc, statusPath) {
          totalCPU := totalCPU + proc.lastRequestCPU;
          totalMem := totalMem + proc.lastRequestMemory;
          count := count + 1;
        }
      }
      assert ws[..processes.Length] == ws;
      active, idle, total := activeCount, idleCount, processes.Length;
      if count > 0 {
        cpu, memory := Some(totalCPU / count as real), Some(totalMem / count as real);
      }
    }
  }

  lemma TallyStep(ws: seq<PoolProcess>, i: nat, statusPath: string)
    requires i < |ws|
    ensures TallyOf(ws[..i + 1], statusPath) == Plus(TallyOf(ws[..i], statusPath), Of(ws[i], statusPath))
  {
    assert ws[..i + 1][..i] == ws[..i];
  }

  lemma ActiveIsNotIdle(w: PoolProcess)
    ensures !(IsActive(w) && IsIdle(w))
  {
    assert "idle" !in ACTIVE_STATES by {
      assert "idle"[0] != "info"[0] || "idle"[1] != "info"[1];
    }
  }

  // ----- Properties -----

  lemma {:induction false} TallyBounds(ws: seq<PoolProcess>, statusPath: string)
    ensures var t := TallyOf(ws, statusPath); t.active + t.idle <= t.workers == |ws| && t.counted <= |ws|
  {
    if ws != [] {
      TallyBounds(ws[..|ws| - 1], statusPath);
      ActiveIsNotIdle(ws[|ws| - 1]);
    }
  }

  /** The tally of the stripped workers, worker by worker. */
  function StrippedTally(ws: seq<PoolProcess>, statusPath: string): Tally {
    if ws == [] then NOTHING
    else Plus(StrippedTally(ws[..|ws| - 1], statusPath), Of(Stripped(ws[|ws| - 1]), statusPath))
  }

  lemma {:induction false} TallyOfStripped(ws: seq<PoolProcess>, statusPath: string)
    ensures TallyOf(AllStripped(ws), statusPath) == StrippedTally(ws, statusPath)
  {
    if ws != [] {
      TallyOfStripped(ws[..|ws| - 1], statusPath);
      assert AllStripped(ws)[..|ws| - 1] == AllStripped(ws[..|ws| - 1]);
    }
  }

  lemma {:induction false} TallyWithout(ws: seq<PoolProcess>, i: nat, statusPath: string)
    requires i < |ws|
    ensures StrippedTally(ws, statusPath)
         == Plus(StrippedTally(ws[..i] + ws[i + 1..], statusPath), Of(Stripped(ws[i]), statusPath))
  {
    var front := ws[..|ws| - 1];
    if i == |front| {
      assert ws[..i] + ws[i + 1..] == front;
    } else {
      TallyWithout(front, i, statusPath);
      WithoutSlices(ws, i);
    }
  }

  lemma WithoutSlices(ws: seq<PoolProcess>, i: nat)
    requires i + 1 < |ws|
    ensures var rest, front := ws[..i] + ws[i + 1..], ws[..|ws| - 1];
            rest[..|rest| - 1] == front[..i] + front[i + 1..] && rest[|rest| - 1] == ws[|ws| - 1]
  {
  }

  lemma FindLast(ws: seq<PoolProcess>, vs: seq<PoolProcess>) returns (i: nat)
    requires ws != [] && multiset(ws) == multiset(vs)
    ensures i < |vs| && vs[i] == ws[|ws| - 1]
    ensures multiset(vs[..i] + vs[i + 1..]) == multiset(ws[..|ws| - 1])
  {
    var front, last := ws[..|ws| - 1], ws[|ws| - 1];
    assert ws == front + [last];
    assert last in multiset(vs);
    i :| i < |vs| && vs[i] == last;
    assert vs == vs[..i] + [vs[i]] + vs[i + 1..];
    assert multiset(vs[..i] + vs[i + 1..]) == multiset(vs) - multiset{last} == multiset(front);
  }

  /** The tally does not depend on the order in which the workers are listed. */
  lemma {:induction false} TallyOfPermutation(ws: seq<PoolProcess>, vs: seq<PoolProcess>, statusPath: string)
    requires multiset(ws) == multiset(vs)
    ensures StrippedTally(ws, statusPath) == StrippedTally(vs, statusPath)
    decreases |ws|
  {
    if ws == [] {
      assert |multiset(vs)| == 0;
    } else {
      var i := FindLast(ws, vs);
      TallyOfPermutation(ws[..|ws| - 1], vs[..i] + vs[i + 1..], statusPath);
      TallyWithout(vs, i, statusPath);
    }
  }

  /** Recounting a permuted list gives the same summary. */
  lemma RecountIgnoresOrder(ws: seq<PoolProcess>, vs: seq<PoolProcess>, statusPath: string, before: Summary)
    requires multiset(ws) == multiset(vs)
    ensures Summarised(AllStripped(ws), statusPath, before) == Summarised(AllStripped(vs), statusPath, before)
  {
    assert |multiset(ws)| == |ws| && |multiset(vs)| == |vs|;
    TallyOfPermutation(ws, vs, statusPath);
    TallyOfStripped(ws, statusPath);
    TallyOfStripped(vs, statusPath);
  }

  /** Recounting twice changes nothing more. */
  lemma RecountIsIdempotent(ws: seq<PoolProcess>, statusPath: string, before: Summary)
    ensures AllStripped(AllStripped(ws)) == AllStripped(ws)
    ensures var once := Summarised(AllStripped(ws), statusPath, before);
            Summarised(AllStripped(AllStripped(ws)), statusPath, once) == once
  {
    forall i | 0 <= i < |ws|
      ensures AllStripped(AllStripped(ws))[i] == AllStripped(ws)[i]
    {
    }
    assert AllStripped(AllStripped(ws)) == AllStripped(ws);
  }

  /** Where in the list the workers with some trait are. */
  function Positions(ws: seq<PoolProcess>, holds: PoolProcess -> bool): set<nat> {
    set i: nat | i < |ws| && holds(ws[i])
  }

  lemma PositionsGrow(ws: seq<PoolProcess>, holds: PoolProcess -> bool)
    requires ws != []
    ensures |Positions(ws, holds)|
         == |Positions(ws[..|ws| - 1], holds)| + if holds(ws[|ws| - 1]) then 1 else 0
  {
    var front, n := ws[..|ws| - 1], |ws| - 1;
    assert Positions(ws, holds) == Positions(front, holds) + if holds(ws[n]) then {n} else {};
    assert n !in Positions(front, holds);
  }

  lemma {:induction false} TallyCountsPositions(ws: seq<PoolProcess>, statusPath: string)
    ensures TallyOf(ws, statusPath).active == |Positions(ws, IsActive)|
    ensures TallyOf(ws, statusPath).idle == |Positions(ws, IsIdle)|
  {
    if ws != [] {
      TallyCountsPositions(ws[..|ws| - 1], statusPath);
      PositionsGrow(ws, IsActive);
      PositionsGrow(ws, IsIdle);
    }
  }

  /** The counts are those of the workers in an active and in an idle state, which are distinct workers
      of the list; stripping does not touch the states. */
  lemma CountsAreExact(ws: seq<PoolProcess>, statusPath: string, before: Summary)
    ensures var s := Summarised(AllStripped(ws), statusPath, before);
            && s.active == |Positions(ws, IsActive)| && s.idle == |Positions(ws, IsIdle)|
            && s.active + s.idle <= s.total == |ws|
  {
    var after := AllStripped(ws);
    TallyBounds(after, statusPath);
    TallyCountsPositions(after, statusPath);
    assert forall i: nat | i < |ws| :: IsActive(after[i]) == IsActive(ws[i]) && IsIdle(after[i]) == IsIdle(ws[i]);
    assert Positions(after, IsActive) == Positions(ws, IsActive) && Positions(after, IsIdle) == Positions(ws, IsIdle);
  }

  /** The workers whose requests count towards the averages. */
  function Counted(ws: seq<PoolProcess>, statusPath: string): seq<PoolProcess> {
    if ws == [] then []
    else
      var front := Counted(ws[..|ws| - 1], statusPath);
      if IsExcluded(ws[|ws| - 1], statusPath) then front else front + [ws[|ws| - 1]]
  }

  function SumOf(ws: seq<PoolProcess>, f: PoolProcess -> real): real {
    if ws == [] then 0.0 else SumOf(ws[..|ws| - 1], f) + f(ws[|ws| - 1])
  }

  /** A request for a page, with any query or none. */
  predicate AsksFor(uri: string, page: string) {
    uri == page || HasPrefix(uri, page + "?")
  }

  lemma StripsTo(uri: string, page: string)
    requires AsksFor(uri, page) && '?' !in page
    ensures StripQuery(uri) == page
  {
    PagePrefixes(uri, page);
    CutsNoEarlier(uri, StripQuery(uri), page);
    CutsNoEarlier(uri, page, StripQuery(uri));
  }

  lemma PagePrefixes(uri: string, page: string)
    requires AsksFor(uri, page)
    ensures page <= uri && (page == uri || uri[|page|] == '?')
  {
    if HasPrefix(uri, page + "?") {
      assert uri[..|page| + 1] == page + "?";
      assert uri[..|page|] == uri[..|page| + 1][..|page|];
      assert uri[|page|] == (page + "?")[|page|];
    }
  }

  /** Text before a question mark, or all of it, is no shorter than a beginning without one. */
  lemma CutsNoEarlier(uri: string, cut: string, clean: string)
    requires cut <= uri && (cut == uri || uri[|cut|] == '?')
    requires clean <= uri && '?' !in clean
    ensures |cut| >= |clean|
  {
    BeginsAlike(uri, clean);
  }

  lemma BeginsAlike(s: string, p: string)
    requires p <= s
    ensures forall i | 0 <= i < |p| :: p[i] == s[i]
  {
  }

  lemma {:induction false} ExcludedAreNotCounted(ws: seq<PoolProcess>, statusPath: string)
    ensures forall w | w in Counted(ws, statusPath) :: !IsExcluded(w, statusPath)
  {
    if ws != [] {
      ExcludedAreNotCounted(ws[..|ws| - 1], statusPath);
    }
  }

  /** Whoever asks for the status page, with whatever query, is not averaged. */
  lemma StatusRequestsAreNotAveraged(ws: seq<PoolProcess>, statusPath: string, i: nat)
    requires i < |ws| && '?' !in statusPath && AsksFor(ws[i].requestURI, statusPath)
    ensures AllStripped(ws)[i].requestURI == statusPath
    ensures AllStripped(ws)[i] !in Counted(AllStripped(ws), statusPath)
  {
    StripsTo(ws[i].requestURI, statusPath);
    ExcludedAreNotCounted(AllStripped(ws), statusPath);
    assert statusPath[..|statusPath|] == statusPath;
  }

  /** The states php-fpm reports of a worker, and which of them are active. */
  lemma StatesAreKnown(w: PoolProcess)
    ensures IsActive(w) <==>
              || EqualFold(w.state, "Running") || EqualFold(w.state, "Reading headers") || EqualFold(w.state, "Info")
              || EqualFold(w.state, "Finishing") || EqualFold(w.state, "Ending")
    ensures EqualFold(w.state, "Idle") <==> IsIdle(w)
  {
    assert ToLower("Running") == "running";
    assert ToLower("Reading headers") == "reading headers";
    assert ToLower("Info") == "info";
    assert ToLower("Finishing") == "finishing";
    assert ToLower("Ending") == "ending";
    assert ToLower("Idle") == "idle";
  }

  /** The averages of a summary are those of exactly these workers, or unchanged when there are none. */
  predicate AveragesOf(s: Summary, before: Summary, counted: seq<PoolProcess>) {
    if counted == [] then s.cpu == before.cpu && s.memory == before.memory
    else
      && s.cpu == Some(SumOf(counted, (w: PoolProcess) => w.lastRequestCPU) / |counted| as real)
      && s.memory == Some(SumOf(counted, (w: PoolProcess) => w.lastRequestMemory) / |counted| as real)
  }

  lemma AveragesAreOfCounted(ws: seq<PoolProcess>, statusPath: string, before: Summary)
    ensures AveragesOf(Summarised(ws, statusPath, before), before, Counted(ws, statusPath))
  {
    TallyCounts(ws, statusPath, (w: PoolProcess) => w.lastRequestCPU, (w: PoolProcess) => w.lastRequestMemory);
  }

  lemma {:induction false} TallyCounts(
    ws: seq<PoolProcess>, statusPath: string, cpu: PoolProcess -> real, memory: PoolProcess -> real)
    requires forall w :: cpu(w) == w.lastRequestCPU && memory(w) == w.lastRequestMemory
    ensures var t := TallyOf(ws, statusPath);
            var counted := Counted(ws, statusPath);
            t.counted == |counted| && t.cpu == SumOf(counted, cpu) && t.memory == SumOf(counted, memory)
  {
    if ws != [] {
      var front, last := ws[..|ws| - 1], ws[|ws| - 1];
      TallyCounts(front, statusPath, cpu, memory);
      if !IsExcluded(last, statusPath) {
        assert Counted(ws, statusPath)[..|Counted(front, statusPath)|] == Counted(front, statusPath);
      }
    }
  }

  // ----- Whose requests count -----

  /** The library's own requests: the status page itself, and its opcache scripts. */
  predicate IsOwnRequest(w: PoolProcess, statusPath: string) {
    w.requestURI == statusPath || HasPrefix(w.requestURI, "/" + OPCACHE_SCRIPT_PREFIX)
  }

  /** The workers that serve somebody else. */
  function Foreign(ws: seq<PoolProcess>, statusPath: string): seq<PoolProcess> {
    if ws == [] then []
    else
      var front := Foreign(ws[..|ws| - 1], statusPath);
      if IsOwnRequest(ws[|ws| - 1], statusPath) then front else front + [ws[|ws| - 1]]
  }

  /** A request of somebody else's that only begins like the status page. */
  predicate BeginsLikeStatus(w: PoolProcess, statusPath: string) {
    !IsOwnRequest(w, statusPath) && HasPrefix(w.requestURI, statusPath)
  }

  lemma ExcludedMeans(w: PoolProcess, statusPath: string)
    ensures IsExcluded(w, statusPath) <==> IsOwnRequest(w, statusPath) || BeginsLikeStatus(w, statusPath)
  {
    assert w.requestURI == statusPath ==> w.requestURI[..|statusPath|] == statusPath;
  }

  lemma {:induction false} CountedAreForeign(ws: seq<PoolProcess>, statusPath: string)
    ensures |Counted(ws, statusPath)| <= |Foreign(ws, statusPath)|
    ensures |Counted(ws, statusPath)| == |Foreign(ws, statusPath)| <==>
              forall i | 0 <= i < |ws| :: !BeginsLikeStatus(ws[i], statusPath)
    ensures |Counted(ws, statusPath)| == |Foreign(ws, statusPath)| ==>
              Counted(ws, statusPath) == Foreign(ws, statusPath)
  {
    if ws != [] {
      var front, last := ws[..|ws| - 1], ws[|ws| - 1];
      CountedAreForeign(front, statusPath);
      ExcludedMeans(last, statusPath);
      assert forall i | 0 <= i < |front| :: front[i] == ws[i];
      assert ws[|front|] == last;
    }
  }

  /** The averages are over exactly the workers that serve somebody else if and only if none of these
      serves a path that merely begins like the status page; such a worker is left out too. */
  lemma AveragesAreOfForeignTrafficIff(ws: seq<PoolProcess>, statusPath: string, before: Summary)
    ensures AveragesOf(Summarised(ws, statusPath, before), before, Counted(ws, statusPath))
    ensures Counted(ws, statusPath) == Foreign(ws, statusPath) <==>
              forall i | 0 <= i < |ws| :: !BeginsLikeStatus(ws[i], statusPath)
    ensures (forall i | 0 <= i < |ws| :: !BeginsLikeStatus(ws[i], statusPath)) ==>
              AveragesOf(Summarised(ws, statusPath, before), before, Foreign(ws, statusPath))
  {
    AveragesAreOfCounted(ws, statusPath, before);
    CountedAreForeign(ws, statusPath);
  }

  /** An application's own page under a longer path than the status page's never counts. */
  lemma LongerPathsAreDropped(w: PoolProcess, statusPath: string, more: string)
    requires w.requestURI == statusPath + more && more != ""
    requires !HasPrefix(w.requestURI, "/" + OPCACHE_SCRIPT_PREFIX)
    ensures Foreign([w], statusPath) == [w] && Counted([w], statusPath) == []
  {
    assert (statusPath + more)[..|statusPath|] == statusPath;
    assert [w][..0] == [];
    assert |statusPath + more| > |statusPath|;
  }

  /** Nobody's requests ever count exactly when the status path is empty. */
  lemma EmptyStatusPathExcludesAll(statusPath: string)
    ensures (forall ws :: Counted(ws, statusPath) == []) <==> statusPath == ""
  {
    if statusPath == "" {
      forall ws
        ensures Counted(ws, statusPath) == []
      {
        EmptyPrefixExcludes(ws);
      }
    } else {
      var w := PoolProcess(1, "Idle", "", 0.0, 0.0, 0, 0, 0);
      assert !IsExcluded(w, statusPath);
      assert [w][..0] == [];
      assert Counted([w], statusPath) == [] + [w];
    }
  }

  lemma {:induction false} EmptyPrefixExcludes(ws: seq<PoolProcess>)
    ensures Counted(ws, "") == []
  {
    if ws != [] {
      EmptyPrefixExcludes(ws[..|ws| - 1]);
      assert HasPrefix(ws[|ws| - 1].requestURI, "");
    }
  }
}
