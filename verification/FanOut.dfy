/** `ScrapeAll` (metrics.go): one goroutine per target, bounded by a channel of slots and joined by a wait
    group, under every schedule. */
module FanOut {
  import opened Wrappers

  /** What scraping a target yields: a result or an error. */
  type Outcome = Result<string, string>

  /** The targets by number, what the one scrape of each returns, and how many processors there are. */
  datatype Batch = Batch(size: nat, scrape: nat -> Outcome, cpus: nat)

  function Min(a: nat, b: nat): nat {
    if a < b then a else b
  }

  function Max(a: nat, b: nat): nat {
    if a < b then b else a
  }

  /** How many slots the channel has. */
  function Capacity(b: Batch): nat {
    Min(b.size, Max(4, b.cpus))
  }

  /** A goroutine: not yet spawned, waiting for a slot, holding one, its outcome written, its slot given
      back, or gone from the wait group. */
  datatype Phase = NotSpawned | Spawned | Holding | Wrote | Released | Gone

  datatype Main = Spawning(next: nat) | Joining | Returned(outcomes: seq<Outcome>, err: bool)

  /** `used` counts the filled slots, `pending` is the wait group's counter. */
  datatype State = State(main: Main, phases: seq<Phase>, used: nat, pending: nat, outcomes: seq<Option<Outcome>>)

  datatype Action = Spawn | StopSpawning | Acquire(i: nat) | Write(i: nat) | Release(i: nat) | Leave(i: nat) | Join

  function Init(b: Batch): State {
    State(Spawning(0), seq(b.size, i => NotSpawned), 0, 0, seq(b.size, i => None))
  }

  predicate Is(s: State, i: nat, p: Phase) {
    i < |s.phases| && s.phases[i] == p
  }

  /** What an index nobody wrote to holds: the zero outcome, which carries no error. */
  const UNWRITTEN: Outcome := Ok("")

  /** The result list as the caller finds it. */
  function Collected(s: State): (outcomes: seq<Outcome>)
    ensures |outcomes| == |s.outcomes|
    ensures forall i | 0 <= i < |s.outcomes| ::
              outcomes[i] == if s.outcomes[i].Some? then s.outcomes[i].value else UNWRITTEN
  {
    seq(|s.outcomes|, i requires 0 <= i < |s.outcomes| =>
      if s.outcomes[i].Some? then s.outcomes[i].value else UNWRITTEN)
  }

  predicate Enabled(b: Batch, s: State, a: Action) {
    match a
    case Spawn => s.main.Spawning? && s.main.next < b.size && Is(s, s.main.next, NotSpawned)
    case StopSpawning => s.main.Spawning? && s.main.next == b.size
    case Acquire(i) => Is(s, i, Spawned) && s.used < Capacity(b)
    case Write(i) => Is(s, i, Holding) && i < |s.outcomes|
    case Release(i) => Is(s, i, Wrote) && s.used > 0
    case Leave(i) => Is(s, i, Released) && s.pending > 0
    case Join => s.main.Joining? && s.pending == 0
  }

  function AllFailed(outcomes: seq<Outcome>): bool {
    forall i | 0 <= i < |outcomes| :: outcomes[i].Err?
  }

  function Move(s: State, i: nat, p: Phase): State
    requires i < |s.phases|
  {
    s.(phases := s.phases[i := p])
  }

  function Step(b: Batch, s: State, a: Action): State
    requires Enabled(b, s, a)
  {
    match a
    case Spawn => Move(s, s.main.next, Spawned).(main := Spawning(s.main.next + 1), pending := s.pending + 1)
    case StopSpawning => s.(main := Joining)
    case Acquire(i) => Move(s, i, Holding).(used := s.used + 1)
    case Write(i) => Move(s, i, Wrote).(outcomes := s.outcomes[i := Some(b.scrape(i))])
    case Release(i) => Move(s, i, Released).(used := s.used - 1)
    case Leave(i) => Move(s, i, Gone).(pending := s.pending - 1)
    case Join =>
      var outcomes := Collected(s);
      s.(main := Returned(outcomes, outcomes != [] && AllFailed(outcomes)))
  }

  // ----- Counting -----

  function Weight(p: Phase, holds: bool): nat {
    match p
    case NotSpawned => 0
    case Spawned => if holds then 0 else 1
    case Holding => 1
    case Wrote => 1
    case Released => if holds then 0 else 1
    case Gone => 0
  }

  /** How many goroutines hold a slot, or, with `holds` false, are in the wait group. */
  function Count(phases: seq<Phase>, holds: bool): nat {
    if phases == [] then 0
    else Count(phases[..|phases| - 1], holds) + Weight(phases[|phases| - 1], holds)
  }

  lemma {:induction false} CountMove(phases: seq<Phase>, i: nat, p: Phase, holds: bool)
    requires i < |phases|
    ensures Count(phases[i := p], holds) + Weight(phases[i], holds) == Count(phases, holds) + Weight(p, holds)
  {
    var front := phases[..|phases| - 1];
    if i == |front| {
      assert phases[i := p][..|phases| - 1] == front;
    } else {
      assert phases[i := p][..|phases| - 1] == front[i := p];
      CountMove(front, i, p, holds);
    }
  }

  lemma {:induction false} CountFinds(phases: seq<Phase>, holds: bool)
    ensures Count(phases, holds) == 0 <==> forall i | 0 <= i < |phases| :: Weight(phases[i], holds) == 0
  {
    if phases != [] {
      var front := phases[..|phases| - 1];
      CountFinds(front, holds);
      assert forall i | 0 <= i < |front| :: front[i] == phases[i];
      assert phases[|front|] == phases[|phases| - 1];
    }
  }

  /** The steps a goroutine still has to take, counting its spawning. */
  function StepsLeft(p: Phase): nat {
    match p
    case NotSpawned => 5
    case Spawned => 4
    case Holding => 3
    case Wrote => 2
    case Released => 1
    case Gone => 0
  }

  function AllStepsLeft(phases: seq<Phase>): nat {
    if phases == [] then 0
    else AllStepsLeft(phases[..|phases| - 1]) + StepsLeft(phases[|phases| - 1])
  }

  function Remaining(s: State): nat {
    AllStepsLeft(s.phases) + match s.main case Spawning(_) => 2 case Joining => 1 case Returned(_, _) => 0
  }

  lemma {:induction false} StepsMove(phases: seq<Phase>, i: nat, p: Phase)
    requires i < |phases|
    ensures AllStepsLeft(phases[i := p]) + StepsLeft(phases[i]) == AllStepsLeft(phases) + StepsLeft(p)
  {
    var front := phases[..|phases| - 1];
    if i == |front| {
      assert phases[i := p][..|phases| - 1] == front;
    } else {
      assert phases[i := p][..|phases| - 1] == front[i := p];
      StepsMove(front, i, p);
    }
  }

  /** Every step is one of the steps that were left. */
  lemma StepsRunOut(b: Batch, s: State, a: Action)
    requires Enabled(b, s, a)
    ensures Remaining(Step(b, s, a)) + 1 == Remaining(s)
  {
    match a {
      case Spawn => StepsMove(s.phases, s.main.next, Spawned);
      case Acquire(i) => StepsMove(s.phases, i, Holding);
      case Write(i) => StepsMove(s.phases, i, Wrote);
      case Release(i) => StepsMove(s.phases, i, Released);
      case Leave(i) => StepsMove(s.phases, i, Gone);
      case StopSpawning =>
      case Join =>
    }
  }

  // ----- What every step keeps -----

  predicate HasWritten(p: Phase) {
    p.Wrote? || p.Released? || p.Gone?
  }

  ghost predicate OutcomesOk(b: Batch, s: State)
    requires |s.phases| == b.size && |s.outcomes| == b.size
  {
    forall i: nat | i < b.size ::
      s.outcomes[i] == if HasWritten(s.phases[i]) then Some(b.scrape(i)) else None
  }

  function Sequential(b: Batch): seq<Outcome> {
    seq(b.size, i requires 0 <= i => b.scrape(i))
  }

  ghost predicate MainOk(b: Batch, s: State)
    requires |s.phases| == b.size
  {
    match s.main
    case Spawning(next) => next <= b.size && forall i: nat | i < b.size :: s.phases[i].NotSpawned? <==> next <= i
    case Joining => forall i: nat | i < b.size :: !s.phases[i].NotSpawned?
    case Returned(outcomes, err) =>
      && (forall i: nat | i < b.size :: s.phases[i].Gone?)
      && outcomes == Sequential(b)
      && err == (b.size > 0 && AllFailed(outcomes))
  }

  ghost predicate Inv(b: Batch, s: State) {
    && |s.phases| == b.size && |s.outcomes| == b.size
    && s.used == Count(s.phases, true) && s.used <= Capacity(b)
    && s.pending == Count(s.phases, false)
    && OutcomesOk(b, s)
    && MainOk(b, s)
  }

  lemma {:induction false} NothingSpawned(n: nat, holds: bool)
    ensures Count(seq(n, i => NotSpawned), holds) == 0
    ensures AllStepsLeft(seq(n, i => NotSpawned)) == 5 * n
  {
    if n > 0 {
      var phases := seq(n, i => NotSpawned);
      assert phases[..n - 1] == seq(n - 1, i => NotSpawned);
      NothingSpawned(n - 1, holds);
    }
  }

  lemma InvHoldsInitially(b: Batch)
    ensures Inv(b, Init(b)) && Remaining(Init(b)) == 5 * b.size + 2
  {
    NothingSpawned(b.size, true);
    NothingSpawned(b.size, false);
  }

  lemma MovesAreCounted(b: Batch, s: State, a: Action)
    requires Inv(b, s) && Enabled(b, s, a)
    ensures var s' := Step(b, s, a);
            s'.used == Count(s'.phases, true) && s'.used <= Capacity(b) && s'.pending == Count(s'.phases, false)
  {
    match a {
      case Spawn => CountMove(s.phases, s.main.next, Spawned, true); CountMove(s.phases, s.main.next, Spawned, false);
      case Acquire(i) => CountMove(s.phases, i, Holding, true); CountMove(s.phases, i, Holding, false);
      case Write(i) => CountMove(s.phases, i, Wrote, true); CountMove(s.phases, i, Wrote, false);
      case Release(i) => CountMove(s.phases, i, Released, true); CountMove(s.phases, i, Released, false);
      case Leave(i) => CountMove(s.phases, i, Gone, true); CountMove(s.phases, i, Gone, false);
      case StopSpawning =>
      case Join =>
    }
  }

  lemma JoinFindsAll(b: Batch, s: State)
    requires Inv(b, s) && Enabled(b, s, Join)
    ensures MainOk(b, Step(b, s, Join))
  {
    CountFinds(s.phases, false);
    var s' := Step(b, s, Join);
    forall i: nat | i < b.size
      ensures s.phases[i].Gone? && s'.main.outcomes[i] == b.scrape(i)
    {
      assert Weight(s.phases[i], false) == 0;
      assert s.outcomes[i] == Some(b.scrape(i));
    }
    assert s'.main.outcomes == Sequential(b);
  }

  lemma InvIsKept(b: Batch, s: State, a: Action)
    requires Inv(b, s) && Enabled(b, s, a)
    ensures Inv(b, Step(b, s, a))
  {
    MovesAreCounted(b, s, a);
    if a.Join? {
      JoinFindsAll(b, s);
    }
  }

  /** No deadlock: until the batch has returned, somebody can move. */
  lemma SomebodyCanMove(b: Batch, s: State)
    requires Inv(b, s) && !s.main.Returned?
    ensures exists a :: Enabled(b, s, a)
  {
    CountFinds(s.phases, true);
    CountFinds(s.phases, false);
    if s.main.Spawning? {
      assert Enabled(b, s, if s.main.next < b.size then Spawn else StopSpawning);
    } else if s.pending == 0 {
      assert Enabled(b, s, Join);
    } else {
      var i: nat :| i < b.size && Weight(s.phases[i], false) != 0;
      if s.used == 0 {
        assert Weight(s.phases[i], true) == 0;
        assert Enabled(b, s, if s.phases[i].Spawned? then Acquire(i) else Leave(i));
      } else {
        var k: nat :| k < b.size && Weight(s.phases[k], true) != 0;
        assert Enabled(b, s, if s.phases[k].Holding? then Write(k) else Release(k));
      }
    }
  }

  /** How many goroutines are between taking a slot and giving it back. */
  function Busy(s: State): nat {
    Count(s.phases, true)
  }

  /** A waiting goroutine gets a slot exactly while fewer are busy than there are targets, and fewer than
      four or than there are processors. */
  lemma SlotsAreExact(b: Batch, s: State, i: nat)
    requires Inv(b, s) && Is(s, i, Spawned)
    ensures Enabled(b, s, Acquire(i)) <==> Busy(s) < b.size && (Busy(s) < 4 || Busy(s) < b.cpus)
  {
  }

  // ----- Whole runs -----

  ghost predicate Run(b: Batch, ss: seq<State>, acts: seq<Action>) {
    && |ss| == |acts| + 1
    && ss[0] == Init(b)
    && forall i | 0 <= i < |acts| :: Enabled(b, ss[i], acts[i]) && ss[i + 1] == Step(b, ss[i], acts[i])
  }

  lemma {:induction false} InvAlongRun(b: Batch, ss: seq<State>, acts: seq<Action>, n: nat)
    requires Run(b, ss, acts) && n < |ss|
    ensures Inv(b, ss[n]) && Remaining(ss[n]) + n == 5 * b.size + 2
  {
    if n == 0 {
      InvHoldsInitially(b);
    } else {
      InvAlongRun(b, ss, acts, n - 1);
      InvIsKept(b, ss[n - 1], acts[n - 1]);
      StepsRunOut(b, ss[n - 1], acts[n - 1]);
    }
  }

  /** Every schedule: never more goroutines between their slots than the capacity, never a deadlock,
      never more than five steps a target and two of the caller's, and, once returned, the outcomes of
      scraping the targets in order, with an error exactly when there were some and all failed. */
  lemma FanOutRefinesSequence(b: Batch, ss: seq<State>, acts: seq<Action>, n: nat)
    requires Run(b, ss, acts) && n < |ss|
    ensures Busy(ss[n]) <= b.size && (Busy(ss[n]) <= 4 || Busy(ss[n]) <= b.cpus)
    ensures |acts| <= 5 * b.size + 2
    ensures !ss[n].main.Returned? ==> exists a :: Enabled(b, ss[n], a)
    ensures ss[n].main.Returned? ==>
              && ss[n].main.outcomes == Sequential(b)
              && (ss[n].main.err <==> b.size > 0 && forall i: nat | i < b.size :: b.scrape(i).Err?)
  {
    InvAlongRun(b, ss, acts, n);
    InvAlongRun(b, ss, acts, |acts|);
    if !ss[n].main.Returned? {
      SomebodyCanMove(b, ss[n]);
    } else {
      assert forall i: nat | i < b.size :: ss[n].main.outcomes[i] == b.scrape(i);
    }
  }

  /** No outcome is ever written twice, and a written one never changes. */
  lemma WrittenOnce(b: Batch, ss: seq<State>, acts: seq<Action>, n: nat, m: nat, i: nat)
    requires Run(b, ss, acts) && n < m < |acts| && i < b.size
    requires acts[n] == Write(i)
    ensures acts[m] != Write(i)
    ensures i < |ss[m].outcomes| && ss[m].outcomes[i] == Some(b.scrape(i))
  {
    InvAlongRun(b, ss, acts, n);
    assert HasWritten(ss[n + 1].phases[i]);
    StaysWritten(b, ss, acts, n + 1, m, i);
    InvAlongRun(b, ss, acts, m);
  }

  lemma StepKeepsWritten(b: Batch, s: State, a: Action, i: nat)
    requires Enabled(b, s, a)
    requires i < |s.phases| && HasWritten(s.phases[i])
    ensures i < |Step(b, s, a).phases| && HasWritten(Step(b, s, a).phases[i])
  {
  }

  lemma {:induction false} StaysWritten(b: Batch, ss: seq<State>, acts: seq<Action>, n: nat, m: nat, i: nat)
    requires Run(b, ss, acts) && n <= m < |ss|
    requires i < |ss[n].phases| && HasWritten(ss[n].phases[i])
    ensures i < |ss[m].phases| && HasWritten(ss[m].phases[i])
    decreases m - n
  {
    if n < m {
      StaysWritten(b, ss, acts, n, m - 1, i);
      StepKeepsWritten(b, ss[m - 1], acts[m - 1], i);
      assert ss[m - 1 + 1] == Step(b, ss[m - 1], acts[m - 1]);
    }
  }
}
