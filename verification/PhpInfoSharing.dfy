/** The lookup cache as the objects it is made of (info.go): one `Info` sits in the cache and in the call
    the waiters share, and every caller is handed a copy of it. */
module PhpInfoSharing {
  import opened Wrappers
  import opened PhpInfo

  /** A Go `*Info`; a null `extensions` is a nil slice. */
  class InfoObject {
    var version: string
    var extensions: array?<string>

    ghost function Repr(): set<object>
      reads this
    {
      {this} + if extensions == null then {} else {extensions as object}
    }

    ghost function Value(): Info
      reads this, extensions
    {
      Info(version, if extensions == null then None else Some(extensions[..]))
    }

    constructor (version: string, extensions: array?<string>)
      ensures this.version == version && this.extensions == extensions
    {
      this.version, this.extensions := version, extensions;
    }

    method Clone() returns (out: InfoObject)
      ensures fresh(out.Repr()) && out.Value() == Value()
    {
      var exts: array?<string> := null;
      if extensions != null {
        var from: array<string> := extensions;
        exts := new string[from.Length](i requires 0 <= i < from.Length reads from => from[i]);
        assert exts[..] == from[..];
      }
      out := new InfoObject(version, exts);
    }
  }

  /** A lookup's result as it is passed around: an `Info` pointer or an error. */
  datatype Outcome = Found(info: InfoObject) | Failed(error: string)

  /** The call object waiters share. */
  class FlightObject {
    var done: bool
    var outcome: Option<Outcome>

    constructor ()
      ensures !done && outcome == None
    {
      done, outcome := false, None;
    }
  }

  datatype Row = Row(outcome: Outcome, expiresAt: nat)

  class PhpInfoStore {
    var cache: map<string, Row>
    var inFlight: map<string, FlightObject>
    ghost var owned: set<object>
    ghost var entries: map<string, Entry>

    /** `entries` is what the cached rows say, and no object of theirs lies outside `owned`. */
    ghost predicate Valid()
      reads this, owned
    {
      && this !in owned
      && entries.Keys == cache.Keys
      && forall b | b in cache :: Holds(cache[b], entries[b])
    }

    ghost predicate Holds(row: Row, entry: Entry)
      reads this, owned
    {
      && row.expiresAt == entry.expiresAt
      && match row.outcome
         case Failed(e) => entry.answer == Err(e)
         case Found(info) => info in owned && info.Repr() <= owned && entry.answer == Ok(info.Value())
    }

    ghost function View(): Shared<FlightObject>
      reads this
    {
      Shared(entries, inFlight)
    }

    constructor ()
      ensures Valid() && View() == Shared(map[], map[]) && owned == {}
    {
      cache, inFlight, owned, entries := map[], map[], {}, map[];
    }

    /** The first locked section: a copy of a live entry, the call to wait on, or a call to lead. */
    method EnterOrLead(binary: string, now: nat) returns (hit: Option<Outcome>, flight: FlightObject?, lead: bool)
      requires Valid()
      modifies this`inFlight
      ensures Valid()
      ensures match Enter(old(View()), binary, now)
              case Hit(answer) =>
                View() == old(View()) && flight == null && hit.Some? && IsCopy(hit.value, answer)
              case Join(f) =>
                View() == old(View()) && hit == None && flight == f && !lead
              case Lead =>
                && hit == None && lead && flight != null && fresh(flight)
                && flight.outcome == None && !flight.done
                && View() == Registered(old(View()), binary, flight)
    {
      hit, flight, lead := None, null, false;
      if binary in cache && now < cache[binary].expiresAt {
        assert Holds(cache[binary], entries[binary]);
        var o := CopyOut(cache[binary].outcome);
        hit := Some(o);
      } else if binary in inFlight {
        flight := inFlight[binary];
      } else {
        flight := new FlightObject();
        lead := true;
        inFlight := inFlight[binary := flight];
      }
    }

    /** The second locked section: the leader's result is cached and its call leaves the table. */
    method Finish(binary: string, flight: FlightObject, now: nat, ghost answer: Answer)
      requires Valid()
      requires flight.outcome.Some? && Says(flight.outcome.value, answer)
      requires this !in Objects(flight.outcome.value)
      modifies this
      ensures Valid() && owned == old(owned) + Objects(flight.outcome.value)
      ensures View() == Finished(old(View()), binary, answer, now)
    {
      var outcome := flight.outcome.value;
      cache := cache[binary := Row(outcome, now + if outcome.Failed? then PHP_INFO_FAILURE_TTL else PHP_INFO_TTL)];
      inFlight := inFlight - {binary};
      owned := owned + Objects(outcome);
      entries := entries[binary := Entry(answer, now + Ttl(answer))];
      forall b | b in cache
        ensures Holds(cache[b], entries[b])
      {
        assert b != binary ==> old(Holds(cache[b], entries[b]));
      }
    }
  }

  ghost function Objects(o: Outcome): set<object>
    reads if o.Found? then {o.info} else {}
  {
    if o.Found? then o.info.Repr() else {}
  }

  /** The outcome is the answer, its reference followed. */
  ghost predicate Says(o: Outcome, a: Answer)
    reads if o.Found? then {o.info} else {}, Objects(o)
  {
    match o
    case Found(info) => a == Ok(info.Value())
    case Failed(e) => a == Err(e)
  }

  /** A new object that says `a`. */
  twostate predicate IsCopy(new o: Outcome, a: Answer)
    reads if o.Found? then {o.info} else {}, Objects(o)
  {
    Says(o, a) && fresh(Objects(o))
  }

  method CopyOut(o: Outcome) returns (out: Outcome)
    ensures fresh(Objects(out))
    ensures forall a :: Says(o, a) ==> Says(out, a)
  {
    out := o;
    if o.Found? {
      var copied := o.info.Clone();
      out := Found(copied);
    }
  }

  /** What a waiter does once the channel is closed. */
  method Receive(flight: FlightObject, ghost answer: Answer) returns (out: Outcome)
    requires flight.done && flight.outcome.Some? && Says(flight.outcome.value, answer)
    ensures IsCopy(out, answer)
  {
    out := CopyOut(flight.outcome.value);
  }

  // ----- Callers that write to what they were given -----

  /** The outcome a lookup builds. */
  method BuildOutcome(a: Answer) returns (out: Outcome)
    ensures IsCopy(out, a)
  {
    match a {
      case Err(e) => out := Failed(e);
      case Ok(info) =>
        var exts: array?<string> := null;
        if info.extensions.Some? {
          var list := info.extensions.value;
          exts := new string[|list|](i requires 0 <= i < |list| => list[i]);
          assert exts[..] == list;
        }
        var built := new InfoObject(info.version, exts);
        out := Found(built);
    }
  }

  /** An undisturbed call: when it came, what its lookup would read, and when that would be over. */
  datatype Visit = Visit(binary: string, now: nat, read: Answer, doneAt: nat)

  function Alone<F>(s: Shared<F>, v: Visit): (Shared<F>, Answer) {
    if v.binary in s.cache && v.now < s.cache[v.binary].expiresAt then (s, s.cache[v.binary].answer)
    else (Finished(s, v.binary, v.read, v.doneAt), v.read)
  }

  /** `GetPHPStats` when nobody interferes. */
  method GetPHPStats(store: PhpInfoStore, v: Visit) returns (out: Outcome)
    requires store.Valid() && store.inFlight == map[]
    modifies store
    ensures store.Valid() && store.inFlight == map[]
    ensures fresh(store.owned - old(store.owned))
    ensures store.View() == Alone(old(store.View()), v).0
    ensures Says(out, Alone(old(store.View()), v).1)
    ensures fresh(Objects(out)) && Objects(out) !! store.owned
  {
    var hit, flight, lead := store.EnterOrLead(v.binary, v.now);
    if hit.Some? {
      return hit.value;
    }
    out := LeadLookup(store, v, flight);
  }

  /** The leader's part of a call. */
  method LeadLookup(store: PhpInfoStore, v: Visit, flight: FlightObject) returns (out: Outcome)
    requires store.Valid() && store.inFlight == map[v.binary := flight] && flight !in store.owned
    modifies store, flight
    ensures store.Valid() && fresh(store.owned - old(store.owned))
    ensures store.View() == Finished(old(store.View()), v.binary, v.read, v.doneAt) && store.inFlight == map[]
    ensures Says(out, v.read) && fresh(Objects(out)) && Objects(out) !! store.owned
  {
    var outcome := BuildOutcome(v.read);
    flight.outcome := Some(outcome);
    store.Finish(v.binary, flight, v.doneAt, v.read);
    flight.done := true;
    out := Receive(flight, v.read);
  }

  datatype Move = Ask(visit: Visit) | Scribble

  /** What a script of calls means when nothing that callers do to their copies matters. */
  function Replay<F>(s: Shared<F>, script: seq<Move>): (Shared<F>, seq<Answer>) {
    if script == [] then (s, [])
    else
      var (before, answers) := Replay(s, script[..|script| - 1]);
      match script[|script| - 1]
      case Ask(v) => (Alone(before, v).0, answers + [Alone(before, v).1])
      case Scribble => (before, answers)
  }

  /** Asked twice, a cold store answers the second time from the first lookup while that lasts: an hour after
      a success, a minute after a failure. */
  lemma SecondAskIsAnswered<F>(first: Visit, second: Visit)
    requires first.binary == second.binary
    ensures Replay<F>(Shared(map[], map[]), [Ask(first), Ask(second)]).1
         == [first.read, if Lasts(first.read, first.doneAt, second.now) then first.read else second.read]
  {
    var cold: Shared<F> := Shared(map[], map[]);
    var script := [Ask(first), Ask(second)];
    assert script[..1] == [Ask(first)] && [Ask(first)][..0] == [];
    assert Replay(cold, []) == (cold, []);
    assert Replay(cold, [Ask(first)]) == (Alone(cold, first).0, [] + [Alone(cold, first).1]);
  }

  /** A caller does anything at all to everything it has been handed. */
  method ScribbleOn(ghost handed: set<object>)
    modifies handed
  {
  }

  /** Whatever callers write into what they were handed, every later answer and the cache itself are
      what they would have been without it. */
  method Session(store: PhpInfoStore, script: seq<Move>) returns (ghost answers: seq<Answer>)
    requires store.Valid() && store.inFlight == map[]
    modifies store
    ensures store.Valid()
    ensures (store.View(), answers) == Replay(old(store.View()), script)
  {
    answers := [];
    ghost var start := store.View();
    ghost var handed: set<object> := {};
    for n := 0 to |script|
      invariant store.Valid() && store.inFlight == map[]
      invariant handed !! store.owned && store !in handed && fresh(handed) && fresh(store.owned - old(store.owned))
      invariant (store.View(), answers) == Replay(start, script[..n])
    {
      assert script[..n + 1][..n] == script[..n];
      match script[n] {
        case Ask(v) =>
          answers := answers + [Alone(store.View(), v).1];
          var out := GetPHPStats(store, v);
          handed := handed + Objects(out);
        case Scribble =>
          ScribbleOn(handed);
      }
    }
    assert script[..|script|] == script;
  }
}
