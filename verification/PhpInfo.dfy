/** The coalesced, time-limited lookup of a binary's version and extensions (info.go), as a transition
    system: the first caller of a cold binary leads and reads, later ones wait on its channel, and
    the result is kept for an hour, or a minute when it failed. */
module PhpInfo {
  import opened Wrappers

  /** Times are in nanoseconds on a monotone clock. */
  const SECOND := 1_000_000_000
  const MINUTE := 60 * SECOND
  const PHP_INFO_TTL := 60 * MINUTE
  const PHP_INFO_FAILURE_TTL := MINUTE

  /** `extensions` is None for a nil slice. */
  datatype Info = Info(version: string, extensions: Option<seq<string>>)

  type Answer = Result<Info, string>

  function Ttl(a: Answer): nat {
    if a.Err? then PHP_INFO_FAILURE_TTL else PHP_INFO_TTL
  }

  // ----- The atomic sections -----

  datatype Entry = Entry(answer: Answer, expiresAt: nat)

  /** What the mutex guards; `F` names an in-flight call. */
  datatype Shared<F> = Shared(cache: map<string, Entry>, inFlight: map<string, F>)

  datatype Entered<F> = Hit(answer: Answer) | Join(flight: F) | Lead

  function Enter<F>(s: Shared<F>, binary: string, now: nat): Entered<F> {
    if binary in s.cache && now < s.cache[binary].expiresAt then Hit(s.cache[binary].answer)
    else if binary in s.inFlight then Join(s.inFlight[binary])
    else Lead
  }

  function Registered<F>(s: Shared<F>, binary: string, f: F): Shared<F> {
    s.(inFlight := s.inFlight[binary := f])
  }

  function Finished<F>(s: Shared<F>, binary: string, answer: Answer, now: nat): Shared<F> {
    Shared(s.cache[binary := Entry(answer, now + Ttl(answer))], s.inFlight - {binary})
  }

  // ----- The transition system -----

  /** Where a call of `GetPHPStats` is. A leader is `Leading` until its result is in the cache;
      `Cached` then still has to close its channel. A caller that gave up returned None. */
  datatype Stage = ToRead | Reading | Written

  datatype Caller =
    | Leading(binary: string, stage: Stage)
    | Cached(binary: string)
    | Waiting(binary: string, flight: nat)
    | Returned(binary: string, answer: Option<Answer>)

  /** The call object a leader shares: its result fields, and how often its channel was closed. */
  datatype Flight = Flight(published: Option<Answer>, closes: nat)

  datatype Finish = Finish(at: nat, answer: Answer)

  /** One run of `readPHPInfo`. */
  datatype Lookup = Lookup(start: nat, finish: Option<Finish>)

  /** Calls are numbered; a leader's call object goes by its leader's number. `log` records every
      lookup of a binary, oldest first. */
  datatype World = World(
    now: nat,
    shared: Shared<nat>,
    flights: map<nat, Flight>,
    callers: map<nat, Caller>,
    log: map<string, seq<Lookup>>)

  datatype Action =
    | Arrive(caller: nat, binary: string)
    | StartRead(caller: nat)
    | EndRead(caller: nat, answer: Answer)
    | Store(caller: nat)
    | Close(caller: nat)
    | Receive(caller: nat)
    | GiveUp(caller: nat)
    | Tick(elapsed: nat)

  function Log(w: World, binary: string): seq<Lookup> {
    if binary in w.log then w.log[binary] else []
  }

  predicate At(w: World, id: nat, stage: Stage) {
    id in w.callers && w.callers[id].Leading? && w.callers[id].stage == stage
  }

  predicate Enabled(w: World, a: Action) {
    match a
    case Arrive(id, _) => id !in w.callers
    case StartRead(id) => At(w, id, ToRead)
    case EndRead(id, _) => At(w, id, Reading) && id in w.flights
    case Store(id) =>
      && At(w, id, Written)
      && id in w.flights && w.flights[id].published.Some?
      && Log(w, w.callers[id].binary) != []
    case Close(id) => id in w.callers && w.callers[id].Cached? && id in w.flights
    case Receive(id) =>
      && id in w.callers && w.callers[id].Waiting?
      && w.callers[id].flight in w.flights && w.flights[w.callers[id].flight].closes > 0
    case GiveUp(id) => id in w.callers && w.callers[id].Waiting?
    case Tick(_) => true
  }

  function Step(w: World, a: Action): World
    requires Enabled(w, a)
  {
    match a
    case Arrive(id, binary) =>
      (match Enter(w.shared, binary, w.now)
       case Hit(answer) => w.(callers := w.callers[id := Returned(binary, Some(answer))])
       case Join(flight) => w.(callers := w.callers[id := Waiting(binary, flight)])
       case Lead =>
         w.(shared := Registered(w.shared, binary, id),
            flights := w.flights[id := Flight(None, 0)],
            callers := w.callers[id := Leading(binary, ToRead)]))
    case StartRead(id) =>
      var binary := w.callers[id].binary;
      w.(callers := w.callers[id := Leading(binary, Reading)],
         log := w.log[binary := Log(w, binary) + [Lookup(w.now, None)]])
    case EndRead(id, answer) =>
      w.(callers := w.callers[id := Leading(w.callers[id].binary, Written)],
         flights := w.flights[id := w.flights[id].(published := Some(answer))])
    case Store(id) =>
      var binary, answer := w.callers[id].binary, w.flights[id].published.value;
      var lookups := Log(w, binary);
      var last := |lookups| - 1;
      w.(shared := Finished(w.shared, binary, answer, w.now),
         callers := w.callers[id := Cached(binary)],
         log := w.log[binary := lookups[last := lookups[last].(finish := Some(Finish(w.now, answer)))]])
    case Close(id) =>
      w.(flights := w.flights[id := w.flights[id].(closes := w.flights[id].closes + 1)],
         callers := w.callers[id := Returned(w.callers[id].binary, w.flights[id].published)])
    case Receive(id) =>
      var c := w.callers[id];
      w.(callers := w.callers[id := Returned(c.binary, w.flights[c.flight].published)])
    case GiveUp(id) =>
      w.(callers := w.callers[id := Returned(w.callers[id].binary, None)])
    case Tick(elapsed) =>
      w.(now := w.now + elapsed)
  }

  // ----- What every step keeps -----

  /** A binary is in flight exactly while its one leader has not yet stored. */
  predicate InFlightOk(w: World) {
    && (forall b | b in w.shared.inFlight :: Leads(w, w.shared.inFlight[b], b))
    && (forall id | id in w.callers && w.callers[id].Leading? ::
          w.callers[id].binary in w.shared.inFlight && w.shared.inFlight[w.callers[id].binary] == id)
  }

  predicate Leads(w: World, id: nat, binary: string) {
    id in w.callers && w.callers[id].Leading? && w.callers[id].binary == binary
  }

  /** The result fields are written once reading is over, and the channel is closed once, at the end. */
  predicate FlightOk(f: Flight, leader: Caller) {
    match leader
    case Leading(_, Written) => f.published.Some? && f.closes == 0
    case Leading(_, _) => f.published.None? && f.closes == 0
    case Cached(_) => f.published.Some? && f.closes == 0
    case Returned(_, answer) => f.published.Some? && f.closes == 1 && answer == f.published
    case Waiting(_, _) => false
  }

  predicate FlightsOk(w: World) {
    && (forall id | id in w.flights :: id in w.callers && FlightOk(w.flights[id], w.callers[id]))
    && (forall id | id in w.callers && (w.callers[id].Leading? || w.callers[id].Cached?) :: id in w.flights)
    && (forall id | id in w.callers && w.callers[id].Waiting? ::
          WaitOk(w, w.callers[id].binary, w.callers[id].flight))
  }

  /** A waiter waits on a call for its own binary. */
  predicate WaitOk(w: World, binary: string, flight: nat) {
    flight in w.flights && flight in w.callers && w.callers[flight].binary == binary
  }

  predicate Ended(l: Lookup) {
    l.finish.Some? && l.start <= l.finish.value.at
  }

  function Expiry(l: Lookup): nat
    requires Ended(l)
  {
    l.finish.value.at + Ttl(l.finish.value.answer)
  }

  /** Each lookup starts no earlier than the previous one's end plus its time to live. */
  predicate Spaced(lookups: seq<Lookup>) {
    forall i | 0 <= i < |lookups| - 1 :: Ended(lookups[i]) && Expiry(lookups[i]) <= lookups[i + 1].start
  }

  /** Whether somebody is between starting and storing a lookup of `binary`. */
  predicate Running(w: World, binary: string) {
    && binary in w.shared.inFlight
    && (At(w, w.shared.inFlight[binary], Reading) || At(w, w.shared.inFlight[binary], Written))
  }

  predicate LogOk(w: World, binary: string) {
    var lookups := Log(w, binary);
    && Spaced(lookups)
    && (lookups == [] ==> binary !in w.shared.cache && !Running(w, binary))
    && (lookups != [] ==>
         var last := lookups[|lookups| - 1];
         && last.start <= w.now
         && (Running(w, binary) ==> last.finish.None?)
         && (!Running(w, binary) ==>
               && Ended(last) && last.finish.value.at <= w.now
               && binary in w.shared.cache
               && w.shared.cache[binary] == Entry(last.finish.value.answer, Expiry(last))
               && (binary in w.shared.inFlight ==> Expiry(last) <= w.now)))
  }

  /** Every answer given out is one some lookup of that binary came back with. */
  predicate AnswerOk(w: World, binary: string, a: Answer) {
    exists i | 0 <= i < |Log(w, binary)| :: Log(w, binary)[i].finish.Some? && Log(w, binary)[i].finish.value.answer == a
  }

  predicate CallerOk(w: World, id: nat)
    requires id in w.callers
  {
    var c := w.callers[id];
    && (c.Returned? && c.answer.Some? ==> AnswerOk(w, c.binary, c.answer.value))
    && (c.Cached? && id in w.flights && w.flights[id].published.Some? ==>
          AnswerOk(w, c.binary, w.flights[id].published.value))
  }

  predicate AnswersOk(w: World) {
    && (forall id | id in w.callers :: CallerOk(w, id))
    && (forall b | b in w.shared.cache :: AnswerOk(w, b, w.shared.cache[b].answer))
  }

  ghost predicate Inv(w: World) {
    && InFlightOk(w)
    && FlightsOk(w)
    && (forall b: string :: LogOk(w, b))
    && AnswersOk(w)
  }

  lemma InvHoldsInitially(now: nat)
    ensures Inv(World(now, Shared(map[], map[]), map[], map[], map[]))
  {
  }

  lemma LeaderIsKept(w: World, a: Action, b: string)
    requires InFlightOk(w) && Enabled(w, a) && b in Step(w, a).shared.inFlight
    ensures Leads(Step(w, a), Step(w, a).shared.inFlight[b], b)
  {
    assert b in w.shared.inFlight ==> Leads(w, w.shared.inFlight[b], b);
  }

  lemma LeaderIsInFlight(w: World, a: Action, id: nat)
    requires InFlightOk(w) && Enabled(w, a) && id in Step(w, a).callers && Step(w, a).callers[id].Leading?
    ensures var w' := Step(w, a);
            w'.callers[id].binary in w'.shared.inFlight && w'.shared.inFlight[w'.callers[id].binary] == id
  {
  }

  lemma InFlightIsKept(w: World, a: Action)
    requires InFlightOk(w) && Enabled(w, a)
    ensures InFlightOk(Step(w, a))
  {
    var w' := Step(w, a);
    forall b | b in w'.shared.inFlight
      ensures Leads(w', w'.shared.inFlight[b], b)
    {
      LeaderIsKept(w, a, b);
    }
    forall id | id in w'.callers && w'.callers[id].Leading?
      ensures w'.callers[id].binary in w'.shared.inFlight && w'.shared.inFlight[w'.callers[id].binary] == id
    {
      LeaderIsInFlight(w, a, id);
    }
  }

  lemma FlightsAreKept(w: World, a: Action)
    requires InFlightOk(w) && FlightsOk(w) && Enabled(w, a)
    ensures FlightsOk(Step(w, a))
  {
    var w' := Step(w, a);
    forall id | id in w'.flights
      ensures id in w'.callers && FlightOk(w'.flights[id], w'.callers[id])
    {
      FlightIsKept(w, a, id);
    }
    forall id | id in w'.callers && w'.callers[id].Waiting?
      ensures WaitOk(w', w'.callers[id].binary, w'.callers[id].flight)
    {
      WaitIsKept(w, a, id);
    }
  }

  lemma FlightIsKept(w: World, a: Action, id: nat)
    requires FlightsOk(w) && Enabled(w, a) && id in Step(w, a).flights
    ensures id in Step(w, a).callers && FlightOk(Step(w, a).flights[id], Step(w, a).callers[id])
  {
    if id in w.flights {
      assert FlightOk(w.flights[id], w.callers[id]);
    }
  }

  lemma WaitIsKept(w: World, a: Action, id: nat)
    requires InFlightOk(w) && FlightsOk(w) && Enabled(w, a)
    requires id in Step(w, a).callers && Step(w, a).callers[id].Waiting?
    ensures WaitOk(Step(w, a), Step(w, a).callers[id].binary, Step(w, a).callers[id].flight)
  {
    if id in w.callers {
      assert WaitOk(w, w.callers[id].binary, w.callers[id].flight);
    } else {
      assert Leads(w, w.shared.inFlight[a.binary], a.binary);
    }
  }

  /** A step that leaves the lookups of `b`, its entry and its leader alone. */
  lemma LogUntouched(w: World, w': World, b: string)
    requires LogOk(w, b)
    requires Log(w', b) == Log(w, b) && w.now <= w'.now
    requires b in w'.shared.cache <==> b in w.shared.cache
    requires b in w.shared.cache ==> w'.shared.cache[b] == w.shared.cache[b]
    requires b in w'.shared.inFlight <==> b in w.shared.inFlight
    requires Running(w', b) == Running(w, b)
    ensures LogOk(w', b)
  {
  }

  /** Which steps rewrite the lookups of `b`. */
  predicate Touches(w: World, a: Action, b: string)
    requires Enabled(w, a)
  {
    (a.StartRead? || a.Store?) && w.callers[a.caller].binary == b
  }

  lemma OthersStayPut(w: World, a: Action, b: string)
    requires InFlightOk(w) && Enabled(w, a) && !Touches(w, a, b)
    requires a.Arrive? ==> a.binary != b || !Enter(w.shared, b, w.now).Lead?
    ensures var w' := Step(w, a);
            && Log(w', b) == Log(w, b) && w.now <= w'.now
            && (b in w'.shared.cache <==> b in w.shared.cache)
            && (b in w.shared.cache ==> w'.shared.cache[b] == w.shared.cache[b])
            && (b in w'.shared.inFlight <==> b in w.shared.inFlight)
            && (b in w.shared.inFlight ==> w'.shared.inFlight[b] == w.shared.inFlight[b])
  {
  }

  lemma RunningStays(w: World, a: Action, b: string)
    requires InFlightOk(w) && Enabled(w, a) && !Touches(w, a, b)
    requires a.Arrive? ==> a.binary != b || !Enter(w.shared, b, w.now).Lead?
    ensures Running(Step(w, a), b) == Running(w, b)
  {
    OthersStayPut(w, a, b);
    if b in w.shared.inFlight {
      var k := w.shared.inFlight[b];
      assert Leads(w, k, b);
    }
  }

  lemma LogIsKept(w: World, a: Action, b: string)
    requires InFlightOk(w) && LogOk(w, b) && Enabled(w, a)
    ensures LogOk(Step(w, a), b)
  {
    if Touches(w, a, b) {
      if a.Store? {
        StoreKeepsLog(w, a.caller);
      } else {
        StartKeepsLog(w, a.caller);
      }
    } else if a.Arrive? && a.binary == b && Enter(w.shared, b, w.now).Lead? {
      LeadKeepsLog(w, a.caller, b);
    } else {
      OthersStayPut(w, a, b);
      RunningStays(w, a, b);
      LogUntouched(w, Step(w, a), b);
    }
  }

  lemma LeadKeepsLog(w: World, id: nat, b: string)
    requires LogOk(w, b) && Enabled(w, Arrive(id, b)) && Enter(w.shared, b, w.now).Lead?
    ensures LogOk(Step(w, Arrive(id, b)), b)
  {
    assert !Running(w, b) && !Running(Step(w, Arrive(id, b)), b);
  }

  lemma StartKeepsLog(w: World, id: nat)
    requires InFlightOk(w) && Enabled(w, StartRead(id))
    requires LogOk(w, w.callers[id].binary)
    ensures LogOk(Step(w, StartRead(id)), w.callers[id].binary)
  {
    var b := w.callers[id].binary;
    var lookups := Log(w, b);
    assert !Running(w, b);
    var longer := lookups + [Lookup(w.now, None)];
    assert Log(Step(w, StartRead(id)), b) == longer;
    assert forall i | 0 <= i < |lookups| :: longer[i] == lookups[i];
  }

  lemma StoreKeepsLog(w: World, id: nat)
    requires InFlightOk(w) && Enabled(w, Store(id))
    requires LogOk(w, w.callers[id].binary)
    ensures LogOk(Step(w, Store(id)), w.callers[id].binary)
  {
    var b := w.callers[id].binary;
    assert Running(w, b);
    var w' := Step(w, Store(id));
    assert !Running(w', b);
    assert forall i | 0 <= i < |Log(w, b)| - 1 :: Log(w', b)[i] == Log(w, b)[i];
  }

  /** No step takes back what a finished lookup answered. */
  lemma AnswersStay(w: World, a: Action, b: string, answer: Answer)
    requires InFlightOk(w) && LogOk(w, b) && Enabled(w, a)
    requires AnswerOk(w, b, answer)
    ensures AnswerOk(Step(w, a), b, answer)
  {
    var w' := Step(w, a);
    var i :| 0 <= i < |Log(w, b)| && Log(w, b)[i].finish.Some? && Log(w, b)[i].finish.value.answer == answer;
    if a.Store? && w.callers[a.caller].binary == b {
      assert Running(w, b);
      assert Log(w', b)[i] == Log(w, b)[i];
    }
    assert Log(w', b)[i] == Log(w, b)[i];
  }

  lemma StoredAnswerIsLogged(w: World, id: nat)
    requires Enabled(w, Store(id))
    ensures AnswerOk(Step(w, Store(id)), w.callers[id].binary, w.flights[id].published.value)
  {
    var b := w.callers[id].binary;
    var w' := Step(w, Store(id));
    assert Log(w', b)[|Log(w, b)| - 1].finish == Some(Finish(w.now, w.flights[id].published.value));
  }

  lemma CallerIsKept(w: World, a: Action, id: nat)
    requires Inv(w) && Enabled(w, a) && id in Step(w, a).callers
    ensures CallerOk(Step(w, a), id)
  {
    var w' := Step(w, a);
    if id in w.callers && w'.callers[id] == w.callers[id] {
      assert CallerOk(w, id);
      var c := w.callers[id];
      assert LogOk(w, c.binary);
      if c.Returned? && c.answer.Some? {
        AnswersStay(w, a, c.binary, c.answer.value);
      } else if c.Cached? && id in w.flights && w.flights[id].published.Some? {
        AnswersStay(w, a, c.binary, w.flights[id].published.value);
      }
    } else {
      NewAnswerIsLogged(w, a, id);
    }
  }

  lemma NewAnswerIsLogged(w: World, a: Action, id: nat)
    requires Inv(w) && Enabled(w, a) && id in Step(w, a).callers
    requires id !in w.callers || Step(w, a).callers[id] != w.callers[id]
    ensures CallerOk(Step(w, a), id)
  {
    match a {
      case Arrive(_, binary) =>
        if Enter(w.shared, binary, w.now).Hit? {
          assert LogOk(w, binary);
          AnswersStay(w, a, binary, w.shared.cache[binary].answer);
        }
      case Store(_) => StoredAnswerIsLogged(w, id);
      case Close(_) =>
        assert CallerOk(w, id) && FlightOk(w.flights[id], w.callers[id]) && LogOk(w, w.callers[id].binary);
        AnswersStay(w, a, w.callers[id].binary, w.flights[id].published.value);
      case Receive(_) =>
        var k := w.callers[id].flight;
        assert CallerOk(w, k) && FlightOk(w.flights[k], w.callers[k]) && LogOk(w, w.callers[id].binary);
        AnswersStay(w, a, w.callers[id].binary, w.flights[k].published.value);
      case StartRead(_) =>
      case EndRead(_, _) =>
      case GiveUp(_) =>
      case Tick(_) =>
    }
  }

  lemma AnswersAreKept(w: World, a: Action)
    requires Inv(w) && Enabled(w, a)
    ensures AnswersOk(Step(w, a))
  {
    var w' := Step(w, a);
    forall id | id in w'.callers
      ensures CallerOk(w', id)
    {
      CallerIsKept(w, a, id);
    }
    forall b | b in w'.shared.cache
      ensures AnswerOk(w', b, w'.shared.cache[b].answer)
    {
      if a.Store? && w.callers[a.caller].binary == b {
        StoredAnswerIsLogged(w, a.caller);
      } else {
        assert b in w.shared.cache && LogOk(w, b);
        AnswersStay(w, a, b, w.shared.cache[b].answer);
      }
    }
  }

  lemma InvIsKept(w: World, a: Action)
    requires Inv(w) && Enabled(w, a)
    ensures Inv(Step(w, a))
  {
    InFlightIsKept(w, a);
    FlightsAreKept(w, a);
    forall b: string
      ensures LogOk(Step(w, a), b)
    {
      assert LogOk(w, b);
      LogIsKept(w, a, b);
    }
    AnswersAreKept(w, a);
  }

  // ----- Whole runs -----

  ghost predicate Run(ws: seq<World>, acts: seq<Action>) {
    && |ws| == |acts| + 1
    && (exists now: nat :: ws[0] == World(now, Shared(map[], map[]), map[], map[], map[]))
    && forall i | 0 <= i < |acts| :: Enabled(ws[i], acts[i]) && ws[i + 1] == Step(ws[i], acts[i])
  }

  lemma {:induction false} InvAlongRun(ws: seq<World>, acts: seq<Action>, n: nat)
    requires Run(ws, acts) && n < |ws|
    ensures Inv(ws[n])
  {
    if n == 0 {
      var now: nat :| ws[0] == World(now, Shared(map[], map[]), map[], map[], map[]);
      InvHoldsInitially(now);
    } else {
      InvAlongRun(ws, acts, n - 1);
      InvIsKept(ws[n - 1], acts[n - 1]);
    }
  }

  /** Single flight: at no moment of any run do two callers read the same binary; a binary is in
      flight exactly while some caller leads it; no channel is closed twice, and a leader that has
      returned has closed its own. */
  lemma SingleFlight(ws: seq<World>, acts: seq<Action>, n: nat)
    requires Run(ws, acts) && n < |ws|
    ensures forall i, j | At(ws[n], i, Reading) && At(ws[n], j, Reading)
              && ws[n].callers[i].binary == ws[n].callers[j].binary :: i == j
    ensures forall b :: b in ws[n].shared.inFlight <==> exists id :: Leads(ws[n], id, b)
    ensures forall id | id in ws[n].flights :: ws[n].flights[id].closes <= 1
    ensures forall id | id in ws[n].flights && id in ws[n].callers && ws[n].callers[id].Returned? ::
              ws[n].flights[id].closes == 1
  {
    InvAlongRun(ws, acts, n);
    var w := ws[n];
    forall id | id in w.flights
      ensures FlightOk(w.flights[id], w.callers[id])
    {
    }
    forall b
      ensures b in w.shared.inFlight <==> exists id :: Leads(w, id, b)
    {
      if b in w.shared.inFlight {
        assert Leads(w, w.shared.inFlight[b], b);
      }
    }
  }

  /** A waiter that may read finds a result, the very one its leader returns; once written the result
      fields never change again. */
  lemma Publication(ws: seq<World>, acts: seq<Action>, n: nat)
    requires Run(ws, acts) && n < |acts|
    ensures acts[n].Receive? ==>
              var k := ws[n].callers[acts[n].caller].flight;
              && ws[n].flights[k].published.Some?
              && k in ws[n].callers && ws[n].callers[k].Returned? && ws[n].callers[k].answer == ws[n].flights[k].published
              && ws[n].callers[k].binary == ws[n].callers[acts[n].caller].binary
              && ws[n + 1].callers[acts[n].caller] == Returned(ws[n].callers[k].binary, ws[n].flights[k].published)
    ensures forall id | id in ws[n].flights && ws[n].flights[id].published.Some? ::
              id in ws[n + 1].flights && ws[n + 1].flights[id].published == ws[n].flights[id].published
  {
    InvAlongRun(ws, acts, n);
    var w := ws[n];
    forall id | id in w.flights
      ensures FlightOk(w.flights[id], w.callers[id])
    {
    }
    if acts[n].Receive? {
      var c := w.callers[acts[n].caller];
      assert WaitOk(w, c.binary, c.flight);
    }
  }

  /** The next step of the leader of a call, until it has closed its channel. */
  function LeaderMove(c: Caller, id: nat, answer: Answer): Action
    requires c.Leading? || c.Cached?
  {
    match c
    case Leading(_, ToRead) => StartRead(id)
    case Leading(_, Reading) => EndRead(id, answer)
    case Leading(_, Written) => Store(id)
    case Cached(_) => Close(id)
  }

  /** How many steps it still has to take. */
  function LeaderStepsLeft(c: Caller): nat {
    match c
    case Leading(_, ToRead) => 4
    case Leading(_, Reading) => 3
    case Leading(_, Written) => 2
    case Cached(_) => 1
    case _ => 0
  }

  predicate IsMoveOf(a: Action, id: nat) {
    (a.StartRead? || a.EndRead? || a.Store? || a.Close?) && a.caller == id
  }

  /** Nobody can hold up a leader: whoever waits on it or not, its next step can always be taken. */
  lemma LeadersCanMove(ws: seq<World>, acts: seq<Action>, n: nat, id: nat, answer: Answer)
    requires Run(ws, acts) && n < |ws|
    requires id in ws[n].callers && (ws[n].callers[id].Leading? || ws[n].callers[id].Cached?)
    ensures Enabled(ws[n], LeaderMove(ws[n].callers[id], id, answer))
  {
    InvAlongRun(ws, acts, n);
    LeaderCanMove(ws[n], id, answer);
  }

  lemma LeaderCanMove(w: World, id: nat, answer: Answer)
    requires InFlightOk(w) && FlightsOk(w) && (forall b: string :: LogOk(w, b))
    requires id in w.callers && (w.callers[id].Leading? || w.callers[id].Cached?)
    ensures Enabled(w, LeaderMove(w.callers[id], id, answer))
  {
    assert FlightOk(w.flights[id], w.callers[id]);
    assert LogOk(w, w.callers[id].binary);
  }

  /** Each step of a leader brings it one step nearer, and nobody else's step moves it. */
  lemma LeadersAdvance(w: World, a: Action, id: nat)
    requires InFlightOk(w) && FlightsOk(w) && Enabled(w, a) && id in w.flights
    ensures id in Step(w, a).flights && id in Step(w, a).callers
    ensures LeaderStepsLeft(Step(w, a).callers[id]) + (if IsMoveOf(a, id) then 1 else 0)
         == LeaderStepsLeft(w.callers[id])
  {
    assert FlightOk(w.flights[id], w.callers[id]);
  }

  /** How many of the steps from the `n`-th to before the `m`-th a leader took. */
  function MovesOf(acts: seq<Action>, n: nat, m: nat, id: nat): nat
    requires n <= m <= |acts|
    decreases m
  {
    if n == m then 0 else MovesOf(acts, n, m - 1, id) + if IsMoveOf(acts[m - 1], id) then 1 else 0
  }

  lemma {:induction false} FlightStays(ws: seq<World>, acts: seq<Action>, n: nat, m: nat, id: nat)
    requires Run(ws, acts) && n <= m < |ws| && id in ws[n].flights && id in ws[n].callers
    ensures id in ws[m].flights && id in ws[m].callers
    decreases m
  {
    if n < m {
      FlightStays(ws, acts, n, m - 1, id);
      OneMoveIsSpent(ws, acts, m - 1, id);
    }
  }

  lemma OneMoveIsSpent(ws: seq<World>, acts: seq<Action>, k: nat, id: nat)
    requires Run(ws, acts) && k < |acts| && id in ws[k].flights && id in ws[k].callers
    ensures id in ws[k + 1].flights && id in ws[k + 1].callers
    ensures LeaderStepsLeft(ws[k + 1].callers[id]) + (if IsMoveOf(acts[k], id) then 1 else 0)
         == LeaderStepsLeft(ws[k].callers[id])
  {
    InvAlongRun(ws, acts, k);
    assert ws[k + 1] == Step(ws[k], acts[k]);
    LeadersAdvance(ws[k], acts[k], id);
  }

  function LeftAt(ws: seq<World>, k: nat, id: nat): nat {
    if k < |ws| && id in ws[k].callers then LeaderStepsLeft(ws[k].callers[id]) else 0
  }

  lemma {:induction false} SpentAlong(ws: seq<World>, acts: seq<Action>, n: nat, m: nat, id: nat)
    requires n <= m <= |acts|
    requires forall k: nat | n <= k < m ::
               LeftAt(ws, k + 1, id) + (if IsMoveOf(acts[k], id) then 1 else 0) == LeftAt(ws, k, id)
    ensures LeftAt(ws, m, id) + MovesOf(acts, n, m, id) == LeftAt(ws, n, id)
    decreases m
  {
    if n < m {
      SpentAlong(ws, acts, n, m - 1, id);
      assert LeftAt(ws, m - 1 + 1, id) + (if IsMoveOf(acts[m - 1], id) then 1 else 0) == LeftAt(ws, m - 1, id);
    }
  }

  lemma OneLeft(ws: seq<World>, acts: seq<Action>, n: nat, k: nat, id: nat)
    requires Run(ws, acts) && n <= k < |acts| && id in ws[n].flights && id in ws[n].callers
    ensures LeftAt(ws, k + 1, id) + (if IsMoveOf(acts[k], id) then 1 else 0) == LeftAt(ws, k, id)
  {
    FlightStays(ws, acts, n, k, id);
    OneMoveIsSpent(ws, acts, k, id);
  }

  lemma MovesAreSpent(ws: seq<World>, acts: seq<Action>, n: nat, m: nat, id: nat)
    requires Run(ws, acts) && n <= m < |ws| && id in ws[n].flights && id in ws[n].callers
    ensures id in ws[m].flights && id in ws[m].callers
    ensures LeaderStepsLeft(ws[m].callers[id]) + MovesOf(acts, n, m, id) == LeaderStepsLeft(ws[n].callers[id])
  {
    forall k: nat | n <= k < m
      ensures LeftAt(ws, k + 1, id) + (if IsMoveOf(acts[k], id) then 1 else 0) == LeftAt(ws, k, id)
    {
      OneLeft(ws, acts, n, k, id);
    }
    FlightStays(ws, acts, n, m, id);
    SpentAlong(ws, acts, n, m, id);
  }

  /** Nobody is stranded: the call a waiter waits on needs at most four more steps of its leader, which can
      always take the next one, and once it has taken them, whatever others did meanwhile, every waiter
      on it can read its result. */
  lemma NobodyIsStranded(ws: seq<World>, acts: seq<Action>, n: nat, m: nat, id: nat, answer: Answer)
    requires Run(ws, acts) && n <= m < |ws|
    requires id in ws[n].callers && ws[n].callers[id].Waiting?
    requires id in ws[m].callers && ws[m].callers[id] == ws[n].callers[id]
    ensures var k := ws[n].callers[id].flight;
            && k in ws[n].callers && k in ws[m].callers && LeaderStepsLeft(ws[n].callers[k]) <= 4
            && LeaderStepsLeft(ws[m].callers[k]) + MovesOf(acts, n, m, k) == LeaderStepsLeft(ws[n].callers[k])
            && (if LeaderStepsLeft(ws[m].callers[k]) == 0 then Enabled(ws[m], Receive(id))
                else
                  && (ws[m].callers[k].Leading? || ws[m].callers[k].Cached?)
                  && Enabled(ws[m], LeaderMove(ws[m].callers[k], k, answer)))
  {
    var k := ws[n].callers[id].flight;
    InvAlongRun(ws, acts, n);
    assert WaitOk(ws[n], ws[n].callers[id].binary, k);
    MovesAreSpent(ws, acts, n, m, k);
    InvAlongRun(ws, acts, m);
    WaitedForCanMove(ws[m], id, answer);
  }

  lemma WaitedForCanMove(w: World, id: nat, answer: Answer)
    requires InFlightOk(w) && FlightsOk(w) && (forall b: string :: LogOk(w, b))
    requires id in w.callers && w.callers[id].Waiting?
    ensures var k := w.callers[id].flight;
            && k in w.callers
            && (if LeaderStepsLeft(w.callers[k]) == 0 then Enabled(w, Receive(id))
                else
                  && (w.callers[k].Leading? || w.callers[k].Cached?)
                  && Enabled(w, LeaderMove(w.callers[k], k, answer)))
  {
    var k := w.callers[id].flight;
    assert WaitOk(w, w.callers[id].binary, k);
    assert FlightOk(w.flights[k], w.callers[k]);
    if LeaderStepsLeft(w.callers[k]) > 0 {
      LeaderCanMove(w, k, answer);
    }
  }

  /** Every answer a call returns, other than its own cancellation, is what some lookup of that binary
      came back with. */
  lemma AnswersAreGenuine(ws: seq<World>, acts: seq<Action>, n: nat, id: nat)
    requires Run(ws, acts) && n < |ws|
    requires id in ws[n].callers && ws[n].callers[id].Returned? && ws[n].callers[id].answer.Some?
    ensures AnswerOk(ws[n], ws[n].callers[id].binary, ws[n].callers[id].answer.value)
  {
    InvAlongRun(ws, acts, n);
    assert CallerOk(ws[n], id);
  }

  /** A cached answer is only given out within its time to live, and while no newer lookup runs. */
  lemma HitsAreFresh(ws: seq<World>, acts: seq<Action>, n: nat)
    requires Run(ws, acts) && n < |acts|
    requires acts[n].Arrive? && Enter(ws[n].shared, acts[n].binary, ws[n].now).Hit?
    ensures var lookups := Log(ws[n], acts[n].binary);
            && lookups != []
            && var last := lookups[|lookups| - 1];
            && Ended(last)
            && last.finish.value.at <= ws[n].now < Expiry(last)
            && ws[n + 1].callers[acts[n].caller].answer == Some(last.finish.value.answer)
  {
    InvAlongRun(ws, acts, n);
    HitsAreIdle(ws, acts, n, acts[n].binary);
    assert LogOk(ws[n], acts[n].binary);
  }

  /** While a binary is in flight its cached entry is absent or expired. */
  lemma {:induction false} HitsAreIdle(ws: seq<World>, acts: seq<Action>, n: nat, b: string)
    requires Run(ws, acts) && n < |ws|
    ensures b in ws[n].shared.inFlight && b in ws[n].shared.cache ==> ws[n].shared.cache[b].expiresAt <= ws[n].now
  {
    if n > 0 {
      HitsAreIdle(ws, acts, n - 1, b);
      assert ws[n] == Step(ws[n - 1], acts[n - 1]);
    }
  }

  // ----- How long an answer lasts -----

  /** Whether the answer of a lookup stored at `t` may still be given out: a success for an hour, a failure
      for a minute. */
  predicate Lasts(a: Answer, t: nat, now: nat) {
    if a.Ok? then now < t + 3_600_000_000_000 else now < t + 60_000_000_000
  }

  predicate StoresFor(w: World, a: Action, b: string) {
    a.Store? && a.caller in w.callers && w.callers[a.caller].binary == b
  }

  /** The cache has what a lookup stored at `t` came back with. */
  ghost predicate Keeps(w: World, b: string, answer: Answer, t: nat) {
    b in w.shared.cache && w.shared.cache[b].answer == answer
    && forall now: nat :: now < w.shared.cache[b].expiresAt <==> Lasts(answer, t, now)
  }

  lemma StoreKeeps(w: World, id: nat)
    requires Enabled(w, Store(id))
    ensures Keeps(Step(w, Store(id)), w.callers[id].binary, w.flights[id].published.value, w.now)
  {
  }

  lemma StepKeepsAnswer(w: World, a: Action, b: string)
    requires Enabled(w, a) && b in w.shared.cache && !StoresFor(w, a, b)
    ensures b in Step(w, a).shared.cache && Step(w, a).shared.cache[b] == w.shared.cache[b]
  {
  }

  lemma OneStepKeepsAnswer(ws: seq<World>, acts: seq<Action>, k: nat, b: string)
    requires Run(ws, acts) && k < |acts| && b in ws[k].shared.cache && !StoresFor(ws[k], acts[k], b)
    ensures b in ws[k + 1].shared.cache && ws[k + 1].shared.cache[b] == ws[k].shared.cache[b]
  {
    assert ws[k + 1] == Step(ws[k], acts[k]);
    StepKeepsAnswer(ws[k], acts[k], b);
  }

  lemma {:induction false} AnswerStaysCached(ws: seq<World>, acts: seq<Action>, m: nat, n: nat, b: string)
    requires Run(ws, acts) && m <= n < |ws| && b in ws[m].shared.cache
    requires forall k | m <= k < n :: !StoresFor(ws[k], acts[k], b)
    ensures b in ws[n].shared.cache && ws[n].shared.cache[b] == ws[m].shared.cache[b]
    decreases n - m
  {
    if m < n {
      AnswerStaysCached(ws, acts, m, n - 1, b);
      OneStepKeepsAnswer(ws, acts, n - 1, b);
    }
  }

  lemma StoreInRun(ws: seq<World>, acts: seq<Action>, m: nat, id: nat)
    requires Run(ws, acts) && m < |acts| && acts[m] == Store(id)
    ensures Enabled(ws[m], Store(id))
    ensures Keeps(ws[m + 1], ws[m].callers[id].binary, ws[m].flights[id].published.value, ws[m].now)
  {
    assert Enabled(ws[m], acts[m]) && ws[m + 1] == Step(ws[m], acts[m]);
    StoreKeeps(ws[m], id);
  }

  lemma ArrivalInRun(ws: seq<World>, acts: seq<Action>, n: nat, answer: Answer, t: nat)
    requires Run(ws, acts) && n < |acts| && acts[n].Arrive? && Keeps(ws[n], acts[n].binary, answer, t)
    ensures acts[n].caller in ws[n + 1].callers
    ensures ws[n + 1].callers[acts[n].caller].Returned? <==> Lasts(answer, t, ws[n].now)
    ensures Lasts(answer, t, ws[n].now) ==>
              ws[n + 1].callers[acts[n].caller] == Returned(acts[n].binary, Some(answer))
  {
    assert Enabled(ws[n], acts[n]) && ws[n + 1] == Step(ws[n], acts[n]);
  }

  /** After a lookup of a binary is stored, and until a newer one is, a call is answered on the spot, and
      with what that lookup came back with, exactly for an hour when it succeeded and for a minute when
      it failed. */
  lemma AnswersLast(ws: seq<World>, acts: seq<Action>, m: nat, n: nat, id: nat)
    requires Run(ws, acts) && m < n < |acts| && acts[m] == Store(id) && acts[n].Arrive?
    requires id in ws[m].callers && ws[m].callers[id].binary == acts[n].binary
    requires forall k | m < k < n :: !StoresFor(ws[k], acts[k], acts[n].binary)
    ensures id in ws[m].flights && ws[m].flights[id].published.Some?
    ensures acts[n].caller in ws[n + 1].callers
    ensures var answer, c := ws[m].flights[id].published.value, ws[n + 1].callers[acts[n].caller];
            && (c.Returned? <==> Lasts(answer, ws[m].now, ws[n].now))
            && (c.Returned? ==> c.answer == Some(answer))
  {
    StoreInRun(ws, acts, m, id);
    var answer := ws[m].flights[id].published.value;
    AnswerStaysCached(ws, acts, m + 1, n, acts[n].binary);
    assert Keeps(ws[n], acts[n].binary, answer, ws[m].now);
    ArrivalInRun(ws, acts, n, answer, ws[m].now);
  }

  /** A binary no lookup of which was ever stored is never answered on the spot. */
  lemma {:induction false} ColdIsNotCached(ws: seq<World>, acts: seq<Action>, n: nat, b: string)
    requires Run(ws, acts) && n < |ws|
    requires forall k | 0 <= k < n :: !StoresFor(ws[k], acts[k], b)
    ensures b !in ws[n].shared.cache
  {
    if n > 0 {
      ColdIsNotCached(ws, acts, n - 1, b);
      ColdStaysCold(ws, acts, n - 1, b);
    }
  }

  lemma ColdStaysCold(ws: seq<World>, acts: seq<Action>, k: nat, b: string)
    requires Run(ws, acts) && k < |acts| && b !in ws[k].shared.cache && !StoresFor(ws[k], acts[k], b)
    ensures b !in ws[k + 1].shared.cache
  {
    assert Enabled(ws[k], acts[k]) && ws[k + 1] == Step(ws[k], acts[k]);
  }

  // ----- The rate bound -----

  /** How many lookups start in the closed window from `lo` to `hi`. */
  function StartsWithin(lookups: seq<Lookup>, lo: int, hi: int): nat {
    if lookups == [] then 0
    else
      var last := lookups[|lookups| - 1].start;
      StartsWithin(lookups[..|lookups| - 1], lo, hi) + if lo <= last <= hi then 1 else 0
  }

  lemma {:induction false} SpacedStartsAreSparse(lookups: seq<Lookup>, lo: int, hi: int)
    requires Spaced(lookups)
    ensures StartsWithin(lookups, lo, hi) <= if lo <= hi then (hi - lo) / MINUTE + 1 else 0
  {
    if lookups != [] {
      var front, last := lookups[..|lookups| - 1], lookups[|lookups| - 1].start;
      assert forall i | 0 <= i < |front| :: front[i] == lookups[i];
      if lo <= last <= hi {
        EarlierStarts(lookups, |front|);
        NarrowWindow(front, lo, hi, last - MINUTE);
        SpacedStartsAreSparse(front, lo, last - MINUTE);
        MinuteEarlier(lo, hi, last);
      } else {
        SpacedStartsAreSparse(front, lo, hi);
      }
    }
  }

  lemma MinuteEarlier(lo: int, hi: int, last: int)
    requires lo <= last <= hi
    ensures (if lo <= last - MINUTE then (last - MINUTE - lo) / MINUTE + 1 else 0) <= (hi - lo) / MINUTE
  {
  }

  lemma {:induction false} EarlierStarts(lookups: seq<Lookup>, n: nat)
    requires Spaced(lookups) && n < |lookups|
    ensures forall i | 0 <= i < n :: lookups[i].start <= lookups[n].start - MINUTE
  {
    if n > 0 {
      EarlierStarts(lookups, n - 1);
      assert Expiry(lookups[n - 1]) <= lookups[n - 1 + 1].start;
    }
  }

  lemma {:induction false} NarrowWindow(lookups: seq<Lookup>, lo: int, hi: int, last: int)
    requires last <= hi
    requires forall i | 0 <= i < |lookups| :: lookups[i].start <= last
    ensures StartsWithin(lookups, lo, hi) == StartsWithin(lookups, lo, last)
  {
    if lookups != [] {
      NarrowWindow(lookups[..|lookups| - 1], lo, hi, last);
    }
  }

  /** Whatever callers do, a lookup starts no earlier than the previous one's end plus its time to
      live, so a window of length `t` holds at most one lookup per minute of it, and one more. */
  lemma LookupRateIsBounded(ws: seq<World>, acts: seq<Action>, n: nat, binary: string, from: nat, t: nat)
    requires Run(ws, acts) && n < |ws|
    ensures Spaced(Log(ws[n], binary))
    ensures StartsWithin(Log(ws[n], binary), from, from + t) <= t / MINUTE + 1
  {
    InvAlongRun(ws, acts, n);
    assert LogOk(ws[n], binary);
    SpacedStartsAreSparse(Log(ws[n], binary), from, from + t);
  }
}
