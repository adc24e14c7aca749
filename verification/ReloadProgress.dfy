/** When the reload watcher stops, and when it finds the master that came back. */
module ReloadProgress {
  import opened Wrappers
  import opened Machine
  import opened Paths
  import opened Reload
  import opened ReloadSafety

  // ----- Termination -----

  /** Every turn that leaves the watcher watching has adopted a successor or slept, and it only sleeps
      when the deadline has not passed. */
  ghost predicate Paced(w: Watch, turns: nat, settle: int) {
    var start := w.deadline - settle;
    && turns == w.trace.adoptions + w.trace.sleeps
    && start + POLL_INTERVAL * w.trace.sleeps <= w.clock.now
    && (w.trace.sleeps > 0 ==> start + POLL_INTERVAL * (w.trace.sleeps - 1) <= w.deadline)
  }

  lemma TurnIsPaced(h: Host, target: Target, w: Watch, turns: nat, settle: int)
    requires w.status.Watching? && Paced(w, turns, settle)
    ensures Turn(h, target, w).status.Watching? ==> Paced(Turn(h, target, w), turns + 1, settle)
  {
    var c := Tick(h, w.clock);
    LookMeans(h, c, w.pid, w.started);
    SuccessorTakesTime(h, Look(h, c, w.pid, w.started).1, target, w.pid);
  }

  lemma StartIsPaced(h: Host, target: Target, settle: int)
    ensures Start(h, target, settle).status.Watching? ==> Paced(Start(h, target, settle), 0, settle)
  {
  }

  lemma {:induction false} RunIsPaced(h: Host, target: Target, settle: int, turns: nat)
    requires After(h, target, settle, turns).status.Watching?
    ensures Paced(After(h, target, settle, turns), turns, settle)
  {
    if turns == 0 {
      StartIsPaced(h, target, settle);
    } else {
      RunIsPaced(h, target, settle, turns - 1);
      TurnIsPaced(h, target, After(h, target, settle, turns - 1), turns - 1, settle);
    }
  }

  /** A host on which reading takes no time. */
  ghost predicate Instant(h: Host) {
    forall i: nat :: h.delay(i) == 0
  }

  lemma {:induction false} IdentifyIsInstant(h: Host, c: Clock, pids: seq<int>)
    requires Instant(h)
    ensures Identify(h, c, pids).1.now == c.now
    decreases pids
  {
    if pids != [] {
      IdentifyIsInstant(h, Tick(h, c), pids[1..]);
    }
  }

  lemma SuccessorIsInstant(h: Host, c: Clock, target: Target, watched: int)
    requires Instant(h)
    ensures Successor(h, c, target, watched).1.now == c.now
  {
    var c1 := (if target.hasPidFile then PidFileSuccessor(h, c, target, watched) else (None, c)).1;
    var listed := h.listing(Tick(h, c1).now);
    if listed.Some? {
      IdentifyIsInstant(h, Tick(h, c1), listed.value);
    }
  }

  /** A turn after which the watcher goes on without having adopted anybody sleeps for 50 ms, no more and no
      less. */
  lemma SleepsAreFiftyMs(h: Host, target: Target, w: Watch)
    requires Instant(h) && w.status.Watching?
    requires Turn(h, target, w).status.Watching? && Turn(h, target, w).trace.adoptions == w.trace.adoptions
    ensures Turn(h, target, w).clock.now == w.clock.now + 50_000_000
  {
    var c := Tick(h, w.clock);
    SuccessorIsInstant(h, Look(h, c, w.pid, w.started).1, target, w.pid);
  }

  /** The most turns a watcher can take when at most `k` successors are ever adopted. */
  function TurnBound(k: nat, settle: int): nat {
    k + if settle < 0 then 1 else settle / 50_000_000 + 2
  }

  lemma SleepsAreFew(w: Watch, turns: nat, settle: int)
    requires Paced(w, turns, settle)
    ensures turns < TurnBound(w.trace.adoptions, settle)
  {
    var s := w.trace.sleeps;
    if s > 0 {
      assert POLL_INTERVAL * (s - 1) <= settle;
      assert s - 1 <= settle / POLL_INTERVAL;
    }
  }

  /** Termination: with at most `k` adoptions, the loop is over within `k + settle / 50ms + 2` turns. */
  lemma WatcherStops(h: Host, target: Target, settle: int, k: nat)
    requires After(h, target, settle, TurnBound(k, settle)).trace.adoptions <= k
    ensures !After(h, target, settle, TurnBound(k, settle)).status.Watching?
  {
    var w := After(h, target, settle, TurnBound(k, settle));
    if w.status.Watching? {
      RunIsPaced(h, target, settle, TurnBound(k, settle));
      SleepsAreFew(w, TurnBound(k, settle), settle);
    }
  }

  ghost predicate AdoptsAtMost(h: Host, target: Target, settle: int, k: nat) {
    forall n: nat :: After(h, target, settle, n).trace.adoptions <= k
  }

  lemma TurnAdoptsOnce(h: Host, target: Target, w: Watch)
    ensures w.trace.adoptions <= Turn(h, target, w).trace.adoptions <= w.trace.adoptions + 1
  {
  }

  lemma {:induction false} AdoptionsGrow(h: Host, target: Target, settle: int, n: nat, m: nat)
    requires n <= m
    ensures After(h, target, settle, n).trace.adoptions <= After(h, target, settle, m).trace.adoptions
    decreases m
  {
    if n < m {
      AdoptionsGrow(h, target, settle, n, m - 1);
      TurnAdoptsOnce(h, target, After(h, target, settle, m - 1));
    }
  }

  /** The loop ends exactly when the number of adoptions is bounded. */
  lemma StopsIffAdoptionsAreBounded(h: Host, target: Target, settle: int)
    ensures (exists n: nat :: !After(h, target, settle, n).status.Watching?)
       <==> (exists k: nat :: AdoptsAtMost(h, target, settle, k))
  {
    if n: nat :| !After(h, target, settle, n).status.Watching? {
      var k := After(h, target, settle, n).trace.adoptions;
      forall m: nat
        ensures After(h, target, settle, m).trace.adoptions <= k
      {
        if m <= n {
          AdoptionsGrow(h, target, settle, m, n);
        } else {
          StoppedStays(h, target, settle, n, m);
        }
      }
      assert AdoptsAtMost(h, target, settle, k);
    }
    if k: nat :| AdoptsAtMost(h, target, settle, k) {
      WatcherStops(h, target, settle, k);
    }
  }

  /** A master that crashes and is restarted over and over: at time `t` the only process is pid `t + 2`,
      and time moves once a turn. */
  function CrashLoop(config: string): Host {
    Host(
      i => if i >= 4 && (i - 4) % 5 == 0 then 1 else 0,
      t => map[t + 2 := Proc(1, true, false, true, Some(config))],
      t => Some([t + 2]),
      t => None,
      None)
  }

  /** No time passes on the next `n` reads. */
  predicate StandsStill(h: Host, count: nat, n: nat) {
    forall i: nat | count <= i < count + n :: h.delay(i) == 0
  }

  lemma CrashLoopStart(config: string, settle: int)
    ensures InLoop(Start(CrashLoop(config), Target(2, false, config), settle), 0, settle)
  {
    var h := CrashLoop(config);
    var c1 := Tick(h, Clock(0, 0));
    assert c1 == Clock(0, 1);
    assert VerifyMaster(h, c1.now, 2, config);
    assert Tick(h, c1) == Clock(0, 2);
  }

  lemma CrashLoopSuccessor(config: string, c: Clock, watched: int)
    requires config != "" && watched == c.now + 1
    requires StandsStill(CrashLoop(config), c.count, 2)
    ensures Successor(CrashLoop(config), c, Target(2, false, config), watched)
         == (Some(c.now + 2), Clock(c.now, c.count + 2))
  {
    var h, pid := CrashLoop(config), c.now + 2;
    var c1 := Tick(h, c);
    var c2 := Tick(h, c1);
    assert c1 == Clock(c.now, c.count + 1) && c2 == Clock(c.now, c.count + 2);
    assert [pid][1..] == [];
    assert Identify(h, c2, []) == ([], c2);
    assert Identify(h, c1, [pid]) == ([Master(pid, config)] + [], c2);
    assert [Master(pid, config)] + [] == [Master(pid, config)];
    assert FirstMatch([Master(pid, config)], config, watched) == Some(pid);
  }

  /** Where the watcher is after so many turns. */
  predicate InLoop(w: Watch, turns: nat, settle: int) {
    && w.status.Watching? && w.trace.adoptions == turns && w.deadline == settle
    && w.clock == Clock(turns, 4 + 5 * turns) && w.pid == turns + 2
  }

  lemma CrashLoopTurn(config: string, w: Watch, turns: nat, settle: int)
    requires config != "" && InLoop(w, turns, settle)
    ensures InLoop(Turn(CrashLoop(config), Target(2, false, config), w), turns + 1, settle)
  {
    var h, target := CrashLoop(config), Target(2, false, config);
    var c := Tick(h, w.clock);
    assert (w.clock.count - 4) % 5 == 0;
    assert c == Clock(turns + 1, 5 + 5 * turns);
    forall i: nat | c.count <= i < c.count + 4
      ensures h.delay(i) == 0
    {
      assert i - 4 == 5 * turns + (i - c.count + 1);
    }
    var c1 := Tick(h, c);
    assert c1 == Clock(turns + 1, 6 + 5 * turns) && !TakesSignal(h, c1.now, w.pid);
    assert Look(h, c, w.pid, w.started) == (false, c1);
    CrashLoopSuccessor(config, c1, w.pid);
  }

  lemma CrashLoopIsLawful(config: string)
    ensures Lawful(CrashLoop(config)) && Dependable(CrashLoop(config))
  {
  }

  lemma CrashLoopStep(config: string, settle: int, turns: nat)
    requires config != "" && InLoop(After(CrashLoop(config), Target(2, false, config), settle, turns), turns, settle)
    ensures InLoop(After(CrashLoop(config), Target(2, false, config), settle, turns + 1), turns + 1, settle)
  {
    CrashLoopTurn(config, After(CrashLoop(config), Target(2, false, config), settle, turns), turns, settle);
  }

  lemma {:induction false} CrashLoopRun(config: string, settle: int, turns: nat)
    requires config != ""
    ensures InLoop(After(CrashLoop(config), Target(2, false, config), settle, turns), turns, settle)
  {
    if turns == 0 {
      CrashLoopStart(config, settle);
    } else {
      CrashLoopRun(config, settle, turns - 1);
      CrashLoopStep(config, settle, turns - 1);
    }
  }

  /** The deadline alone does not bound the loop: here every turn adopts a successor, and the watcher is
      still watching however far the clock has run past its deadline, on a host that breaks no promise. */
  lemma DeadlineAloneDoesNotStopIt(config: string, settle: int, turns: nat)
    requires config != ""
    ensures Lawful(CrashLoop(config)) && Dependable(CrashLoop(config))
    ensures var w := After(CrashLoop(config), Target(2, false, config), settle, turns);
            && w.status.Watching? && w.trace.adoptions == turns && w.deadline == settle
            && w.clock == Clock(turns, 4 + 5 * turns) && w.pid == turns + 2
  {
    CrashLoopIsLawful(config);
    CrashLoopRun(config, settle, turns);
  }

  // ----- Progress -----

  predicate Serves(h: Host, t: nat, pid: int, configPath: string) {
    MasterIdentity(h, t, pid).Some? && Clean(MasterIdentity(h, t, pid).value) == Clean(configPath)
  }

  /** `q` is a master the target would take: of its configuration, or with no path to go by, of any. */
  predicate Fits(h: Host, t: nat, q: int, configPath: string) {
    && MasterIdentity(h, t, Int32(q)).Some?
    && (configPath != "" ==> Clean(MasterIdentity(h, t, Int32(q)).value) == Clean(configPath))
  }

  /** From `since` to `until`, `q` is up: a fitting master, alive and with one start time; and nobody
      cancels. */
  ghost predicate Up(h: Host, target: Target, since: nat, until: nat, q: int, started: nat) {
    && q > 0 && (h.cancelAt.Some? ==> until < h.cancelAt.value)
    && (forall t: nat | since <= t <= until ::
          && q in h.table(t) && h.table(t)[q].signalable && !Unreaped(h, t, q)
          && ProcessStartedAt(h, t, q) == started
          && Fits(h, t, q, target.configPath))
  }

  /** Up, and found by every search that is over by then. */
  ghost predicate Settled(h: Host, target: Target, since: nat, until: nat, q: int, started: nat) {
    && Up(h, target, since, until, q, started)
    && (forall c: Clock, watched: int |
          watched != q && since <= c.now && Successor(h, c, target, watched).1.now <= until ::
          Successor(h, c, target, watched).0 == Some(q))
  }

  /** Up, named in the target's pid file throughout; the target may have no configuration path. */
  ghost predicate InPidFile(h: Host, target: Target, since: nat, until: nat, q: int, started: nat) {
    && Up(h, target, since, until, q, started)
    && target.hasPidFile && (forall t: nat | since <= t <= until :: h.pidFile(t) == Some(q))
  }

  /** Up, listed, and the one master of the target's configuration; the pid file, if there is one, holds no
      number beyond 32 bits. */
  ghost predicate OnlyMaster(h: Host, target: Target, since: nat, until: nat, q: int, started: nat) {
    && Up(h, target, since, until, q, started)
    && Int32(q) == q && target.configPath != ""
    && (forall t: nat | since <= t <= until :: h.listing(t).Some? && q in h.listing(t).value)
    && (forall t: nat, p | since <= t <= until :: Serves(h, t, p, target.configPath) <==> p == q)
    && (forall t: nat | since <= t <= until && h.pidFile(t).Some? :: Int32(h.pidFile(t).value) == h.pidFile(t).value)
  }

  /** The process watched is dead: its pid takes no signal, or is an unreaped zombie's, or, with a start
      time to tell by, a zombie's until it is `reaped` and from then on free or another process's. */
  ghost predicate Dead(h: Host, pid: int, started: nat, since: nat, until: nat) {
    || (forall t: nat | since <= t <= until :: pid !in h.table(t) || !h.table(t)[pid].signalable)
    || (forall t: nat | since <= t <= until :: Unreaped(h, t, pid))
    || (started != 0 && exists reaped: nat :: Reaped(h, pid, started, since, until, reaped))
  }

  ghost predicate Reaped(h: Host, pid: int, started: nat, since: nat, until: nat, reaped: nat) {
    forall t: nat | since <= t <= until ::
      if t < reaped then Unreaped(h, t, pid) else !IsInstance(h, t, pid, started)
  }

  /** The watched process is either the settled master, anchored as it is, or dead. */
  ghost predicate OldOneGone(h: Host, w: Watch, until: nat, q: int, started: nat) {
    if w.pid == q then w.started == 0 || w.started == started
    else Dead(h, w.pid, w.started, w.clock.now, until)
  }

  lemma DeadIsNotSeen(h: Host, c: Clock, pid: int, started: nat, since: nat, until: nat)
    requires Dead(h, pid, started, since, until) && since <= c.now && Look(h, c, pid, started).1.now <= until
    ensures !Look(h, c, pid, started).0
  {
    LookMeans(h, c, pid, started);
    var c2 := Tick(h, Tick(h, c));
    var c3 := Tick(h, c2);
    assert Unreaped(h, c2.now, pid) == IsZombie(h, c2.now, pid);
    assert started != 0 && ProcessStartedAt(h, c3.now, pid) == started ==> IsInstance(h, c3.now, pid, started);
  }

  lemma {:induction false} ScanFindsOnly(
    h: Host, target: Target, since: nat, until: nat, q: int, started: nat, c: Clock, pids: seq<int>, not: int)
    requires OnlyMaster(h, target, since, until, q, started) && not != q
    requires since <= c.now && Identify(h, c, pids).1.now <= until
    ensures FirstMatch(Identify(h, c, pids).0, target.configPath, not) == if q in pids then Some(q) else None
    decreases pids
  {
    if pids != [] {
      var c1 := Tick(h, c);
      IdentifyTakesTime(h, c1, pids[1..]);
      ScanFindsOnly(h, target, since, until, q, started, c1, pids[1..], not);
      assert Serves(h, c1.now, pids[0], target.configPath) <==> pids[0] == q;
      var rest := Identify(h, c1, pids[1..]).0;
      var id := MasterIdentity(h, c1.now, pids[0]);
      if id.Some? {
        assert ([Master(pids[0], id.value)] + rest)[1..] == rest;
      }
      assert q in pids <==> pids[0] == q || q in pids[1..];
    }
  }

  lemma SuccessorIsFound(
    h: Host, target: Target, since: nat, until: nat, q: int, started: nat, c: Clock, watched: int)
    requires OnlyMaster(h, target, since, until, q, started) && watched != q
    requires since <= c.now && Successor(h, c, target, watched).1.now <= until
    ensures Successor(h, c, target, watched).0 == Some(q)
  {
    var fromFile := if target.hasPidFile then PidFileSuccessor(h, c, target, watched) else (None, c);
    if fromFile.0.Some? {
      assert Serves(h, fromFile.1.now, fromFile.0.value, target.configPath);
    } else {
      var c1 := Tick(h, fromFile.1);
      if h.listing(c1.now).Some? {
        IdentifyTakesTime(h, c1, h.listing(c1.now).value);
      }
      ScanFindsOnly(h, target, since, until, q, started, c1, h.listing(c1.now).value, watched);
    }
  }

  /** The pid file comes first: what it names is found, whatever the process table holds. */
  lemma PidFileIsFound(h: Host, target: Target, since: nat, until: nat, q: int, started: nat, c: Clock, watched: int)
    requires InPidFile(h, target, since, until, q, started) && watched != q
    requires since <= c.now && Successor(h, c, target, watched).1.now <= until
    ensures Successor(h, c, target, watched).0 == Some(q)
  {
    SuccessorTakesTime(h, PidFileSuccessor(h, c, target, watched).1, target.(hasPidFile := false), watched);
    var c1 := Tick(h, c);
    var c2 := Tick(h, c1);
    var c3 := Tick(h, c2);
    assert c1.now <= PidFileSuccessor(h, c, target, watched).1.now <= Successor(h, c, target, watched).1.now;
    assert h.pidFile(c1.now) == Some(q);
    assert c2.now <= PidFileSuccessor(h, c, target, watched).1.now;
    assert Fits(h, c2.now, q, target.configPath) && VerifyMaster(h, c2.now, q, "");
    assert PidFileSuccessor(h, c, target, watched).1 == c3;
    assert Fits(h, c3.now, q, target.configPath) && VerifyMaster(h, c3.now, q, target.configPath);
  }

  function TurnsFrom(h: Host, target: Target, w: Watch, turns: nat): Watch {
    if turns == 0 then w else Turn(h, target, TurnsFrom(h, target, w, turns - 1))
  }

  lemma {:induction false} TurnsAdd(h: Host, target: Target, settle: int, n: nat, m: nat)
    ensures TurnsFrom(h, target, After(h, target, settle, n), m) == After(h, target, settle, n + m)
  {
    if m > 0 {
      TurnsAdd(h, target, settle, n, m - 1);
    }
  }

  lemma {:induction false} TurnsFromNext(h: Host, target: Target, w: Watch, turns: nat)
    ensures TurnsFrom(h, target, Turn(h, target, w), turns) == TurnsFrom(h, target, w, turns + 1)
  {
    if turns > 0 {
      TurnsFromNext(h, target, w, turns - 1);
    }
  }

  lemma {:induction false} StoppedTurns(h: Host, target: Target, w: Watch, turns: nat)
    requires !w.status.Watching?
    ensures TurnsFrom(h, target, w, turns) == w
  {
    if turns > 0 {
      StoppedTurns(h, target, w, turns - 1);
    }
  }

  lemma TurnTakesTime(h: Host, target: Target, w: Watch)
    ensures w.clock.now <= Turn(h, target, w).clock.now
  {
    var c := Tick(h, w.clock);
    LookMeans(h, c, w.pid, w.started);
    SuccessorTakesTime(h, Look(h, c, w.pid, w.started).1, target, w.pid);
  }

  lemma {:induction false} TurnsTakeTime(h: Host, target: Target, w: Watch, turns: nat)
    ensures w.clock.now <= TurnsFrom(h, target, w, turns).clock.now
  {
    if turns > 0 {
      TurnsTakeTime(h, target, w, turns - 1);
      TurnTakesTime(h, target, TurnsFrom(h, target, w, turns - 1));
    }
  }

  /** Watching a dead process, the next turn adopts the settled master. */
  lemma DeadIsReplaced(h: Host, target: Target, until: nat, q: int, started: nat, w: Watch)
    requires Settled(h, target, w.clock.now, until, q, started) && w.status.Watching?
    requires w.pid != q && OldOneGone(h, w, until, q, started)
    requires Turn(h, target, w).clock.now <= until
    ensures var w' := Turn(h, target, w);
            w'.status.Watching? && w'.pid == q && w'.started == started
            && w'.deadline == w.deadline && w'.clock.now >= w.clock.now
  {
    var c := Tick(h, w.clock);
    LookMeans(h, c, w.pid, w.started);
    var c1 := Look(h, c, w.pid, w.started).1;
    TurnTakesTime(h, target, w);
    LookEndsInTurn(h, target, w);
    DeadIsNotSeen(h, c, w.pid, w.started, w.clock.now, until);
    SuccessorTakesTime(h, c1, target, w.pid);
    SuccessorEndsInTurn(h, target, w);
  }

  lemma SuccessorEndsInTurn(h: Host, target: Target, w: Watch)
    requires w.status.Watching?
    requires h.cancelAt.Some? ==> Turn(h, target, w).clock.now < h.cancelAt.value
    requires !Look(h, Tick(h, w.clock), w.pid, w.started).0
    ensures Successor(h, Look(h, Tick(h, w.clock), w.pid, w.started).1, target, w.pid).1.now
         <= Turn(h, target, w).clock.now
  {
  }

  lemma LookEndsInTurn(h: Host, target: Target, w: Watch)
    requires w.status.Watching?
    requires h.cancelAt.Some? ==> Turn(h, target, w).clock.now < h.cancelAt.value
    ensures Look(h, Tick(h, w.clock), w.pid, w.started).1.now <= Turn(h, target, w).clock.now
  {
    var c := Tick(h, w.clock);
    LookMeans(h, c, w.pid, w.started);
    SuccessorTakesTime(h, Look(h, c, w.pid, w.started).1, target, w.pid);
  }

  /** Watching the settled master, a turn either sleeps or succeeds. */
  lemma SettledIsKept(h: Host, target: Target, until: nat, q: int, started: nat, w: Watch)
    requires Settled(h, target, w.clock.now, until, q, started) && w.status.Watching?
    requires w.pid == q && OldOneGone(h, w, until, q, started)
    requires Turn(h, target, w).clock.now <= until
    ensures var w' := Turn(h, target, w);
            && w'.pid == q
            && (w'.status.Survived?
                || (w'.status.Watching? && w'.started == w.started && w'.deadline == w.deadline
                    && w'.clock.now >= w.clock.now + POLL_INTERVAL && w.clock.now <= w.deadline))
  {
    var c := Tick(h, w.clock);
    LookMeans(h, c, w.pid, w.started);
    LookEndsInTurn(h, target, w);
    var c1 := Look(h, c, w.pid, w.started).1;
    var c3 := Tick(h, Tick(h, c1));
    assert Look(h, c, w.pid, w.started).0;
    if c3.now <= until {
      assert Fits(h, c3.now, q, target.configPath);
    }
  }

  /** The turns left once the settled master is being watched. */
  function SettleTurns(w: Watch): nat {
    if w.clock.now > w.deadline then 1 else (w.deadline - w.clock.now) / POLL_INTERVAL + 2
  }

  lemma TurnsRunDown(w: Watch, w': Watch)
    requires w'.deadline == w.deadline && w'.clock.now >= w.clock.now
    ensures SettleTurns(w') <= SettleTurns(w)
    ensures w'.clock.now >= w.clock.now + POLL_INTERVAL && w.clock.now <= w.deadline ==>
              SettleTurns(w') + 1 <= SettleTurns(w)
  {
  }

  predicate Reached(h: Host, target: Target, w: Watch, turns: nat, q: int) {
    TurnsFrom(h, target, w, turns).status.Survived? && TurnsFrom(h, target, w, turns).pid == q
  }

  lemma SettledLater(h: Host, target: Target, since: nat, later: nat, until: nat, q: int, started: nat)
    requires Settled(h, target, since, until, q, started) && since <= later
    ensures Settled(h, target, later, until, q, started)
  {
  }

  lemma FirstTurn(h: Host, target: Target, w: Watch, turns: nat)
    requires turns > 0
    ensures TurnsFrom(h, target, w, turns) == TurnsFrom(h, target, Turn(h, target, w), turns - 1)
    ensures Turn(h, target, w).clock.now <= TurnsFrom(h, target, w, turns).clock.now
    ensures w.clock.now <= Turn(h, target, w).clock.now
  {
    TurnsFromNext(h, target, w, turns - 1);
    TurnsTakeTime(h, target, Turn(h, target, w), turns - 1);
    TurnTakesTime(h, target, w);
  }

  /** The first turn of those left to the settled master succeeds, or leaves one fewer. */
  lemma SettledGoesOn(h: Host, target: Target, q: int, started: nat, w: Watch, turns: nat, until: nat)
    returns (w': Watch)
    requires Settled(h, target, w.clock.now, until, q, started) && w.status.Watching?
    requires w.pid == q && OldOneGone(h, w, until, q, started)
    requires turns > 0 && TurnsFrom(h, target, w, turns).clock.now <= until
    ensures TurnsFrom(h, target, w', turns - 1) == TurnsFrom(h, target, w, turns) && w'.pid == q
    ensures !w'.status.Survived? ==>
              && w'.status.Watching? && SettleTurns(w') + 1 <= SettleTurns(w)
              && Settled(h, target, w'.clock.now, until, q, started) && OldOneGone(h, w', until, q, started)
  {
    w' := Turn(h, target, w);
    FirstTurn(h, target, w, turns);
    SettledIsKept(h, target, until, q, started, w);
    if !w'.status.Survived? {
      TurnsRunDown(w, w');
      SettledLater(h, target, w.clock.now, w'.clock.now, until, q, started);
    }
  }

  lemma {:induction false} SettledSurvives(
    h: Host, target: Target, q: int, started: nat, w: Watch, turns: nat, until: nat)
    requires w.status.Watching? && turns >= SettleTurns(w) && until == TurnsFrom(h, target, w, turns).clock.now
    requires Settled(h, target, w.clock.now, until, q, started)
    requires w.pid == q && OldOneGone(h, w, until, q, started)
    ensures Reached(h, target, w, turns, q)
    decreases turns
  {
    var w' := SettledGoesOn(h, target, q, started, w, turns, until);
    if w'.status.Survived? {
      StoppedTurns(h, target, w', turns - 1);
    } else {
      SettledSurvives(h, target, q, started, w', turns - 1, until);
    }
  }

  /** The first turn replaces a dead process by the settled master; the other turns are left. */
  lemma DeadIsSucceeded(h: Host, target: Target, q: int, started: nat, w: Watch, turns: nat, until: nat)
    returns (w': Watch)
    requires Settled(h, target, w.clock.now, until, q, started) && w.status.Watching?
    requires w.pid != q && OldOneGone(h, w, until, q, started)
    requires turns > 0 && TurnsFrom(h, target, w, turns).clock.now <= until
    ensures w'.status.Watching? && w'.pid == q && SettleTurns(w') <= SettleTurns(w)
    ensures Settled(h, target, w'.clock.now, until, q, started) && OldOneGone(h, w', until, q, started)
    ensures TurnsFrom(h, target, w', turns - 1) == TurnsFrom(h, target, w, turns)
  {
    w' := Turn(h, target, w);
    FirstTurn(h, target, w, turns);
    DeadIsReplaced(h, target, until, q, started, w);
    TurnsRunDown(w, w');
    SettledLater(h, target, w.clock.now, w'.clock.now, until, q, started);
  }

  lemma DeadIsOutlived(h: Host, target: Target, q: int, started: nat, w: Watch, turns: nat, until: nat)
    requires w.status.Watching? && turns >= 1 + SettleTurns(w) && until == TurnsFrom(h, target, w, turns).clock.now
    requires Settled(h, target, w.clock.now, until, q, started) && OldOneGone(h, w, until, q, started) && w.pid != q
    ensures Reached(h, target, w, turns, q)
  {
    var w' := DeadIsSucceeded(h, target, q, started, w, turns, until);
    SettledSurvives(h, target, q, started, w', turns - 1, until);
  }

  lemma ComebackSurvives(h: Host, target: Target, q: int, started: nat, w: Watch, turns: nat, end: Watch)
    requires w.status.Watching? && turns >= 1 + SettleTurns(w) && end == TurnsFrom(h, target, w, turns)
    requires Settled(h, target, w.clock.now, end.clock.now, q, started) && OldOneGone(h, w, end.clock.now, q, started)
    ensures end.status.Survived? && end.pid == q
  {
    if w.pid == q {
      SettledSurvives(h, target, q, started, w, turns, end.clock.now);
    } else {
      DeadIsOutlived(h, target, q, started, w, turns, end.clock.now);
    }
  }

  lemma SettledIsReported(
    h: Host, target: Target, settle: int, n: nat, turns: nat, w: Watch, end: Watch, q: int, started: nat)
    requires w == After(h, target, settle, n) && w.status.Watching? && turns >= n + 1 + SettleTurns(w)
    requires end == After(h, target, settle, turns)
    requires Settled(h, target, w.clock.now, end.clock.now, q, started) && OldOneGone(h, w, end.clock.now, q, started)
    ensures end.status.Survived? && end.pid == q
  {
    TurnsBetween(h, target, settle, n, turns, w, end);
    ComebackSurvives(h, target, q, started, w, turns - n, end);
  }

  lemma TurnsBetween(h: Host, target: Target, settle: int, n: nat, turns: nat, w: Watch, end: Watch)
    requires n <= turns && w == After(h, target, settle, n) && end == After(h, target, settle, turns)
    ensures end == TurnsFrom(h, target, w, turns - n)
  {
    TurnsAdd(h, target, settle, n, turns - n);
    assert n + (turns - n) == turns;
  }

  lemma OnlyMasterIsSettled(h: Host, target: Target, since: nat, until: nat, q: int, started: nat)
    requires OnlyMaster(h, target, since, until, q, started)
    ensures Settled(h, target, since, until, q, started)
  {
    forall c: Clock, watched: int |
      watched != q && since <= c.now && Successor(h, c, target, watched).1.now <= until
      ensures Successor(h, c, target, watched).0 == Some(q)
    {
      SuccessorIsFound(h, target, since, until, q, started, c, watched);
    }
  }

  lemma InPidFileIsSettled(h: Host, target: Target, since: nat, until: nat, q: int, started: nat)
    requires InPidFile(h, target, since, until, q, started)
    ensures Settled(h, target, since, until, q, started)
  {
    forall c: Clock, watched: int |
      watched != q && since <= c.now && Successor(h, c, target, watched).1.now <= until
      ensures Successor(h, c, target, watched).0 == Some(q)
    {
      PidFileIsFound(h, target, since, until, q, started, c, watched);
    }
  }

  /** Progress: if at some poll the watcher is still watching, and from then until the run is over the old
      master is dead, be it gone, unreaped or its pid reused, and exactly one master of the same
      configuration stays up under one start time, then the reload succeeds and returns that master's
      pid, within the settle window and two turns more. */
  lemma ComebackIsReported(h: Host, target: Target, settle: int, n: nat, turns: nat, q: int, started: nat)
    requires After(h, target, settle, n).status.Watching?
    requires turns >= n + 1 + SettleTurns(After(h, target, settle, n))
    requires var w, until := After(h, target, settle, n), After(h, target, settle, turns).clock.now;
             OnlyMaster(h, target, w.clock.now, until, q, started) && OldOneGone(h, w, until, q, started)
    ensures After(h, target, settle, turns).status.Survived? && After(h, target, settle, turns).pid == q
  {
    var w, end := After(h, target, settle, n), After(h, target, settle, turns);
    OnlyMasterIsSettled(h, target, w.clock.now, end.clock.now, q, started);
    SettledIsReported(h, target, settle, n, turns, w, end, q, started);
  }

  /** Progress by the pid file: it is enough that the file names one fitting master that stays up. With no
      configuration path any trusted master fits, and with one the table may hold others that do. */
  lemma PidFileComebackIsReported(h: Host, target: Target, settle: int, n: nat, turns: nat, q: int, started: nat)
    requires After(h, target, settle, n).status.Watching?
    requires turns >= n + 1 + SettleTurns(After(h, target, settle, n))
    requires var w, until := After(h, target, settle, n), After(h, target, settle, turns).clock.now;
             InPidFile(h, target, w.clock.now, until, q, started) && OldOneGone(h, w, until, q, started)
    ensures After(h, target, settle, turns).status.Survived? && After(h, target, settle, turns).pid == q
  {
    var w, end := After(h, target, settle, n), After(h, target, settle, turns);
    InPidFileIsSettled(h, target, w.clock.now, end.clock.now, q, started);
    SettledIsReported(h, target, settle, n, turns, w, end, q, started);
  }
}
