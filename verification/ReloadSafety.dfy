/** What a reload that reports success has established, over every run against every process table. */
module ReloadSafety {
  import opened Wrappers
  import opened Machine
  import opened Paths
  import opened Reload

  // ----- One look -----

  /** A look that saw its process found it signalable, then not a zombie, then, if the anchor can speak,
      with the anchored start time; all between `c` and the end of the look. */
  lemma LookMeans(h: Host, c: Clock, pid: int, started: nat)
    ensures var c1 := Tick(h, c);
            var c2 := Tick(h, c1);
            var c3 := Tick(h, c2);
            && c.now <= c1.now <= Look(h, c, pid, started).1.now
            && (Look(h, c, pid, started).0 <==>
                 && TakesSignal(h, c1.now, pid)
                 && !IsZombie(h, c2.now, pid)
                 && (started != 0 ==> ProcessStartedAt(h, c3.now, pid) == started))
            && (TakesSignal(h, c1.now, pid) && !IsZombie(h, c2.now, pid) && started != 0 ==>
                 Look(h, c, pid, started).1 == c3)
            && c1.now <= c2.now <= c3.now
  {
  }

  lemma {:induction false} IdentifyTakesTime(h: Host, c: Clock, pids: seq<int>)
    ensures c.now <= Identify(h, c, pids).1.now
    decreases pids
  {
    if pids != [] {
      IdentifyTakesTime(h, Tick(h, c), pids[1..]);
    }
  }

  lemma SuccessorTakesTime(h: Host, c: Clock, target: Target, watched: int)
    ensures c.now <= Successor(h, c, target, watched).1.now
  {
    var c1 := (if target.hasPidFile then PidFileSuccessor(h, c, target, watched) else (None, c)).1;
    var listed := h.listing(Tick(h, c1).now);
    if listed.Some? {
      IdentifyTakesTime(h, Tick(h, c1), listed.value);
    }
  }

  // ----- Who is adopted -----

  /** At time `t`, `pid` was identified as the master of `configPath`: by the check `verifyMaster` makes,
      or by the scan, which does not narrow the pid. */
  predicate KnownAs(h: Host, t: nat, pid: int, configPath: string) {
    || VerifyMaster(h, t, pid, configPath)
    || (pid > 0 && MasterIdentity(h, t, pid).Some? && Clean(MasterIdentity(h, t, pid).value) == Clean(configPath))
  }

  lemma {:induction false} MatchWasIdentified(h: Host, c: Clock, pids: seq<int>, configPath: string, not: int)
    requires FirstMatch(Identify(h, c, pids).0, configPath, not).Some?
    ensures var pid := FirstMatch(Identify(h, c, pids).0, configPath, not).value;
            pid != not && exists t: nat :: c.now <= t <= Identify(h, c, pids).1.now && KnownAs(h, t, pid, configPath)
    decreases pids
  {
    if pids != [] {
      var c1 := Tick(h, c);
      var pid := FirstMatch(Identify(h, c, pids).0, configPath, not).value;
      IdentifyTakesTime(h, c1, pids[1..]);
      var id := MasterIdentity(h, c1.now, pids[0]);
      if id.Some? && Clean(id.value) == Clean(configPath) && pids[0] > 0 && pids[0] != not {
        assert KnownAs(h, c1.now, pid, configPath);
      } else {
        if id.Some? {
          assert Identify(h, c, pids).0[1..] == Identify(h, c1, pids[1..]).0;
        }
        MatchWasIdentified(h, c1, pids[1..], configPath, not);
      }
    }
  }

  /** A successor is never the pid being watched, and it was identified as the master of the target's
      configuration while being looked for. */
  lemma SuccessorWasIdentified(h: Host, c: Clock, target: Target, watched: int)
    requires Successor(h, c, target, watched).0.Some?
    ensures var pid := Successor(h, c, target, watched).0.value;
            && pid != watched
            && exists t: nat :: c.now <= t <= Successor(h, c, target, watched).1.now && KnownAs(h, t, pid, target.configPath)
  {
    SuccessorTakesTime(h, c, target, watched);
    var fromFile := if target.hasPidFile then PidFileSuccessor(h, c, target, watched) else (None, c);
    if fromFile.0.Some? {
      assert KnownAs(h, fromFile.1.now, fromFile.0.value, target.configPath);
    } else {
      var c1 := Tick(h, fromFile.1);
      MatchWasIdentified(h, c1, h.listing(c1.now).value, target.configPath, watched);
    }
  }

  /** Without a configuration path only the pid file is asked: the process table cannot say which master is
      the right one. */
  lemma NoPathNoScan(h: Host, c: Clock, target: Target, watched: int)
    requires target.configPath == ""
    ensures Successor(h, c, target, watched).0.Some? ==>
              && target.hasPidFile && h.pidFile(Tick(h, c).now) == Successor(h, c, target, watched).0
    ensures !target.hasPidFile ==> Successor(h, c, target, watched) == (None, c)
  {
  }

  // ----- The record of a run -----

  ghost predicate SignalOk(h: Host, target: Target, s: Signal) {
    && s.pid == target.pid
    && TakesSignal(h, s.at, s.pid)
    && exists t: nat :: t <= s.at && VerifyMaster(h, t, target.pid, target.configPath)
  }

  function LookOf(h: Host, w: Watch, i: nat): (bool, Clock)
    requires i < |w.trace.polls|
  {
    Look(h, w.trace.polls[i].clock, w.pid, w.started)
  }

  /** The looks since the watched pid was adopted: each is recorded as it came out, one after the other,
      from the moment the anchor was read. */
  ghost predicate PollsOk(h: Host, w: Watch) {
    && (forall i: nat | i < |w.trace.polls| ::
          && w.trace.polls[i].seen == LookOf(h, w, i).0
          && w.trace.anchorAt <= w.trace.polls[i].clock.now
          && LookOf(h, w, i).1.now <= w.clock.now)
    && (forall i: nat, j: nat | i < j < |w.trace.polls| :: LookOf(h, w, i).1.now <= w.trace.polls[j].clock.now)
  }

  ghost predicate AnchorOk(h: Host, target: Target, w: Watch) {
    && w.started == ProcessStartedAt(h, w.trace.anchorAt, w.pid)
    && w.trace.anchorAt <= w.clock.now
    && exists t: nat :: t <= w.trace.anchorAt && KnownAs(h, t, w.pid, target.configPath)
  }

  ghost predicate VerdictOk(h: Host, target: Target, w: Watch) {
    && w.trace.polls != []
    && w.trace.polls[|w.trace.polls| - 1].seen
    && w.trace.verifiedAt > w.deadline
    && LookOf(h, w, |w.trace.polls| - 1).1.now <= w.trace.verifiedAt
    && VerifyMaster(h, w.trace.verifiedAt, w.pid, target.configPath)
  }

  ghost predicate Recorded(h: Host, target: Target, w: Watch) {
    && |w.trace.signals| <= 1
    && (forall s | s in w.trace.signals :: SignalOk(h, target, s))
    && (!w.status.Failed? ==> |w.trace.signals| == 1 && AnchorOk(h, target, w) && PollsOk(h, w))
    && (w.status.Survived? ==> VerdictOk(h, target, w))
  }

  lemma StartIsRecorded(h: Host, target: Target, settle: int)
    ensures Recorded(h, target, Start(h, target, settle))
  {
    var c1 := Tick(h, Clock(0, 0));
    if VerifyMaster(h, c1.now, target.pid, target.configPath) {
      assert KnownAs(h, c1.now, target.pid, target.configPath);
    }
  }

  lemma LookIsRecorded(h: Host, w: Watch, c: Clock, c': Clock)
    requires PollsOk(h, w) && w.clock.now <= c.now && w.trace.anchorAt <= c.now
    requires Look(h, c, w.pid, w.started).1.now <= c'.now
    ensures PollsOk(h, w.(clock := c',
                          trace := w.trace.(polls := w.trace.polls + [Poll(c, Look(h, c, w.pid, w.started).0)])))
  {
    var w' := w.(clock := c',
                 trace := w.trace.(polls := w.trace.polls + [Poll(c, Look(h, c, w.pid, w.started).0)]));
    LookMeans(h, c, w.pid, w.started);
    forall i: nat | i < |w'.trace.polls|
      ensures w'.trace.polls[i].seen == LookOf(h, w', i).0
      ensures w'.trace.anchorAt <= w'.trace.polls[i].clock.now
      ensures LookOf(h, w', i).1.now <= c'.now
      ensures i < |w.trace.polls| ==> LookOf(h, w', i) == LookOf(h, w, i)
    {
    }
  }

  /** The watch just after a look, whatever comes next. */
  function Looked(h: Host, w: Watch): (Watch, Clock) {
    var c := Tick(h, w.clock);
    var (seen, c1) := Look(h, c, w.pid, w.started);
    (w.(trace := w.trace.(polls := w.trace.polls + [Poll(c, seen)])), c1)
  }

  lemma LookedIsRecorded(h: Host, target: Target, w: Watch, c': Clock)
    requires AnchorOk(h, target, w) && PollsOk(h, w)
    requires Looked(h, w).1.now <= c'.now
    ensures var l := Looked(h, w).0.(clock := c'); AnchorOk(h, target, l) && PollsOk(h, l)
  {
    var c := Tick(h, w.clock);
    LookMeans(h, c, w.pid, w.started);
    LookIsRecorded(h, w, c, c');
  }

  lemma TurnIsRecorded(h: Host, target: Target, w: Watch)
    requires Recorded(h, target, w)
    ensures Recorded(h, target, Turn(h, target, w))
  {
    var c := Tick(h, w.clock);
    if w.status.Watching? && !(h.cancelAt.Some? && c.now >= h.cancelAt.value) {
      var (l, c1) := Looked(h, w);
      if Look(h, c, w.pid, w.started).0 {
        LookedIsRecorded(h, target, w, StillThere(h, target, l, c1).clock);
      } else {
        GoneIsRecorded(h, target, w);
      }
    }
  }

  lemma GoneIsRecorded(h: Host, target: Target, w: Watch)
    requires Recorded(h, target, w) && w.status.Watching?
    ensures Recorded(h, target, Gone(h, target, Looked(h, w).0, Looked(h, w).1))
  {
    var (l, c1) := Looked(h, w);
    SuccessorTakesTime(h, c1, target, w.pid);
    var found := Successor(h, c1, target, w.pid).0;
    if found.Some? {
      SuccessorWasIdentified(h, c1, target, w.pid);
    } else {
      LookedIsRecorded(h, target, w, Gone(h, target, l, c1).clock);
    }
  }

  lemma {:induction false} RunIsRecorded(h: Host, target: Target, settle: int, turns: nat)
    ensures Recorded(h, target, After(h, target, settle, turns))
  {
    if turns == 0 {
      StartIsRecorded(h, target, settle);
    } else {
      RunIsRecorded(h, target, settle, turns - 1);
      TurnIsRecorded(h, target, After(h, target, settle, turns - 1));
    }
  }

  /** Safety over every run: at most one signal is ever sent, to the target and after it was verified.
      Success means exactly one was, that the returned pid was verified as the master of the target's
      configuration after the deadline, that the last look before that saw the process anchored when
      the pid was adopted, and that every look is on record. */
  lemma ReloadIsSafe(h: Host, target: Target, settle: int, turns: nat)
    ensures var w := After(h, target, settle, turns);
            && |w.trace.signals| <= 1
            && (forall s | s in w.trace.signals :: SignalOk(h, target, s))
            && (w.status.Survived? ==>
                 && |w.trace.signals| == 1
                 && AnchorOk(h, target, w) && PollsOk(h, w) && VerdictOk(h, target, w))
  {
    RunIsRecorded(h, target, settle, turns);
  }

  lemma {:induction false} DeadlineIsFixed(h: Host, target: Target, settle: int, turns: nat)
    ensures var w, w0 := After(h, target, settle, turns), Start(h, target, settle);
            w.deadline == w0.deadline && w.trace.signals == w0.trace.signals
    ensures var w := After(h, target, settle, turns);
            !w.status.Failed? ==> |w.trace.signals| == 1 && w.trace.signals[0].at + settle <= w.deadline
  {
    if turns > 0 {
      DeadlineIsFixed(h, target, settle, turns - 1);
      TurnKeepsDeadline(h, target, After(h, target, settle, turns - 1));
    }
  }

  lemma TurnKeepsDeadline(h: Host, target: Target, w: Watch)
    ensures var w' := Turn(h, target, w);
            && w'.deadline == w.deadline && w'.trace.signals == w.trace.signals
            && (!w'.status.Failed? ==> !w.status.Failed?)
  {
  }

  /** Success is not reported before the settle window, counted from the signal, is over. */
  lemma SettleWindowIsKept(h: Host, target: Target, settle: int, turns: nat)
    requires After(h, target, settle, turns).status.Survived?
    ensures var w := After(h, target, settle, turns);
            |w.trace.signals| == 1 && w.trace.verifiedAt > w.trace.signals[0].at + settle
  {
    RunIsRecorded(h, target, settle, turns);
    DeadlineIsFixed(h, target, settle, turns);
    assert VerdictOk(h, target, After(h, target, settle, turns));
  }

  /** A master that cannot be verified is never signalled. */
  lemma UnverifiedIsNotSignalled(h: Host, target: Target, settle: int, turns: nat)
    requires forall t: nat :: !VerifyMaster(h, t, target.pid, target.configPath)
    ensures var w := After(h, target, settle, turns); w.trace.signals == [] && w.status == Failed(NotAMaster)
  {
    StoppedStays(h, target, settle, 0, turns);
  }

  // ----- One process spans the looks -----

  predicate IsInstance(h: Host, t: nat, pid: int, started: nat) {
    pid in h.table(t) && h.table(t)[pid].started == started
  }

  /** What a kernel promises of start times: between two moments at which a pid belongs to a process with
      one start time, it belongs to it throughout. */
  ghost predicate Lawful(h: Host) {
    forall pid, started, t1: nat, t2: nat, t3: nat |
      && t1 <= t2 <= t3
      && IsInstance(h, t1, pid, started) && IsInstance(h, t3, pid, started) ::
      IsInstance(h, t2, pid, started)
  }

  /** A process that has exited, is not yet collected, and can be seen to be so. */
  predicate Unreaped(h: Host, t: nat, pid: int) {
    pid in h.table(t) && h.table(t)[pid].readable && h.table(t)[pid].zombie
  }

  /** The three reads of a look at a process that is there: the signal is taken, it is not seen to be a
      zombie, and its start time can be read. */
  predicate WentWell(h: Host, c: Clock, pid: int) {
    var c1 := Tick(h, c);
    var c2 := Tick(h, c1);
    var c3 := Tick(h, c2);
    && pid in h.table(c1.now) && h.table(c1.now)[pid].signalable
    && !Unreaped(h, c2.now, pid)
    && pid in h.table(c3.now) && h.table(c3.now)[pid].readable
  }

  /** The window from the anchor to the end of the last look. */
  predicate InWindow(h: Host, w: Watch, t: nat)
    requires w.trace.polls != []
  {
    w.trace.anchorAt <= t <= LastLook(h, w).1.now
  }

  /** When the last look of the run ended and how it came out. */
  function LastLook(h: Host, w: Watch): (bool, Clock)
    requires w.trace.polls != []
  {
    LookOf(h, w, |w.trace.polls| - 1)
  }

  lemma InstanceSpansWindow(h: Host, w: Watch)
    requires Lawful(h) && w.started != 0
    requires ProcessStartedAt(h, w.trace.anchorAt, w.pid) == w.started && PollsOk(h, w)
    requires w.trace.polls != [] && LastLook(h, w).0
    ensures forall t: nat | InWindow(h, w, t) :: IsInstance(h, t, w.pid, w.started)
  {
    LookMeans(h, w.trace.polls[|w.trace.polls| - 1].clock, w.pid, w.started);
    var end := LastLook(h, w).1.now;
    assert IsInstance(h, w.trace.anchorAt, w.pid, w.started) && IsInstance(h, end, w.pid, w.started);
  }

  /** A look inside the window saw the process exactly when its own three reads went well. */
  lemma LookInWindow(h: Host, w: Watch, i: nat)
    requires w.started != 0 && PollsOk(h, w) && i < |w.trace.polls|
    requires forall t: nat | InWindow(h, w, t) :: IsInstance(h, t, w.pid, w.started)
    ensures w.trace.polls[i].seen <==> WentWell(h, w.trace.polls[i].clock, w.pid)
  {
    var last: nat := |w.trace.polls| - 1;
    LookMeans(h, w.trace.polls[i].clock, w.pid, w.started);
    LookMeans(h, w.trace.polls[last].clock, w.pid, w.started);
    if i < last {
      assert LookOf(h, w, i).1.now <= w.trace.polls[last].clock.now;
    }
    assert InWindow(h, w, LookOf(h, w, i).1.now);
  }

  /** On a host that keeps the kernel's promise, a reload that succeeds with a readable start time has
      watched one process, which was there from the anchor to the end of the last look; and a look
      missed it exactly when its signal was refused, it was seen as a zombie or its stat file could
      not be read at that moment. */
  lemma SurvivorWasThereThroughout(h: Host, target: Target, settle: int, turns: nat)
    requires Lawful(h)
    requires After(h, target, settle, turns).status.Survived? && After(h, target, settle, turns).started != 0
    ensures var w := After(h, target, settle, turns);
            && w.trace.polls != []
            && (forall t: nat | InWindow(h, w, t) :: IsInstance(h, t, w.pid, w.started))
            && (forall i: nat | i < |w.trace.polls| ::
                  w.trace.polls[i].seen <==> WentWell(h, w.trace.polls[i].clock, w.pid))
  {
    RunIsRecorded(h, target, settle, turns);
    var w := After(h, target, settle, turns);
    assert AnchorOk(h, target, w) && PollsOk(h, w) && VerdictOk(h, target, w);
    InstanceSpansWindow(h, w);
    forall i: nat | i < |w.trace.polls|
      ensures w.trace.polls[i].seen <==> WentWell(h, w.trace.polls[i].clock, w.pid)
    {
      LookInWindow(h, w, i);
    }
  }

  /** One process keeps its permissions, its stat file stays readable, and no zombie comes back to life. */
  ghost predicate Dependable(h: Host) {
    forall pid, started, t1: nat, t2: nat |
      t1 <= t2 && IsInstance(h, t1, pid, started) && IsInstance(h, t2, pid, started) ::
      && h.table(t1)[pid].signalable == h.table(t2)[pid].signalable
      && h.table(t1)[pid].readable == h.table(t2)[pid].readable
      && (h.table(t1)[pid].zombie ==> h.table(t2)[pid].zombie)
  }

  lemma EarlierLookWentWell(h: Host, pid: int, started: nat, early: Clock, late: Clock)
    requires Lawful(h) && Dependable(h) && started != 0
    requires Look(h, early, pid, started).1.now <= late.now && Look(h, late, pid, started).0
    requires forall t: nat | early.now <= t <= Look(h, late, pid, started).1.now :: IsInstance(h, t, pid, started)
    ensures Look(h, early, pid, started).0
  {
    LookMeans(h, early, pid, started);
    LookMeans(h, late, pid, started);
    var e1, l1 := Tick(h, early), Tick(h, late);
    var e2, l2 := Tick(h, e1), Tick(h, l1);
    var l3 := Tick(h, l2);
    assert IsInstance(h, l1.now, pid, started) && IsInstance(h, l2.now, pid, started) && IsInstance(h, l3.now, pid, started);
    assert h.table(l2.now)[pid].readable == h.table(l3.now)[pid].readable;
    forall t: nat | early.now <= t <= l2.now
      ensures IsInstance(h, t, pid, started)
      ensures h.table(t)[pid].signalable && h.table(t)[pid].readable && !h.table(t)[pid].zombie
    {
      assert IsInstance(h, t, pid, started) && IsInstance(h, l2.now, pid, started);
      assert h.table(l1.now)[pid].signalable == h.table(l2.now)[pid].signalable;
    }
  }

  lemma NoLookMissed(h: Host, w: Watch, i: nat)
    requires Lawful(h) && Dependable(h) && w.started != 0
    requires PollsOk(h, w) && i < |w.trace.polls| && LastLook(h, w).0
    requires forall t: nat | InWindow(h, w, t) :: IsInstance(h, t, w.pid, w.started)
    ensures w.trace.polls[i].seen
  {
    var last: nat := |w.trace.polls| - 1;
    if i < last {
      EarlierLookWentWell(h, w.pid, w.started, w.trace.polls[i].clock, w.trace.polls[last].clock);
    }
  }

  /** If besides a process keeps its permissions and stays readable, no look ever missed it. */
  lemma SurvivorWasNeverMissed(h: Host, target: Target, settle: int, turns: nat)
    requires Lawful(h) && Dependable(h)
    requires After(h, target, settle, turns).status.Survived? && After(h, target, settle, turns).started != 0
    ensures var w := After(h, target, settle, turns);
            forall i: nat | i < |w.trace.polls| :: w.trace.polls[i].seen
  {
    SurvivorWasThereThroughout(h, target, settle, turns);
    RunIsRecorded(h, target, settle, turns);
    var w := After(h, target, settle, turns);
    assert PollsOk(h, w) && VerdictOk(h, target, w);
    forall i: nat | i < |w.trace.polls|
      ensures w.trace.polls[i].seen
    {
      NoLookMissed(h, w, i);
    }
  }

  // ----- What success does not mean -----

  /** A watch that misses its process in its first turn and sees it in its second, past the deadline. */
  lemma MissedOnce(h: Host, target: Target, w0: Watch)
    requires w0 == After(h, target, 10, 0) && w0.status.Watching?
    requires w0.clock == Clock(0, 4) && w0.deadline == 10 && w0.trace.polls == []
    requires var look := Look(h, Tick(h, w0.clock), w0.pid, w0.started); !look.0 && look.1.now == 1 && look.1.count >= 5
    requires !target.hasPidFile && h.cancelAt.None? && h.listing(1) == Some([])
    requires forall i: nat | i >= 5 :: h.delay(i) == 0
    requires forall t: nat | t >= 2 ::
               && TakesSignal(h, t, w0.pid) && !IsZombie(h, t, w0.pid)
               && (w0.started == 0 || ProcessStartedAt(h, t, w0.pid) == w0.started)
               && VerifyMaster(h, t, w0.pid, target.configPath)
    ensures var w := After(h, target, 10, 2);
            && w.status.Survived? && w.pid == w0.pid && w.started == w0.started
            && |w.trace.polls| == 2 && !w.trace.polls[0].seen
            && w.trace.anchorAt == w0.trace.anchorAt && w.trace.verifiedAt >= 2
  {
    var c := Tick(h, w0.clock);
    var look := Look(h, c, w0.pid, w0.started);
    var found := Successor(h, look.1, target, w0.pid);
    assert found.0 == None && found.1.now == 1 && found.1.count >= 5;
    var w1 := Turn(h, target, w0);
    assert w1.status.Watching? && w1.clock.now == 1 + POLL_INTERVAL && w1.clock.count >= 5;
    assert w1.pid == w0.pid && w1.trace.polls == [Poll(c, false)];
    assert After(h, target, 10, 1) == w1;
    LookMeans(h, Tick(h, w1.clock), w1.pid, w1.started);
    var w2 := Turn(h, target, w1);
    assert w2.status.Survived?;
    assert After(h, target, 10, 2) == w2;
  }

  /** A master whose stat file cannot be read, gone for a moment and then replaced by another process of
      the same configuration under the same pid. */
  function Flicker(config: string): Host {
    Host(
      i => if i == 4 then 1 else 0,
      t => if t == 1 then map[] else map[2 := Proc(if t == 0 then 1 else 2, false, false, true, Some(config))],
      t => Some([]),
      t => None,
      None)
  }

  lemma FlickerIsLawful(config: string)
    ensures Lawful(Flicker(config))
  {
  }

  /** With no readable start time a reload can succeed although the process died: the anchor has no opinion
      on who is back. */
  lemma UnreadableStartTimeCanHideADeath(config: string)
    requires config != ""
    ensures Lawful(Flicker(config))
    ensures var h := Flicker(config);
            var w := After(h, Target(2, false, config), 10, 2);
            && w.status.Survived? && w.pid == 2 && w.started == 0
            && |w.trace.polls| == 2 && !w.trace.polls[0].seen
            && IsInstance(h, w.trace.anchorAt, w.pid, 1) && IsInstance(h, w.trace.verifiedAt, w.pid, 2)
  {
    FlickerIsLawful(config);
    var h, target := Flicker(config), Target(2, false, config);
    var w0 := Start(h, target, 10);
    assert w0.status.Watching? && w0.clock == Clock(0, 4) && w0.started == 0 && w0.deadline == 10;
    var c := Tick(h, w0.clock);
    assert Look(h, c, 2, 0) == (false, Clock(1, 6));
    MissedOnce(h, target, w0);
  }

  /** A master that never goes away, whose stat file cannot be read at one moment. */
  function Misread(config: string): Host {
    Host(
      i => if i == 4 then 1 else 0,
      t => map[2 := Proc(7, t != 1, false, true, Some(config))],
      t => Some([]),
      t => None,
      None)
  }

  /** A look can miss a process that is there: one failed read of its start time passes for its death. */
  lemma FailedReadLooksLikeADeath(config: string)
    requires config != ""
    ensures Lawful(Misread(config))
    ensures var w := After(Misread(config), Target(2, false, config), 10, 2);
            && w.status.Survived? && w.pid == 2 && w.started == 7
            && |w.trace.polls| == 2 && !w.trace.polls[0].seen
  {
    var h, target := Misread(config), Target(2, false, config);
    var w0 := Start(h, target, 10);
    assert w0.status.Watching? && w0.clock == Clock(0, 4) && w0.started == 7 && w0.deadline == 10;
    var c := Tick(h, w0.clock);
    assert Look(h, c, 2, 7).0 == false && Look(h, c, 2, 7).1.now == 1;
    MissedOnce(h, target, w0);
  }
}
