/** Reloading a master and watching it come back (control.go): a polling loop against a process table
    that changes between any two reads. */
module Reload {
  import opened Wrappers
  import opened Machine
  import opened Paths

  // ----- The operating system, as it is observed -----

  /** One process: when it started, which with its pid says who it is; whether its stat file can be read
      at the moment; whether it is a zombie; whether signals to it are permitted; and the configuration
      it is a trusted php-fpm master for, if it is one. */
  datatype Proc = Proc(started: nat, readable: bool, zombie: bool, signalable: bool, identity: Option<string>)

  /** An adversary: `delay(i)` nanoseconds pass before the `i`-th read, and every read sees the table,
      the listing order and the pid file as they are at that moment. */
  datatype Host = Host(
    delay: nat -> nat,
    table: nat -> map<int, Proc>,
    listing: nat -> Option<seq<int>>,
    pidFile: nat -> Option<int>,
    cancelAt: Option<nat>)

  /** The time, and how many reads have been made. */
  datatype Clock = Clock(now: nat, count: nat)

  function Tick(h: Host, c: Clock): Clock {
    Clock(c.now + h.delay(c.count), c.count + 1)
  }

  const POLL_INTERVAL := 50_000_000

  /** `os.Process.Signal`. */
  predicate TakesSignal(h: Host, t: nat, pid: int) {
    pid in h.table(t) && h.table(t)[pid].signalable
  }

  /** Whether the stat file of `pid` can be read. */
  predicate Readable(h: Host, t: nat, pid: int) {
    pid in h.table(t) && h.table(t)[pid].readable
  }

  /** `isZombie`: what cannot be read is not taken for a zombie. */
  predicate IsZombie(h: Host, t: nat, pid: int) {
    Readable(h, t, pid) && h.table(t)[pid].zombie
  }

  /** `processStartedAt`: 0 when it cannot be read. */
  function ProcessStartedAt(h: Host, t: nat, pid: int): nat {
    if Readable(h, t, pid) then h.table(t)[pid].started else 0
  }

  /** `masterIdentity`, of the process a 32-bit pid names. */
  function MasterIdentity(h: Host, t: nat, pid: int): Option<string> {
    if pid in h.table(t) then h.table(t)[pid].identity else None
  }

  /** `verifyMaster`: with an empty path, any trusted master will do. */
  predicate VerifyMaster(h: Host, t: nat, pid: int, configPath: string) {
    && pid > 0
    && MasterIdentity(h, t, Int32(pid)).Some?
    && (configPath == "" || Clean(MasterIdentity(h, t, Int32(pid)).value) == Clean(configPath))
  }

  // ----- The checks of one poll -----

  /** `processAlive`: a signal, then the process state. */
  function ProcessAlive(h: Host, c: Clock, pid: int): (bool, Clock) {
    var c1 := Tick(h, c);
    if !TakesSignal(h, c1.now, pid) then (false, c1)
    else
      var c2 := Tick(h, c1);
      (!IsZombie(h, c2.now, pid), c2)
  }

  /** `sameProcess`: a start time of zero cannot speak. */
  function SameProcess(h: Host, c: Clock, pid: int, started: nat): (bool, Clock) {
    if started == 0 then (true, c)
    else
      var c1 := Tick(h, c);
      (ProcessStartedAt(h, c1.now, pid) == started, c1)
  }

  /** `processAlive(pid) && sameProcess(pid, started)`. */
  function Look(h: Host, c: Clock, pid: int, started: nat): (bool, Clock) {
    var (alive, c1) := ProcessAlive(h, c, pid);
    if alive then SameProcess(h, c1, pid, started) else (false, c1)
  }

  datatype Target = Target(pid: int, hasPidFile: bool, configPath: string)

  datatype Master = Master(pid: int, configPath: string)

  /** `DiscoverMasters`: the listed processes are identified one after the other. */
  function Identify(h: Host, c: Clock, pids: seq<int>): (seq<Master>, Clock)
    decreases pids
  {
    if pids == [] then ([], c)
    else
      var c1 := Tick(h, c);
      var (rest, c2) := Identify(h, c1, pids[1..]);
      var id := MasterIdentity(h, c1.now, pids[0]);
      (if id.Some? then [Master(pids[0], id.value)] + rest else rest, c2)
  }

  function FirstMatch(masters: seq<Master>, configPath: string, not: int): Option<int> {
    if masters == [] then None
    else if Clean(masters[0].configPath) == Clean(configPath) && masters[0].pid > 0 && masters[0].pid != not then
      Some(masters[0].pid)
    else FirstMatch(masters[1..], configPath, not)
  }

  /** The pid file's answer: read, checked as some master, and then as the master of this configuration. */
  function PidFileSuccessor(h: Host, c: Clock, target: Target, watched: int): (Option<int>, Clock) {
    var c1 := Tick(h, c);
    match h.pidFile(c1.now)
    case None => (None, c1)
    case Some(pid) =>
      var c2 := Tick(h, c1);
      if !VerifyMaster(h, c2.now, pid, "") || pid == watched then (None, c2)
      else
        var c3 := Tick(h, c2);
        (if VerifyMaster(h, c3.now, pid, target.configPath) then Some(pid) else None, c3)
  }

  function ScanSuccessor(h: Host, c: Clock, target: Target, watched: int): (Option<int>, Clock) {
    var c1 := Tick(h, c);
    match h.listing(c1.now)
    case None => (None, c1)
    case Some(pids) =>
      var (masters, c2) := Identify(h, c1, pids);
      (FirstMatch(masters, target.configPath, watched), c2)
  }

  /** `successor`: the pid file first, then the process table, which only a configuration path can search. */
  function Successor(h: Host, c: Clock, target: Target, watched: int): (Option<int>, Clock) {
    var (fromFile, c1) := if target.hasPidFile then PidFileSuccessor(h, c, target, watched) else (None, c);
    if fromFile.Some? || target.configPath == "" then (fromFile, c1)
    else ScanSuccessor(h, c1, target, watched)
  }

  // ----- The watcher -----

  datatype Failure = NotAMaster | SignalFailed | Cancelled | LostIdentity | NoSuccessor

  datatype Status = Watching | Survived | Failed(why: Failure)

  datatype Signal = Signal(pid: int, at: nat)

  /** One look at the watched process: when it began, and whether it saw the process it expected. */
  datatype Poll = Poll(clock: Clock, seen: bool)

  /** What the watcher did, for the record: `anchorAt` is when `started` was read, `polls` the looks since
      the watched pid was adopted, `verifiedAt` the closing identity check. */
  datatype Trace = Trace(
    signals: seq<Signal>,
    adoptions: nat,
    sleeps: nat,
    anchorAt: nat,
    polls: seq<Poll>,
    verifiedAt: nat)

  datatype Watch = Watch(status: Status, clock: Clock, pid: int, started: nat, deadline: int, trace: Trace)

  /** `reload`: verify, then signal. */
  function SendReload(h: Host, c: Clock, target: Target): (Option<Failure>, Clock, seq<Signal>) {
    var c1 := Tick(h, c);
    if !VerifyMaster(h, c1.now, target.pid, target.configPath) then (Some(NotAMaster), c1, [])
    else
      var c2 := Tick(h, c1);
      if !TakesSignal(h, c2.now, target.pid) then (Some(SignalFailed), c2, [])
      else (None, c2, [Signal(target.pid, c2.now)])
  }

  /** Everything before the loop: the reload, the start time, the deadline. */
  function Start(h: Host, target: Target, settle: int): Watch {
    var (err, c, signals) := SendReload(h, Clock(0, 0), target);
    var trace := Trace(signals, 0, 0, 0, [], 0);
    if err.Some? then Watch(Failed(err.value), c, target.pid, 0, 0, trace)
    else
      var c1 := Tick(h, c);
      var c2 := Tick(h, c1);
      Watch(Watching, c2, target.pid, ProcessStartedAt(h, c1.now, target.pid), c2.now + settle,
            trace.(anchorAt := c1.now))
  }

  function Sleep(w: Watch, c: Clock): Watch {
    w.(clock := c.(now := c.now + POLL_INTERVAL), trace := w.trace.(sleeps := w.trace.sleeps + 1))
  }

  /** One turn of the loop. */
  function Turn(h: Host, target: Target, w: Watch): Watch {
    if !w.status.Watching? then w
    else
      var c := Tick(h, w.clock);
      if h.cancelAt.Some? && c.now >= h.cancelAt.value then w.(status := Failed(Cancelled), clock := c)
      else
        var (seen, c1) := Look(h, c, w.pid, w.started);
        var looked := w.(trace := w.trace.(polls := w.trace.polls + [Poll(c, seen)]));
        if seen then StillThere(h, target, looked, c1) else Gone(h, target, looked, c1)
  }

  function StillThere(h: Host, target: Target, w: Watch, c: Clock): Watch {
    var c1 := Tick(h, c);
    if c1.now <= w.deadline then Sleep(w, c1)
    else
      var c2 := Tick(h, c1);
      if VerifyMaster(h, c2.now, w.pid, target.configPath) then
        w.(status := Survived, clock := c2, trace := w.trace.(verifiedAt := c2.now))
      else
        w.(status := Failed(LostIdentity), clock := c2)
  }

  function Gone(h: Host, target: Target, w: Watch, c: Clock): Watch {
    var (found, c1) := Successor(h, c, target, w.pid);
    if found.Some? then
      var c2 := Tick(h, c1);
      w.(clock := c2, pid := found.value, started := ProcessStartedAt(h, c2.now, found.value),
         trace := w.trace.(adoptions := w.trace.adoptions + 1, anchorAt := c2.now, polls := []))
    else
      var c2 := Tick(h, c1);
      if c2.now <= w.deadline then Sleep(w, c2) else w.(status := Failed(NoSuccessor), clock := c2)
  }

  function After(h: Host, target: Target, settle: int, turns: nat): Watch {
    if turns == 0 then Start(h, target, settle) else Turn(h, target, After(h, target, settle, turns - 1))
  }

  method ReloadMaster(h: Host, c: Clock, target: Target) returns (err: Option<Failure>, c': Clock, signals: seq<Signal>)
    ensures (err, c', signals) == SendReload(h, c, target)
    ensures err.Some? <==> signals == []
    ensures err == Some(NotAMaster) <==> !VerifyMaster(h, Tick(h, c).now, target.pid, target.configPath)
    ensures err == None ==> signals == [Signal(target.pid, c'.now)]
    ensures err == None <==>
              && target.pid > 0
              && MasterIdentity(h, Tick(h, c).now, Int32(target.pid)).Some?
              && (target.configPath != "" ==>
                    Clean(MasterIdentity(h, Tick(h, c).now, Int32(target.pid)).value) == Clean(target.configPath))
              && TakesSignal(h, Tick(h, Tick(h, c)).now, target.pid)
  {
    err, signals := None, [];
    c' := Tick(h, c);
    if !VerifyMaster(h, c'.now, target.pid, target.configPath) {
      return Some(NotAMaster), c', signals;
    }
    c' := Tick(h, c');
    if !TakesSignal(h, c'.now, target.pid) {
      return Some(SignalFailed), c', signals;
    }
    signals := [Signal(target.pid, c'.now)];
  }

  /** One pass through the body of the loop; the trace is kept for the record only. */
  method PollOnce(h: Host, target: Target, c: Clock, pid: int, started: nat, deadline: int, ghost trace: Trace)
    returns (status: Status, c': Clock, pid': int, started': nat, ghost trace': Trace)
    ensures var w := Turn(h, target, Watch(Watching, c, pid, started, deadline, trace));
            status == w.status && c' == w.clock && pid' == w.pid && started' == w.started && deadline == w.deadline
    ensures trace' == Turn(h, target, Watch(Watching, c, pid, started, deadline, trace)).trace
    ensures status.Survived? ==>
              pid' == pid && c'.now > deadline && VerifyMaster(h, c'.now, pid, target.configPath)
    ensures status == Failed(NoSuccessor) ==> c'.now > deadline
    ensures status == Failed(Cancelled) <==> h.cancelAt.Some? && Tick(h, c).now >= h.cancelAt.value
    ensures pid' != pid ==> status.Watching? && started' == ProcessStartedAt(h, c'.now, pid')
  {
    status, pid', started', trace' := Watching, pid, started, trace;
    c' := Tick(h, c);
    if h.cancelAt.Some? && c'.now >= h.cancelAt.value {
      return Failed(Cancelled), c', pid, started, trace;
    }
    ghost var lookedAt := c';
    var look := Look(h, c', pid, started);
    c' := look.1;
    trace' := trace.(polls := trace.polls + [Poll(lookedAt, look.0)]);
    if look.0 {
      c' := Tick(h, c');
      if c'.now > deadline {
        c' := Tick(h, c');
        if !VerifyMaster(h, c'.now, pid, target.configPath) {
          return Failed(LostIdentity), c', pid, started, trace';
        }
        return Survived, c', pid, started, trace'.(verifiedAt := c'.now);
      }
    } else {
      var found := Successor(h, c', target, pid);
      c' := Tick(h, found.1);
      if found.0.Some? {
        pid' := found.0.value;
        started' := ProcessStartedAt(h, c'.now, pid');
        trace' := trace.(adoptions := trace.adoptions + 1, anchorAt := c'.now, polls := []);
        return;
      }
      if c'.now > deadline {
        return Failed(NoSuccessor), c', pid, started, trace';
      }
    }
    c' := c'.(now := c'.now + POLL_INTERVAL);
    trace' := trace'.(sleeps := trace.sleeps + 1);
  }

  /** `ReloadAndWait`, cut off after `turns` turns of its loop. */
  method ReloadAndWait(h: Host, target: Target, settle: int, turns: nat)
    returns (status: Status, pid: int, ghost trace: Trace)
    ensures status == After(h, target, settle, turns).status && pid == After(h, target, settle, turns).pid
    ensures trace == After(h, target, settle, turns).trace
  {
    pid := target.pid;
    var err, c, signals := ReloadMaster(h, Clock(0, 0), target);
    trace := Trace(signals, 0, 0, 0, [], 0);
    if err.Some? {
      StoppedStays(h, target, settle, 0, turns);
      return Failed(err.value), pid, trace;
    }
    c := Tick(h, c);
    var started := ProcessStartedAt(h, c.now, pid);
    trace := trace.(anchorAt := c.now);
    c := Tick(h, c);
    var deadline := c.now + settle;
    status := Watching;
    var n := 0;
    while n < turns && status == Watching
      invariant 0 <= n <= turns
      invariant Watch(status, c, pid, started, deadline, trace) == After(h, target, settle, n)
    {
      status, c, pid, started, trace := PollOnce(h, target, c, pid, started, deadline, trace);
      n := n + 1;
    }
    if status != Watching {
      StoppedStays(h, target, settle, n, turns);
    }
  }

  lemma {:induction false} StoppedStays(h: Host, target: Target, settle: int, n: nat, m: nat)
    requires n <= m && After(h, target, settle, n).status != Watching
    ensures After(h, target, settle, m) == After(h, target, settle, n)
    decreases m
  {
    if n < m {
      StoppedStays(h, target, settle, n, m - 1);
    }
  }
}
