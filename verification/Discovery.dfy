/** Finding pools by scanning the process table (discover.go), and the addresses a scrape goes to
    (target.go, metrics.go). */
module Discovery {
  import opened Text
  import opened Wrappers
  import opened ConfigParser
  import opened Paths
  import opened PoolConfig

  // ----- Addresses -----

  const MAX_INT64 := 0x7FFF_FFFF_FFFF_FFFF

  /** Whether `strconv.Atoi` accepts a string: an optional sign, digits, and a value of 64 bits. */
  predicate IsAtoi(s: string) {
    var digits := if s != "" && (s[0] == '-' || s[0] == '+') then s[1..] else s;
    && digits != "" && AllDigits(digits)
    && DigitsValue(digits) <= if s[0] == '-' then MAX_INT64 + 1 else MAX_INT64
  }

  /** `parseSocket`: a listen setting as an address, or "" when it makes no sense. */
  function ParseSocket(listen: string): string {
    if listen == "" then ""
    else if HasPrefix(listen, "/") then "unix://" + listen
    else if ':' in listen then "tcp://" + listen
    else if IsAtoi(listen) then "tcp://127.0.0.1:" + listen
    else ""
  }

  datatype Address = Address(scheme: string, address: string)

  /** `ParseAddress`, which hands its script path through unchanged. */
  function ParseAddress(addr: string): Option<Address> {
    if HasPrefix(addr, "unix://") then Some(Address("unix", addr[7..]))
    else if HasPrefix(addr, "tcp://") then Some(Address("tcp", addr[6..]))
    else if HasPrefix(addr, "/") then Some(Address("unix", addr))
    else None
  }

  /** The address the library takes a listen setting for: a path, a host and port, or a port on this machine. */
  function Meant(listen: string): Option<Address> {
    if listen == "" then None
    else if listen[0] == '/' then Some(Address("unix", listen))
    else if ':' in listen then Some(Address("tcp", listen))
    else if IsAtoi(listen) then Some(Address("tcp", "127.0.0.1:" + listen))
    else None
  }

  lemma PrefixedAddress(prefix: string, rest: string)
    ensures HasPrefix(prefix + rest, prefix) && (prefix + rest)[|prefix|..] == rest
    ensures prefix != "" && rest != "" ==> prefix + rest != ""
  {
  }

  /** Round trip: the address made of a listen setting is read back as what the setting means, and there
      is one exactly when it means something. */
  lemma AddressRoundTrip(listen: string)
    ensures ParseSocket(listen) != "" <==> Meant(listen).Some?
    ensures ParseSocket(listen) != "" ==> ParseAddress(ParseSocket(listen)) == Meant(listen)
  {
    if HasPrefix(listen, "/") || (listen != "" && listen[0] == '/') {
      SlashStarts(listen);
      UnixIsParsed(listen);
    } else {
      SlashStarts(listen);
      TcpIsParsed(listen);
      TcpIsParsed("127.0.0.1:" + listen);
      assert "tcp://" + ("127.0.0.1:" + listen) == "tcp://127.0.0.1:" + listen;
    }
  }

  lemma SlashStarts(s: string)
    ensures HasPrefix(s, "/") <==> s != "" && s[0] == '/'
  {
    if s != "" {
      assert s[..1] == [s[0]];
    }
  }

  lemma UnixIsParsed(rest: string)
    ensures ParseAddress("unix://" + rest) == Some(Address("unix", rest)) && "unix://" + rest != ""
  {
    var unix := "unix://";
    PrefixedAddress(unix, rest);
  }

  lemma TcpIsParsed(rest: string)
    ensures ParseAddress("tcp://" + rest) == Some(Address("tcp", rest)) && "tcp://" + rest != ""
  {
    var tcp, unix := "tcp://", "unix://";
    PrefixedAddress(tcp, rest);
    assert tcp[0] == 't' && unix[0] == 'u' && (tcp + rest)[0] == 't';
    StartsAlike(tcp + rest, unix);
  }

  lemma StartsAlike(s: string, prefix: string)
    ensures HasPrefix(s, prefix) && prefix != "" ==> s != "" && s[0] == prefix[0]
  {
    if HasPrefix(s, prefix) && prefix != "" {
      assert s[..|prefix|][0] == s[0];
    }
  }

  /** The three forms an address can have, and that there is no other. */
  lemma AddressForms(rest: string, other: string)
    ensures ParseAddress("unix://" + rest) == Some(Address("unix", rest))
    ensures ParseAddress("tcp://" + rest) == Some(Address("tcp", rest))
    ensures ParseAddress("/" + rest) == Some(Address("unix", "/" + rest))
    ensures ParseAddress(other).None? <==>
              !HasPrefix(other, "unix://") && !HasPrefix(other, "tcp://") && !(other != "" && other[0] == '/')
  {
    UnixIsParsed(rest);
    TcpIsParsed(rest);
    SlashIsParsed(rest);
    SlashStarts(other);
  }

  lemma SlashIsParsed(rest: string)
    ensures ParseAddress("/" + rest) == Some(Address("unix", "/" + rest))
  {
    var path, tcp, unix := "/" + rest, "tcp://", "unix://";
    assert tcp[0] == 't' && unix[0] == 'u' && path[0] == '/';
    StartsAlike(path, unix);
    StartsAlike(path, tcp);
    SlashStarts(path);
  }

  /** What an administrator can ask php-fpm to listen on: a socket file, an address, or a port. */
  datatype Endpoint = SocketFile(name: string) | HostPort(host: string, port: nat) | Port(port: nat)

  predicate EndpointOk(e: Endpoint) {
    (e.HostPort? ==> !IsAbs(e.host)) && (e.Port? ==> e.port < 65536)
  }

  /** How a configuration writes it. */
  function Written(e: Endpoint): string {
    match e
    case SocketFile(name) => "/" + name
    case HostPort(host, port) => host + ":" + Decimal(port)
    case Port(port) => Decimal(port)
  }

  /** Where to dial it: a port is dialled on this machine. */
  function DialAt(e: Endpoint): Address {
    match e
    case SocketFile(name) => Address("unix", "/" + name)
    case HostPort(host, port) => Address("tcp", host + ":" + Decimal(port))
    case Port(port) => Address("tcp", "127.0.0.1:" + Decimal(port))
  }

  lemma PortIsAtoi(port: nat)
    requires port <= MAX_INT64
    ensures IsAtoi(Decimal(port)) && ':' !in Decimal(port) && !IsAbs(Decimal(port))
  {
    DecimalValue(port);
    var s := Decimal(port);
    assert IsDigit(s[0]);
  }

  /** Whatever endpoint a configuration asks for, the address found for it is the one to dial. */
  lemma EndpointRoundTrip(e: Endpoint)
    requires EndpointOk(e)
    ensures ParseAddress(ParseSocket(Written(e))) == Some(DialAt(e))
  {
    var s := Written(e);
    AddressRoundTrip(s);
    match e {
      case SocketFile(name) =>
      case HostPort(host, port) =>
        assert s[|host|] == ':';
        assert host != "" ==> s[0] == host[0];
      case Port(port) => PortIsAtoi(port);
    }
  }

  // ----- The scan -----

  /** What the process table alone says of a master. */
  datatype Identity = Identity(binary: string, config: string)

  datatype Proc = Proc(pid: int, identity: Option<Identity>)

  datatype Master = Master(pid: int, binary: string, configPath: string)

  datatype Discovered = Discovered(
    name: string, configPath: string, statusPath: string, binary: string,
    socket: string, statusSocket: string,
    maxChildren: int, processManager: string, workload: string, pid: int)

  datatype Unstatused = Unstatused(name: string, configPath: string, binary: string, pid: int, socket: string)

  datatype Lists = Lists(found: seq<Discovered>, unstatused: seq<Unstatused>)

  /** One scan: the processes in the order listed, what parsing a master's configuration yields, and the
      order in which the pools of the `i`-th process are ranged over. */
  datatype Scan = Scan(
    procs: seq<Proc>,
    parse: Identity -> Option<EffectiveConfig>,
    order: nat -> seq<string>)

  /** `strconv.Atoi` with its error ignored: 0 for what is no number, the nearest bound for one too big. */
  function AtoiOrZero(s: string): int {
    var negative := s != "" && s[0] == '-';
    var digits := if s != "" && (s[0] == '-' || s[0] == '+') then s[1..] else s;
    if digits == "" || !AllDigits(digits) then 0
    else
      var magnitude: int := DigitsValue(digits);
      if negative then (if magnitude > MAX_INT64 + 1 then -MAX_INT64 - 1 else -magnitude)
      else if magnitude > MAX_INT64 then MAX_INT64
      else magnitude
  }

  function Get(m: map<string, string>, key: string): string {
    if key in m then m[key] else ""
  }

  function Listen(c: EffectiveConfig, name: string): string {
    Get(PoolOf(c, name), "listen")
  }

  function StatusListen(c: EffectiveConfig, name: string): string {
    Get(PoolOf(c, name), "pm.status_listen")
  }

  /** The pool's own status path, or the global one. */
  function StatusPath(c: EffectiveConfig, name: string): string {
    var own := Get(PoolOf(c, name), "pm.status_path");
    if own != "" then own else Get(c.global, "pm.status_path")
  }

  function DiscoveredOf(pid: int, id: Identity, c: EffectiveConfig, name: string): Discovered {
    var pool, socket := PoolOf(c, name), ParseSocket(Listen(c, name));
    var statusSocket := ParseSocket(StatusListen(c, name));
    Discovered(name, id.config, StatusPath(c, name), id.binary,
               socket, if statusSocket == "" then socket else statusSocket,
               AtoiOrZero(TrimSpace(Get(pool, "pm.max_children"))), TrimSpace(Get(pool, "pm")),
               TrimSpace(Get(pool, "env[FPM_TUNE_WORKLOAD]")), pid)
  }

  function UnstatusedOf(pid: int, id: Identity, c: EffectiveConfig, name: string): Unstatused {
    Unstatused(name, id.config, id.binary, pid, ParseSocket(Listen(c, name)))
  }

  function AddPool(l: Lists, pid: int, id: Identity, c: EffectiveConfig, name: string): Lists {
    if ParseSocket(Listen(c, name)) == "" then l
    else if StatusPath(c, name) == "" then l.(unstatused := l.unstatused + [UnstatusedOf(pid, id, c, name)])
    else l.(found := l.found + [DiscoveredOf(pid, id, c, name)])
  }

  function AddPools(l: Lists, pid: int, id: Identity, c: EffectiveConfig, names: seq<string>): Lists {
    if names == [] then l else AddPool(AddPools(l, pid, id, c, names[..|names| - 1]), pid, id, c, names[|names| - 1])
  }

  /** What the configuration of the `i`-th process parses to, when it is a master and it does. */
  function ConfigAt(s: Scan, i: nat): Option<EffectiveConfig>
    requires i < |s.procs|
  {
    if s.procs[i].identity.Some? then s.parse(s.procs[i].identity.value) else None
  }

  /** The lists after the first `n` processes. */
  function ScanFirst(s: Scan, n: nat): Lists
    requires n <= |s.procs|
  {
    if n == 0 then Lists([], [])
    else
      var l, p := ScanFirst(s, n - 1), s.procs[n - 1];
      match ConfigAt(s, n - 1)
      case None => l
      case Some(c) => AddPools(l, p.pid, p.identity.value, c, s.order(n - 1))
  }

  method DiscoverContext(s: Scan) returns (found: seq<Discovered>, unstatused: seq<Unstatused>)
    ensures Lists(found, unstatused) == ScanFirst(s, |s.procs|)
  {
    found, unstatused := [], [];
    for i := 0 to |s.procs|
      invariant Lists(found, unstatused) == ScanFirst(s, i)
    {
      var p := s.procs[i];
      if p.identity.None? {
        continue;
      }
      var parsed := s.parse(p.identity.value);
      if parsed.None? {
        continue;
      }
      found, unstatused := RangePools(found, unstatused, p.pid, p.identity.value, parsed.value, s.order(i));
    }
  }

  /** The inner loop, over the pools of one master. */
  method RangePools(
    found: seq<Discovered>, unstatused: seq<Unstatused>,
    pid: int, id: Identity, parsed: EffectiveConfig, names: seq<string>)
    returns (found': seq<Discovered>, unstatused': seq<Unstatused>)
    ensures Lists(found', unstatused') == AddPools(Lists(found, unstatused), pid, id, parsed, names)
  {
    found', unstatused' := found, unstatused;
    for j := 0 to |names|
      invariant Lists(found', unstatused') == AddPools(Lists(found, unstatused), pid, id, parsed, names[..j])
    {
      assert names[..j + 1][..j] == names[..j];
      var name := names[j];
      if ParseSocket(Listen(parsed, name)) == "" {
        continue;
      }
      if StatusPath(parsed, name) == "" {
        unstatused' := unstatused' + [UnstatusedOf(pid, id, parsed, name)];
        continue;
      }
      found' := found' + [DiscoveredOf(pid, id, parsed, name)];
    }
    assert names[..|names|] == names;
  }

  function MastersFirst(procs: seq<Proc>, n: nat): seq<Master>
    requires n <= |procs|
  {
    if n == 0 then []
    else
      var p := procs[n - 1];
      MastersFirst(procs, n - 1)
      + if p.identity.Some? then [Master(p.pid, p.identity.value.binary, p.identity.value.config)] else []
  }

  method DiscoverMasters(procs: seq<Proc>) returns (masters: seq<Master>)
    ensures masters == MastersFirst(procs, |procs|)
  {
    masters := [];
    for i := 0 to |procs|
      invariant masters == MastersFirst(procs, i)
    {
      var p := procs[i];
      if p.identity.None? {
        continue;
      }
      masters := masters + [Master(p.pid, p.identity.value.binary, p.identity.value.config)];
    }
  }

  // ----- The partition -----

  /** How often a pool of a master is listed as scrapable. */
  function CountFound(found: seq<Discovered>, pid: int, name: string): nat {
    if found == [] then 0
    else
      var d := found[|found| - 1];
      CountFound(found[..|found| - 1], pid, name) + if d.pid == pid && d.name == name then 1 else 0
  }

  /** How often it is listed as lacking a status page. */
  function CountUnstatused(unstatused: seq<Unstatused>, pid: int, name: string): nat {
    if unstatused == [] then 0
    else
      var u := unstatused[|unstatused| - 1];
      CountUnstatused(unstatused[..|unstatused| - 1], pid, name) + if u.pid == pid && u.name == name then 1 else 0
  }

  function Occurrences(names: seq<string>, name: string): nat {
    if names == [] then 0
    else Occurrences(names[..|names| - 1], name) + if names[|names| - 1] == name then 1 else 0
  }

  lemma {:induction false} CountAddPools(
    l: Lists, pid: int, id: Identity, c: EffectiveConfig, names: seq<string>, q: int, name: string)
    ensures var l' := AddPools(l, pid, id, c, names);
            var times := if q == pid && ParseSocket(Listen(c, name)) != "" then Occurrences(names, name) else 0;
            && CountFound(l'.found, q, name)
               == CountFound(l.found, q, name) + (if StatusPath(c, name) != "" then times else 0)
            && CountUnstatused(l'.unstatused, q, name)
               == CountUnstatused(l.unstatused, q, name) + (if StatusPath(c, name) == "" then times else 0)
  {
    if names != [] {
      CountAddPools(l, pid, id, c, names[..|names| - 1], q, name);
      CountAddPool(AddPools(l, pid, id, c, names[..|names| - 1]), pid, id, c, names[|names| - 1], q, name);
    }
  }

  lemma CountAddPool(
    l: Lists, pid: int, id: Identity, c: EffectiveConfig, added: string, q: int, name: string)
    ensures var l' := AddPool(l, pid, id, c, added);
            var times := if q == pid && name == added && ParseSocket(Listen(c, added)) != "" then 1 else 0;
            && CountFound(l'.found, q, name)
               == CountFound(l.found, q, name) + (if StatusPath(c, added) != "" then times else 0)
            && CountUnstatused(l'.unstatused, q, name)
               == CountUnstatused(l.unstatused, q, name) + (if StatusPath(c, added) == "" then times else 0)
  {
    var l' := AddPool(l, pid, id, c, added);
    if ParseSocket(Listen(c, added)) != "" {
      if StatusPath(c, added) == "" {
        assert l'.unstatused[..|l.unstatused|] == l.unstatused;
      } else {
        assert l'.found[..|l.found|] == l.found;
      }
    }
  }

  lemma {:induction false} NoRepeatsOccurOnce(names: seq<string>, name: string)
    requires forall i, j | 0 <= i < j < |names| :: names[i] != names[j]
    ensures Occurrences(names, name) == if name in names then 1 else 0
  {
    if names != [] {
      var front := names[..|names| - 1];
      NoRepeatsOccurOnce(front, name);
      assert names == front + [names[|names| - 1]];
    }
  }

  /** Process ids are distinct, and the pools of each parseable master are ranged over in some order. */
  ghost predicate WellFormed(s: Scan) {
    && (forall i, j | 0 <= i < j < |s.procs| :: s.procs[i].pid != s.procs[j].pid)
    && (forall i: nat | i < |s.procs| && ConfigAt(s, i).Some? :: RangeOver(ConfigAt(s, i).value.pools, s.order(i)))
  }

  /** The pool `name` of the `i`-th process exists and listens somewhere intelligible. */
  predicate Eligible(s: Scan, i: nat, name: string)
    requires i < |s.procs|
  {
    && ConfigAt(s, i).Some?
    && name in ConfigAt(s, i).value.pools
    && Meant(Listen(ConfigAt(s, i).value, name)).Some?
  }

  predicate HasStatus(s: Scan, i: nat, name: string)
    requires i < |s.procs| && ConfigAt(s, i).Some?
  {
    StatusPath(ConfigAt(s, i).value, name) != ""
  }

  /** What the `n`-th process adds to the counts. */
  lemma CountStep(s: Scan, n: nat, pid: int, name: string)
    requires WellFormed(s) && n < |s.procs|
    ensures var before, after := ScanFirst(s, n), ScanFirst(s, n + 1);
            var mine := s.procs[n].pid == pid && Eligible(s, n, name);
            && CountFound(after.found, pid, name)
               == CountFound(before.found, pid, name) + (if mine && HasStatus(s, n, name) then 1 else 0)
            && CountUnstatused(after.unstatused, pid, name)
               == CountUnstatused(before.unstatused, pid, name) + (if mine && !HasStatus(s, n, name) then 1 else 0)
  {
    var parsed := ConfigAt(s, n);
    if parsed.Some? {
      var p, names := s.procs[n], s.order(n);
      CountAddPools(ScanFirst(s, n), p.pid, p.identity.value, parsed.value, names, pid, name);
      assert RangeOver(parsed.value.pools, names);
      NoRepeatsOccurOnce(names, name);
      AddressRoundTrip(Listen(parsed.value, name));
    }
  }

  /** A count that only the `i`-th step can raise. */
  lemma {:induction false} RaisedOnce(count: nat -> nat, n: nat, i: nat, raise: nat)
    requires count(0) == 0
    requires forall k: nat | k < n :: count(k + 1) == count(k) + if k == i then raise else 0
    ensures count(n) == if i < n then raise else 0
  {
    if n > 0 {
      RaisedOnce(count, n - 1, i, raise);
      assert count(n - 1 + 1) == count(n - 1) + if n - 1 == i then raise else 0;
    }
  }

  /** How often a pool of the `i`-th process is listed after the first `n`, as scrapable and not. */
  function Found(s: Scan, n: nat, i: nat, name: string): nat
    requires i < |s.procs|
  {
    if n <= |s.procs| then CountFound(ScanFirst(s, n).found, s.procs[i].pid, name) else 0
  }

  function Lacking(s: Scan, n: nat, i: nat, name: string): nat
    requires i < |s.procs|
  {
    if n <= |s.procs| then CountUnstatused(ScanFirst(s, n).unstatused, s.procs[i].pid, name) else 0
  }

  predicate Scrapable(s: Scan, i: nat, name: string)
    requires i < |s.procs|
  {
    Eligible(s, i, name) && HasStatus(s, i, name)
  }

  predicate Statusless(s: Scan, i: nat, name: string)
    requires i < |s.procs|
  {
    Eligible(s, i, name) && !HasStatus(s, i, name)
  }

  lemma OnlyOwnStepCounts(s: Scan, k: nat, i: nat, name: string)
    requires WellFormed(s) && k < |s.procs| && i < |s.procs|
    ensures Found(s, k + 1, i, name) == Found(s, k, i, name) + if k == i && Scrapable(s, i, name) then 1 else 0
    ensures Lacking(s, k + 1, i, name) == Lacking(s, k, i, name) + if k == i && Statusless(s, i, name) then 1 else 0
  {
    CountStep(s, k, s.procs[i].pid, name);
    assert k != i ==> s.procs[k].pid != s.procs[i].pid;
  }

  lemma CountsOf(s: Scan, i: nat, name: string)
    requires WellFormed(s) && i < |s.procs|
    ensures Found(s, |s.procs|, i, name) == if Scrapable(s, i, name) then 1 else 0
    ensures Lacking(s, |s.procs|, i, name) == if Statusless(s, i, name) then 1 else 0
  {
    var n := |s.procs|;
    forall k: nat | k < n
      ensures Found(s, k + 1, i, name) == Found(s, k, i, name) + if k == i && Scrapable(s, i, name) then 1 else 0
      ensures Lacking(s, k + 1, i, name) == Lacking(s, k, i, name) + if k == i && Statusless(s, i, name) then 1 else 0
    {
      OnlyOwnStepCounts(s, k, i, name);
    }
    RaisedOnce(k => Found(s, k, i, name), n, i, if Scrapable(s, i, name) then 1 else 0);
    RaisedOnce(k => Lacking(s, k, i, name), n, i, if Statusless(s, i, name) then 1 else 0);
  }

  /** The partition: every pool of every parseable master that listens somewhere intelligible is listed
      exactly once, as scrapable when it has a status path and as unstatused when it has none; no
      other pool is listed at all. */
  lemma DiscoveryPartitions(s: Scan, i: nat, name: string)
    requires WellFormed(s) && i < |s.procs|
    ensures Found(s, |s.procs|, i, name) + Lacking(s, |s.procs|, i, name) == if Eligible(s, i, name) then 1 else 0
    ensures Eligible(s, i, name) ==>
              var pool, global := ConfigAt(s, i).value.pools[name], ConfigAt(s, i).value.global;
              (Found(s, |s.procs|, i, name) == 1 <==>
                || ("pm.status_path" in pool && pool["pm.status_path"] != "")
                || ("pm.status_path" in global && global["pm.status_path"] != ""))
    ensures Eligible(s, i, name) <==>
              && s.procs[i].identity.Some? && s.parse(s.procs[i].identity.value).Some?
              && var pools := s.parse(s.procs[i].identity.value).value.pools;
                 name in pools && "listen" in pools[name] && Meant(pools[name]["listen"]).Some?
  {
    CountsOf(s, i, name);
  }

  // ----- What is listed -----

  predicate FoundAt(s: Scan, i: nat, d: Discovered) {
    && i < |s.procs| && ConfigAt(s, i).Some?
    && d == DiscoveredOf(s.procs[i].pid, s.procs[i].identity.value, ConfigAt(s, i).value, d.name)
    && ParseSocket(Listen(ConfigAt(s, i).value, d.name)) != "" && d.statusPath != ""
  }

  predicate UnstatusedAt(s: Scan, i: nat, u: Unstatused) {
    && i < |s.procs| && ConfigAt(s, i).Some?
    && u == UnstatusedOf(s.procs[i].pid, s.procs[i].identity.value, ConfigAt(s, i).value, u.name)
    && ParseSocket(Listen(ConfigAt(s, i).value, u.name)) != ""
    && StatusPath(ConfigAt(s, i).value, u.name) == ""
  }

  ghost predicate AllListed(s: Scan, l: Lists) {
    && (forall d | d in l.found :: exists i: nat :: FoundAt(s, i, d))
    && (forall u | u in l.unstatused :: exists i: nat :: UnstatusedAt(s, i, u))
  }

  lemma {:induction false} AddPoolsLists(s: Scan, l: Lists, i: nat, names: seq<string>)
    requires i < |s.procs| && ConfigAt(s, i).Some? && AllListed(s, l)
    ensures AllListed(s, AddPools(l, s.procs[i].pid, s.procs[i].identity.value, ConfigAt(s, i).value, names))
  {
    if names != [] {
      var pid, id, c := s.procs[i].pid, s.procs[i].identity.value, ConfigAt(s, i).value;
      var before, name := AddPools(l, pid, id, c, names[..|names| - 1]), names[|names| - 1];
      AddPoolsLists(s, l, i, names[..|names| - 1]);
      if ParseSocket(Listen(c, name)) != "" {
        if StatusPath(c, name) == "" {
          assert UnstatusedAt(s, i, UnstatusedOf(pid, id, c, name));
        } else {
          assert FoundAt(s, i, DiscoveredOf(pid, id, c, name));
        }
      }
    }
  }

  lemma {:induction false} ScanLists(s: Scan, n: nat)
    requires n <= |s.procs|
    ensures AllListed(s, ScanFirst(s, n))
  {
    if n > 0 {
      ScanLists(s, n - 1);
      if ConfigAt(s, n - 1).Some? {
        AddPoolsLists(s, ScanFirst(s, n - 1), n - 1, s.order(n - 1));
      }
    }
  }

  lemma {:induction false} MasterIsFound(procs: seq<Proc>, n: nat, i: nat)
    requires i < n <= |procs| && procs[i].identity.Some?
    ensures Master(procs[i].pid, procs[i].identity.value.binary, procs[i].identity.value.config) in MastersFirst(procs, n)
    decreases n
  {
    if i < n - 1 {
      MasterIsFound(procs, n - 1, i);
    }
  }

  lemma {:induction false} MastersComeFromRows(procs: seq<Proc>, n: nat, m: Master)
    requires n <= |procs| && m in MastersFirst(procs, n)
    ensures exists i | 0 <= i < n :: IsMasterOf(procs[i], m)
  {
    if IsMasterOf(procs[n - 1], m) {
    } else {
      MastersComeFromRows(procs, n - 1, m);
    }
  }

  predicate IsMasterOf(p: Proc, m: Master) {
    p.identity.Some? && m.pid == p.pid && m.binary == p.identity.value.binary && m.configPath == p.identity.value.config
  }

  /** The masters found are exactly the processes that are identified as masters. */
  lemma MastersAreExact(procs: seq<Proc>, m: Master)
    ensures m in MastersFirst(procs, |procs|) <==> exists i | 0 <= i < |procs| :: IsMasterOf(procs[i], m)
  {
    if m in MastersFirst(procs, |procs|) {
      MastersComeFromRows(procs, |procs|, m);
    }
    if i :| 0 <= i < |procs| && IsMasterOf(procs[i], m) {
      MasterIsFound(procs, |procs|, i);
    }
  }

  /** Every pool listed belongs to a master that the scan without parsing finds too. */
  lemma ListedPoolsHaveMasters(s: Scan)
    ensures var l, masters := ScanFirst(s, |s.procs|), MastersFirst(s.procs, |s.procs|);
            && (forall d | d in l.found :: Master(d.pid, d.binary, d.configPath) in masters)
            && (forall u | u in l.unstatused :: Master(u.pid, u.binary, u.configPath) in masters)
  {
    ScanLists(s, |s.procs|);
    var l := ScanFirst(s, |s.procs|);
    forall d | d in l.found
      ensures Master(d.pid, d.binary, d.configPath) in MastersFirst(s.procs, |s.procs|)
    {
      var i: nat :| FoundAt(s, i, d);
      MasterIsFound(s.procs, |s.procs|, i);
    }
    forall u | u in l.unstatused
      ensures Master(u.pid, u.binary, u.configPath) in MastersFirst(s.procs, |s.procs|)
    {
      var i: nat :| UnstatusedAt(s, i, u);
      MasterIsFound(s.procs, |s.procs|, i);
    }
  }

  /** What the settings of a listed pool are read from: `pool` is its section, `global` the global one. */
  predicate ReadFrom(d: Discovered, pool: map<string, string>, global: map<string, string>) {
    && (if "pm.status_path" in pool && pool["pm.status_path"] != "" then d.statusPath == pool["pm.status_path"]
        else "pm.status_path" in global && d.statusPath == global["pm.status_path"])
    && d.processManager == (if "pm" in pool then TrimSpace(pool["pm"]) else "")
    && d.workload == (if "env[FPM_TUNE_WORKLOAD]" in pool then TrimSpace(pool["env[FPM_TUNE_WORKLOAD]"]) else "")
    && (forall n: nat | n <= MAX_INT64 && "pm.max_children" in pool && TrimSpace(pool["pm.max_children"]) == Decimal(n) ::
          d.maxChildren == n)
    && ("pm.max_children" !in pool ==> d.maxChildren == 0)
  }

  lemma NumbersAreRead(n: nat)
    requires n <= MAX_INT64
    ensures AtoiOrZero(Decimal(n)) == n
  {
    DecimalValue(n);
    var s := Decimal(n);
    assert IsDigit(s[0]);
  }

  lemma NothingTrims()
    ensures TrimSpace("") == "" && AtoiOrZero("") == 0
  {
  }

  lemma SettingsAreRead(pid: int, id: Identity, c: EffectiveConfig, name: string)
    requires StatusPath(c, name) != ""
    ensures ReadFrom(DiscoveredOf(pid, id, c, name), PoolOf(c, name), c.global)
  {
    NothingTrims();
    var pool := PoolOf(c, name);
    forall n: nat | n <= MAX_INT64 && "pm.max_children" in pool && TrimSpace(pool["pm.max_children"]) == Decimal(n)
      ensures DiscoveredOf(pid, id, c, name).maxChildren == n
    {
      NumbersAreRead(n);
    }
  }

  /** Every scrapable pool carries what its own section says, and the global status path only when its
      section has none. */
  lemma ListedSettings(s: Scan, d: Discovered)
    requires d in ScanFirst(s, |s.procs|).found
    ensures exists i: nat :: FoundAt(s, i, d)
              && d.pid == s.procs[i].pid && d.binary == s.procs[i].identity.value.binary
              && d.configPath == s.procs[i].identity.value.config
              && ReadFrom(d, PoolOf(ConfigAt(s, i).value, d.name), ConfigAt(s, i).value.global)
  {
    ScanLists(s, |s.procs|);
    var i: nat :| FoundAt(s, i, d);
    SettingsAreRead(s.procs[i].pid, s.procs[i].identity.value, ConfigAt(s, i).value, d.name);
  }

  /** A pool without a status page is listed with the address of its own section's listen setting. */
  lemma UnstatusedSettings(s: Scan, u: Unstatused)
    requires u in ScanFirst(s, |s.procs|).unstatused
    ensures exists i: nat :: UnstatusedAt(s, i, u)
              && var pool := PoolOf(ConfigAt(s, i).value, u.name);
                 "listen" in pool && ParseAddress(u.socket).Some? && ParseAddress(u.socket) == Meant(pool["listen"])
  {
    ScanLists(s, |s.procs|);
    var i: nat :| UnstatusedAt(s, i, u);
    AddressRoundTrip(Listen(ConfigAt(s, i).value, u.name));
  }

  /** `Target.statusAddress`, of the target made from a discovered pool. */
  function StatusAddress(d: Discovered): string {
    if d.statusSocket != "" then d.statusSocket else d.socket
  }

  /** Every scrapable pool can be dialled where its configuration says its status page is: on the
      dedicated socket if that setting makes sense, and otherwise where the pool listens. */
  lemma ScrapableIsReachable(s: Scan, d: Discovered)
    requires d in ScanFirst(s, |s.procs|).found
    ensures exists i: nat :: FoundAt(s, i, d)
              && var pool := PoolOf(ConfigAt(s, i).value, d.name);
                 && ParseAddress(StatusAddress(d)).Some? && "listen" in pool
                 && ParseAddress(StatusAddress(d))
                    == (if "pm.status_listen" in pool && Meant(pool["pm.status_listen"]).Some?
                        then Meant(pool["pm.status_listen"]) else Meant(pool["listen"]))
  {
    ScanLists(s, |s.procs|);
    var i: nat :| FoundAt(s, i, d);
    var c := ConfigAt(s, i).value;
    AddressRoundTrip(Listen(c, d.name));
    AddressRoundTrip(StatusListen(c, d.name));
  }
}
