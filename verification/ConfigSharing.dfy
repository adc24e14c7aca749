/** The configuration cache as the objects it is made of (config.go): maps are shared by reference, so
    what keeps callers apart is that every one of them is handed a deep copy. */
module ConfigSharing {
  import opened Wrappers
  import opened Machine
  import opened Paths
  import opened ConfigParser
  import opened ConfigCache

  /** A Go `map[string]string`. */
  class Dict {
    var m: map<string, string>

    constructor ()
      ensures m == map[]
    {
      m := map[];
    }
  }

  /** A Go `map[string]map[string]string`. */
  class PoolTable {
    var m: map<string, Dict>

    constructor ()
      ensures m == map[]
    {
      m := map[];
    }
  }

  lemma SomeKey(keys: set<string>)
    requires keys != {}
    ensures exists k :: k in keys
  {
    assert (forall k :: k !in keys) ==> keys == {};
  }

  /** `maps.Clone`: the copying loops of `clone`, in whatever order the map is ranged over. */
  method CopyDict(d: Dict) returns (out: Dict)
    ensures fresh(out) && out.m == d.m
  {
    out := new Dict();
    var keys := d.m.Keys;
    while keys != {}
      invariant keys <= d.m.Keys
      invariant out.m == map k | k in d.m && k !in keys :: d.m[k]
      decreases keys
    {
      SomeKey(keys);
      var k :| k in keys;
      out.m := out.m[k := d.m[k]];
      keys := keys - {k};
    }
  }

  class ConfigObject {
    var global: Dict
    var pools: PoolTable

    ghost function Repr(): set<object>
      reads this, pools
    {
      {this, global, pools} + set name | name in pools.m :: pools.m[name]
    }

    ghost function Value(): EffectiveConfig
      reads this, pools, Repr()
    {
      EffectiveConfig(global.m, map name | name in pools.m :: pools.m[name].m)
    }

    constructor (global: Dict, pools: PoolTable)
      ensures this.global == global && this.pools == pools
    {
      this.global, this.pools := global, pools;
    }

    method Clone() returns (out: ConfigObject)
      ensures fresh(out.Repr()) && out.Value() == Value()
    {
      var g := CopyDict(global);
      var table := CopyTable(pools);
      out := new ConfigObject(g, table);
    }
  }

  /** The outer of those loops: every pool is copied too. */
  method CopyTable(pools: PoolTable) returns (table: PoolTable)
    ensures fresh(table) && table.m.Keys == pools.m.Keys
    ensures forall name | name in table.m :: fresh(table.m[name]) && table.m[name].m == pools.m[name].m
  {
    table := new PoolTable();
    var names := pools.m.Keys;
    while names != {}
      invariant names <= pools.m.Keys
      invariant table.m.Keys == pools.m.Keys - names
      invariant forall name | name in table.m :: fresh(table.m[name]) && table.m[name].m == pools.m[name].m
      invariant fresh(table)
      decreases names
    {
      SomeKey(names);
      var name :| name in names;
      var copied := CopyDict(pools.m[name]);
      table.m := table.m[name := copied];
      names := names - {name};
    }
  }

  /** A configuration none of whose objects was written to still says the same. */
  twostate lemma Untouched(c: ConfigObject)
    requires forall o | o in old(c.Repr()) :: unchanged(o)
    ensures c.Repr() == old(c.Repr()) && c.Value() == old(c.Value())
  {
    assert c in old(c.Repr()) && c.pools in old(c.Repr());
  }

  /** The object a parse builds. */
  method Build(c: EffectiveConfig) returns (out: ConfigObject)
    ensures fresh(out.Repr()) && out.Value() == c
  {
    var g := new Dict();
    g.m := c.global;
    var table := BuildTable(c.pools);
    out := new ConfigObject(g, table);
  }

  method BuildTable(pools: map<string, map<string, string>>) returns (table: PoolTable)
    ensures fresh(table) && table.m.Keys == pools.Keys
    ensures forall name | name in table.m :: fresh(table.m[name]) && table.m[name].m == pools[name]
  {
    table := new PoolTable();
    var names := pools.Keys;
    while names != {}
      invariant names <= pools.Keys
      invariant table.m.Keys == pools.Keys - names
      invariant forall name | name in table.m :: fresh(table.m[name]) && table.m[name].m == pools[name]
      invariant fresh(table)
      decreases names
    {
      SomeKey(names);
      var name :| name in names;
      var d := new Dict();
      d.m := pools[name];
      table.m := table.m[name := d];
      names := names - {name};
    }
  }

  class ConfigStore {
    var cache: map<string, ConfigObject>
    var epoch: nat
    ghost var owned: set<object>
    ghost var values: map<string, EffectiveConfig>

    /** `values` is what the cached objects say, and nothing they are made of lies outside `owned`. */
    ghost predicate Valid()
      reads this, owned
    {
      && this !in owned
      && values.Keys == cache.Keys
      && forall key | key in cache :: Holds(key)
    }

    ghost predicate Holds(key: string)
      requires key in cache && key in values
      reads this, owned
    {
      && cache[key] in owned && cache[key].pools in owned
      && cache[key].Repr() <= owned
      && cache[key].Value() == values[key]
    }

    /** What the cache means, its references followed. */
    ghost function View(): Cache<EffectiveConfig>
      reads this
    {
      Cache(values, epoch)
    }

    constructor ()
      ensures Valid() && View() == Cache(map[], 0) && owned == {}
    {
      cache, epoch, owned, values := map[], 0, {}, map[];
    }

    /** Entries that stay, in a cache whose objects nobody wrote to. */
    twostate lemma StillHolds()
      requires old(Valid()) && old(owned) <= owned && this !in old(owned)
      requires forall o | o in old(owned) :: unchanged(o)
      ensures forall key | key in cache && key in old(cache) && key in values && cache[key] == old(cache[key])
                && values[key] == old(values[key]) :: Holds(key)
    {
      forall key | key in cache && key in old(cache) && key in values && cache[key] == old(cache[key])
        && values[key] == old(values[key])
        ensures Holds(key)
      {
        assert old(Holds(key));
        Untouched(cache[key]);
      }
    }

    method Forget(key: string)
      requires Valid()
      modifies this
      ensures Valid() && owned == old(owned)
      ensures View() == Forgotten(old(View()), key)
    {
      cache, epoch := cache - {key}, NextEpoch(epoch);
      values := values - {key};
      StillHolds();
      forall k | k in cache
        ensures Holds(k)
      {
        assert k in old(cache) && cache[k] == old(cache[k]);
      }
    }

    method InvalidateConfigCache(binary: string, configPath: string)
      requires Valid()
      modifies this
      ensures Valid() && owned == old(owned)
      ensures View() == Invalidated(old(View()), Request(binary, configPath))
    {
      if binary == "" && configPath == "" {
        cache, values := map[], map[];
        epoch := NextEpoch(epoch);
      } else {
        Forget(CacheKey(Request(binary, configPath)));
      }
    }

    /** The first locked section: a copy of what is cached, and the epoch. */
    method LookUp(key: string) returns (hit: ConfigObject?, seen: nat)
      requires Valid()
      ensures seen == View().epoch
      ensures hit == null <==> key !in View().entries
      ensures hit != null ==> fresh(hit.Repr()) && hit.Value() == View().entries[key]
    {
      seen := epoch;
      hit := null;
      if key in cache {
        hit := cache[key].Clone();
      }
    }

    /** The second locked section: the parse is kept if the epoch has not moved. */
    method Keep(key: string, parsed: ConfigObject, seen: nat)
      requires Valid()
      requires this !in parsed.Repr() && parsed.Repr() !! owned
      modifies this
      ensures Valid() && old(owned) <= owned <= old(owned) + parsed.Repr()
      ensures View() == Stored(old(View()), key, parsed.Value(), seen)
    {
      if epoch == seen {
        cache, values := cache[key := parsed], values[key := parsed.Value()];
        owned := owned + parsed.Repr();
        StillHolds();
        Untouched(parsed);
      }
    }

    /** A fork that succeeded: the result is kept, and the caller gets a copy either way. */
    method ParseAfresh(key: string, report: EffectiveConfig, seen: nat) returns (out: ConfigObject)
      requires Valid()
      modifies this
      ensures Valid() && fresh(owned - old(owned))
      ensures View() == Stored(old(View()), key, report, seen)
      ensures fresh(out.Repr()) && out.Value() == report && out.Repr() !! owned
    {
      var parsed := Build(report);
      label built:
      Keep(key, parsed, seen);
      Untouched@built(parsed);
      label kept:
      out := parsed.Clone();
      StillHolds@kept();
    }

    /** `ParseConfigContext` when nobody interferes; `report` is what the fork would yield. */
    method ParseConfigContext(request: Request, report: Option<EffectiveConfig>) returns (out: ConfigObject?)
      requires Valid()
      modifies this
      ensures Valid() && fresh(owned - old(owned))
      ensures (View(), if out == null then None else Some(out.Value()))
           == Answered(old(View()), request, report)
      ensures out != null ==> fresh(out.Repr()) && out.Repr() !! owned
    {
      if !IsAbs(request.binary) {
        return null;
      }
      var hit, seen := LookUp(CacheKey(request));
      if hit != null {
        return hit;
      }
      if report.None? {
        return null;
      }
      out := ParseAfresh(CacheKey(request), report.value, seen);
    }
  }

  /** What an undisturbed call returns, and the cache it leaves. */
  function Answered(c: Cache<EffectiveConfig>, r: Request, report: Option<EffectiveConfig>)
    : (Cache<EffectiveConfig>, Option<EffectiveConfig>)
  {
    if !IsAbs(r.binary) then (c, None)
    else if CacheKey(r) in c.entries then (c, Some(c.entries[CacheKey(r)]))
    else if report.None? then (c, None)
    else (Stored(c, CacheKey(r), report.value, c.epoch), report)
  }

  // ----- Callers that write to what they were given -----

  datatype Move =
    | Parse(request: Request, report: Option<EffectiveConfig>)
    | Invalidate(request: Request)
    | Scribble

  /** What a script means when nothing that callers do to their copies matters. */
  function Replay(c: Cache<EffectiveConfig>, script: seq<Move>): (Cache<EffectiveConfig>, seq<Option<EffectiveConfig>>) {
    if script == [] then (c, [])
    else
      var (before, answers) := Replay(c, script[..|script| - 1]);
      match script[|script| - 1]
      case Parse(r, report) =>
        var (after, answer) := Answered(before, r, report);
        (after, answers + [answer])
      case Invalidate(r) => (Invalidated(before, r), answers)
      case Scribble => (before, answers)
  }

  predicate Spares(script: seq<Move>, key: string) {
    forall i | 0 <= i < |script| && script[i].Invalidate? ::
      !(script[i].request.binary == "" && script[i].request.config == "") && CacheKey(script[i].request) != key
  }

  lemma {:induction false} ReplaySpares(c: Cache<EffectiveConfig>, script: seq<Move>, from: nat, key: string)
    requires from <= |script| && key in Replay(c, script[..from]).0.entries && Spares(script[from..], key)
    ensures key in Replay(c, script).0.entries
    ensures Replay(c, script).0.entries[key] == Replay(c, script[..from]).0.entries[key]
    decreases |script|
  {
    if from == |script| {
      assert script[..from] == script;
    } else {
      var front := script[..|script| - 1];
      assert front[..from] == script[..from];
      assert forall i | 0 <= i < |front| - from :: front[from..][i] == script[from..][i];
      assert script[from..][|script| - 1 - from] == script[|script| - 1];
      ReplaySpares(c, front, from, key);
    }
  }

  /** A parse that succeeded answers later ones: whatever happens in between, short of an invalidation
      that reaches it, and whatever a fork would then yield, the same file is answered the same. */
  lemma ParseIsRepeated(
    c: Cache<EffectiveConfig>, r: Request, parsed: EffectiveConfig, between: seq<Move>, report: Option<EffectiveConfig>)
    requires IsAbs(r.binary) && Spares(between, CacheKey(r))
    ensures var script := [Parse(r, Some(parsed))] + between + [Parse(r, report)];
            var answers := Replay(c, script).1;
            && answers != []
            && answers[|answers| - 1]
               == Some(if CacheKey(r) in c.entries then c.entries[CacheKey(r)] else parsed)
  {
    var first := [Parse(r, Some(parsed))];
    var script := first + between + [Parse(r, report)];
    assert first[..0] == [] && script[..|script| - 1] == first + between;
    assert (first + between)[..1] == first && (first + between)[1..] == between;
    ReplaySpares(c, first + between, 1, CacheKey(r));
    ReplayParse(c, first + between, r, report);
    assert [] + first == first;
    ReplayParse(c, [], r, Some(parsed));
  }

  lemma ReplayParse(c: Cache<EffectiveConfig>, script: seq<Move>, r: Request, report: Option<EffectiveConfig>)
    ensures var before, after := Replay(c, script), Replay(c, script + [Parse(r, report)]);
            && after.0 == Answered(before.0, r, report).0
            && after.1 == before.1 + [Answered(before.0, r, report).1]
  {
    assert (script + [Parse(r, report)])[..|script|] == script;
  }

  /** A relative binary is refused, and nothing is kept of it. */
  lemma RelativeParseIsRefused(
    c: Cache<EffectiveConfig>, script: seq<Move>, r: Request, report: Option<EffectiveConfig>)
    requires !IsAbs(r.binary)
    ensures Replay(c, script + [Parse(r, report)]).0 == Replay(c, script).0
    ensures Replay(c, script + [Parse(r, report)]).1 == Replay(c, script).1 + [None]
  {
    ReplayParse(c, script, r, report);
  }

  /** A caller does anything at all to everything it has been handed. */
  method ScribbleOn(ghost handed: set<object>)
    modifies handed
  {
  }

  /** Whatever callers write into what they were handed, every later answer and the cache itself are
      what they would have been without it. */
  method Session(store: ConfigStore, script: seq<Move>) returns (ghost answers: seq<Option<EffectiveConfig>>)
    requires store.Valid()
    modifies store
    ensures store.Valid()
    ensures (store.View(), answers) == Replay(old(store.View()), script)
  {
    answers := [];
    ghost var start := store.View();
    ghost var handed: set<object> := {};
    for n := 0 to |script|
      invariant store.Valid()
      invariant handed !! store.owned && store !in handed && fresh(handed) && fresh(store.owned - old(store.owned))
      invariant (store.View(), answers) == Replay(start, script[..n])
    {
      assert script[..n + 1][..n] == script[..n];
      match script[n] {
        case Parse(r, report) =>
          var out := store.ParseConfigContext(r, report);
          if out != null {
            handed := handed + out.Repr();
            answers := answers + [Some(out.Value())];
          } else {
            answers := answers + [None];
          }
        case Invalidate(r) =>
          store.InvalidateConfigCache(r.binary, r.config);
        case Scribble =>
          ScribbleOn(handed);
      }
    }
    assert script[..|script|] == script;
  }
}
