/** The configuration cache and its invalidation epoch (config.go), as a transition system: any number
    of calls look up, fork outside the lock and store only if the epoch has not moved, while
    configurations are rewritten and invalidated under them. */
module ConfigCache {
  import opened Wrappers
  import opened Machine
  import opened Text
  import opened Paths
  import opened ConfigParser

  // ----- Keys -----

  datatype Request = Request(binary: string, config: string)

  /** What a request is about, whatever its spelling. */
  datatype File = File(binary: string, config: string)

  function FileOf(r: Request): File {
    File(Clean(r.binary), Clean(r.config))
  }

  function KeyOf(f: File): string {
    f.binary + "::" + f.config
  }

  function CacheKey(r: Request): string {
    KeyOf(FileOf(r))
  }

  // ----- The atomic sections -----

  /** The state the lock guards; `E` is what is kept per key. */
  datatype Cache<E> = Cache(entries: map<string, E>, epoch: nat)

  function NextEpoch(epoch: nat): nat {
    (epoch + 1) % TWO_TO_THE_64
  }

  /** The cache without one key, in the next epoch. */
  function Forgotten<E>(c: Cache<E>, key: string): Cache<E> {
    Cache(c.entries - {key}, NextEpoch(c.epoch))
  }

  /** `InvalidateConfigCache(binary, config)`; two empty strings forget everything. */
  function Invalidated<E>(c: Cache<E>, r: Request): Cache<E> {
    if r.binary == "" && r.config == "" then Cache(map[], NextEpoch(c.epoch))
    else Forgotten(c, CacheKey(r))
  }

  /** The second locked section of `ParseConfigContext`: the parse is kept unless the epoch moved. */
  function Stored<E>(c: Cache<E>, key: string, e: E, epoch: nat): Cache<E> {
    if c.epoch == epoch then c.(entries := c.entries[key := e]) else c
  }

  /** Which keys an invalidation forgets. */
  ghost predicate Reaches(r: Request, key: string) {
    (r.binary == "" && r.config == "") || CacheKey(r) == key
  }

  ghost predicate Covers(r: Request, f: File) {
    Reaches(r, KeyOf(f))
  }

  // ----- The transition system -----

  /** A parse together with its provenance: the file it read and the version it found there. */
  datatype Entry = Entry(config: EffectiveConfig, file: File, version: nat)

  /** Where a call of `ParseConfigContext` is; `at` counts the invalidations there had been when it
      looked up. */
  datatype Call =
    | Forked(request: Request, epoch: nat, at: nat)
    | HasRead(request: Request, epoch: nat, at: nat, entry: Entry)
    | Returned(request: Request, result: Option<Entry>)

  /** `disk` holds every version of every file, newest last; `calls` the calls begun so far. */
  datatype World = World(
    cache: Cache<Entry>,
    invalidations: nat,
    disk: map<File, seq<EffectiveConfig>>,
    calls: map<nat, Call>)

  datatype Action =
    | Begin(call: nat, request: Request)
    | Read(call: nat)
    | Fail(call: nat)
    | Finish(call: nat)
    | Invalidate(request: Request)
    | Write(file: File, config: EffectiveConfig)

  function Versions(w: World, f: File): seq<EffectiveConfig> {
    if f in w.disk then w.disk[f] else []
  }

  ghost predicate Enabled(w: World, a: Action) {
    match a
    case Begin(call, _) => call !in w.calls
    case Read(call) =>
      call in w.calls && w.calls[call].Forked? && Versions(w, FileOf(w.calls[call].request)) != []
    case Fail(call) => call in w.calls && !w.calls[call].Returned?
    case Finish(call) => call in w.calls && w.calls[call].HasRead?
    case Invalidate(_) => true
    case Write(_, _) => true
  }

  ghost function Step(w: World, a: Action): World
    requires Enabled(w, a)
  {
    match a
    case Begin(call, r) =>
      var key := CacheKey(r);
      w.(calls := w.calls[call :=
        if !IsAbs(r.binary) then Returned(r, None)
        else if key in w.cache.entries then Returned(r, Some(w.cache.entries[key]))
        else Forked(r, w.cache.epoch, w.invalidations)])
    case Read(call) =>
      var c := w.calls[call];
      var versions := Versions(w, FileOf(c.request));
      var latest := |versions| - 1;
      w.(calls := w.calls[call :=
        HasRead(c.request, c.epoch, c.at, Entry(versions[latest], FileOf(c.request), latest))])
    case Fail(call) =>
      w.(calls := w.calls[call := Returned(w.calls[call].request, None)])
    case Finish(call) =>
      var c := w.calls[call];
      w.(cache := Stored(w.cache, CacheKey(c.request), c.entry, c.epoch),
         calls := w.calls[call := Returned(c.request, Some(c.entry))])
    case Invalidate(r) =>
      w.(cache := Invalidated(w.cache, r), invalidations := w.invalidations + 1)
    case Write(f, config) =>
      w.(disk := w.disk[f := Versions(w, f) + [config]])
  }

  // ----- What every step keeps -----

  ghost predicate Genuine(w: World, e: Entry) {
    e.version < |Versions(w, e.file)| && e.config == Versions(w, e.file)[e.version]
  }

  ghost predicate CallOk(w: World, c: Call) {
    match c
    case Forked(r, epoch, at) =>
      at <= w.invalidations && epoch == at % TWO_TO_THE_64
    case HasRead(r, epoch, at, e) =>
      at <= w.invalidations && epoch == at % TWO_TO_THE_64 && Genuine(w, e) && e.file == FileOf(r)
    case Returned(r, result) =>
      result.Some? ==> Genuine(w, result.value) && KeyOf(result.value.file) == CacheKey(r)
  }

  /** Everything cached or returned is some version of a file with the right key. */
  ghost predicate Inv(w: World) {
    && w.cache.epoch == w.invalidations % TWO_TO_THE_64
    && (forall key | key in w.cache.entries ::
          Genuine(w, w.cache.entries[key]) && KeyOf(w.cache.entries[key].file) == key)
    && (forall id | id in w.calls :: CallOk(w, w.calls[id]))
  }

  lemma InvHoldsInitially(disk: map<File, seq<EffectiveConfig>>)
    ensures Inv(World(Cache(map[], 0), 0, disk, map[]))
  {
  }

  lemma InvIsKept(w: World, a: Action)
    requires Inv(w) && Enabled(w, a)
    ensures Inv(Step(w, a))
  {
    var w' := Step(w, a);
    assert forall e: Entry :: Genuine(w, e) ==> Genuine(w', e);
    forall id | id in w'.calls
      ensures CallOk(w', w'.calls[id])
    {
      if id in w.calls {
        assert CallOk(w, w.calls[id]);
      }
    }
  }

  // ----- Freshness -----

  /** No fork is so slow that 2^64 invalidations pass under it. */
  ghost predicate EpochsAreFresh(w: World) {
    forall id | id in w.calls && !w.calls[id].Returned? :: w.invalidations - w.calls[id].at < TWO_TO_THE_64
  }

  /** A store happens exactly when the invalidations since the look-up are a multiple of 2^64. */
  lemma StoresIffEpochUnmoved(w: World, id: nat)
    requires Inv(w) && id in w.calls && w.calls[id].HasRead?
    ensures var c := w.calls[id];
            var key := CacheKey(c.request);
            && (w.cache.epoch == c.epoch <==> (w.invalidations - c.at) % TWO_TO_THE_64 == 0)
            && (EpochsAreFresh(w) ==> (w.cache.epoch == c.epoch <==> w.invalidations == c.at))
  {
    assert CallOk(w, w.calls[id]);
    SameEpoch(w.invalidations, w.calls[id].at);
  }

  lemma SameEpoch(now: nat, at: nat)
    requires at <= now
    ensures now % TWO_TO_THE_64 == at % TWO_TO_THE_64 <==> (now - at) % TWO_TO_THE_64 == 0
  {
  }

  /** Version `v` of `f` and everything before it is out of the system: it is on disk, no cached entry
      is older, no call that has begun since returns anything older, and the calls that had begun
      before (`early`) looked up under an epoch that has passed. */
  ghost predicate Settled(w: World, f: File, v: nat, early: set<nat>, passed: nat) {
    && v < |Versions(w, f)|
    && passed <= w.invalidations
    && (forall key | key in w.cache.entries && w.cache.entries[key].file == f :: w.cache.entries[key].version >= v)
    && (forall id | id in w.calls && id !in early && EntryOf(w.calls[id]).Some? && EntryOf(w.calls[id]).value.file == f ::
          EntryOf(w.calls[id]).value.version >= v)
    && (forall id | id in w.calls && id in early && !w.calls[id].Returned? :: w.calls[id].at < passed)
    && early <= w.calls.Keys
  }

  function EntryOf(c: Call): Option<Entry> {
    match c
    case Forked(_, _, _) => None
    case HasRead(_, _, _, e) => Some(e)
    case Returned(_, result) => result
  }

  lemma InvalidationSettles(w: World, r: Request, f: File, v: nat)
    requires Inv(w) && Covers(r, f)
    requires v < |Versions(w, f)|
    ensures Settled(Step(w, Invalidate(r)), f, v, w.calls.Keys, w.invalidations + 1)
  {
    forall id | id in w.calls
      ensures CallOk(w, w.calls[id])
    {
    }
  }

  lemma SettledIsKept(w: World, a: Action, f: File, v: nat, early: set<nat>, passed: nat)
    requires Inv(w) && EpochsAreFresh(w) && Enabled(w, a)
    requires Settled(w, f, v, early, passed)
    ensures Settled(Step(w, a), f, v, early, passed)
  {
    match a {
      case Begin(call, r) =>
        assert forall key | key in w.cache.entries :: KeyOf(w.cache.entries[key].file) == key;
      case Read(call) =>
      case Fail(call) =>
      case Finish(call) =>
        StoresIffEpochUnmoved(w, call);
        assert CallOk(w, w.calls[call]);
      case Invalidate(r) =>
      case Write(g, config) =>
    }
  }

  /** A run: states `ws` joined by actions `acts`. */
  ghost predicate Run(ws: seq<World>, acts: seq<Action>) {
    && |ws| == |acts| + 1
    && Inv(ws[0])
    && (forall i | 0 <= i < |acts| :: Enabled(ws[i], acts[i]) && ws[i + 1] == Step(ws[i], acts[i]))
    && (forall i | 0 <= i < |ws| :: EpochsAreFresh(ws[i]))
  }

  lemma RunStep(ws: seq<World>, acts: seq<Action>, i: nat)
    requires Run(ws, acts) && i < |acts|
    ensures Enabled(ws[i], acts[i]) && ws[i + 1] == Step(ws[i], acts[i]) && EpochsAreFresh(ws[i])
  {
  }

  lemma {:induction false} InvAlongRun(ws: seq<World>, acts: seq<Action>, n: nat)
    requires Run(ws, acts) && n < |ws|
    ensures Inv(ws[n])
  {
    if n > 0 {
      InvAlongRun(ws, acts, n - 1);
      RunStep(ws, acts, n - 1);
      InvIsKept(ws[n - 1], acts[n - 1]);
    }
  }

  lemma {:induction false} SettledAlongRun(
    ws: seq<World>, acts: seq<Action>, m: nat, n: nat, f: File, v: nat, early: set<nat>, passed: nat)
    requires Run(ws, acts) && m <= n < |ws|
    requires Settled(ws[m], f, v, early, passed)
    ensures Settled(ws[n], f, v, early, passed)
    decreases n - m
  {
    if m < n {
      SettledAlongRun(ws, acts, m, n - 1, f, v, early, passed);
      InvAlongRun(ws, acts, n - 1);
      RunStep(ws, acts, n - 1);
      SettledIsKept(ws[n - 1], acts[n - 1], f, v, early, passed);
    }
  }

  /** Freshness over every interleaving: once `f` has been written `v + 1` times and then invalidated,
      the cache never again holds an older version of it, and no call begun after the invalidation
      returns one. What a call does return is a version of a file with the key it asked for. */
  lemma InvalidationIsHonoured(ws: seq<World>, acts: seq<Action>, k: nat, n: nat, f: File, v: nat)
    requires Run(ws, acts) && k < n < |ws|
    requires acts[k].Invalidate? && Covers(acts[k].request, f)
    requires v < |Versions(ws[k], f)|
    ensures forall key | key in ws[n].cache.entries && ws[n].cache.entries[key].file == f ::
              ws[n].cache.entries[key].version >= v
    ensures forall id | id in ws[n].calls && id !in ws[k].calls ::
              var c := ws[n].calls[id];
              c.Returned? && c.result.Some? ==>
                && KeyOf(c.result.value.file) == CacheKey(c.request)
                && (c.result.value.file == f ==> c.result.value.version >= v)
                && Genuine(ws[n], c.result.value)
  {
    InvAlongRun(ws, acts, k);
    InvAlongRun(ws, acts, n);
    InvalidationSettles(ws[k], acts[k].request, f, v);
    SettledAlongRun(ws, acts, k + 1, n, f, v, ws[k].calls.Keys, ws[k].invalidations + 1);
    forall id | id in ws[n].calls && id !in ws[k].calls
      ensures CallOk(ws[n], ws[n].calls[id])
    {
    }
  }

  /** The user's view: write a configuration, invalidate it under any spelling of its paths, and every
      parse of that file begun afterwards returns what was written or something newer, provided no
      other file shares its key. */
  lemma WriteThenInvalidateIsSeen(
    ws: seq<World>, acts: seq<Action>, j: nat, k: nat, n: nat, id: nat, f: File)
    requires Run(ws, acts) && j < k < n < |ws|
    requires acts[j].Write? && acts[j].file == f
    requires acts[k].Invalidate? && Covers(acts[k].request, f)
    requires id !in ws[k].calls && id in ws[n].calls
    requires ws[n].calls[id].Returned? && ws[n].calls[id].result.Some?
    requires FileOf(ws[n].calls[id].request) == f
    requires forall g: File :: KeyOf(g) == KeyOf(f) && g in ws[n].disk ==> g == f
    ensures var e := ws[n].calls[id].result.value;
            e.file == f && e.version >= |Versions(ws[j], f)|
  {
    VersionsGrow(ws, acts, j + 1, k, f);
    InvalidationIsHonoured(ws, acts, k, n, f, |Versions(ws[j], f)|);
    InvAlongRun(ws, acts, n);
    assert CallOk(ws[n], ws[n].calls[id]);
  }

  lemma {:induction false} VersionsGrow(ws: seq<World>, acts: seq<Action>, m: nat, n: nat, f: File)
    requires Run(ws, acts) && m <= n < |ws|
    ensures Versions(ws[m], f) <= Versions(ws[n], f)
    decreases n - m
  {
    if m < n {
      VersionsGrow(ws, acts, m, n - 1, f);
    }
  }

  // ----- What is kept -----

  /** What a finished fork does to the cache: with no invalidation since its look-up its key now answers
      with what it read, after one nothing changes. */
  lemma FinishKeepsIffNotInvalidated(w: World, id: nat)
    requires Inv(w) && EpochsAreFresh(w) && id in w.calls && w.calls[id].HasRead?
    ensures var c, after := w.calls[id], Step(w, Finish(id)).cache.entries;
            if w.invalidations == c.at then after == w.cache.entries[CacheKey(c.request) := c.entry]
            else after == w.cache.entries
    ensures Step(w, Finish(id)).calls[id] == Returned(w.calls[id].request, Some(w.calls[id].entry))
  {
    StoresIffEpochUnmoved(w, id);
  }

  /** The call `id` is still under way, and looked up when there had been `at` invalidations. */
  predicate UnderWay(w: World, id: nat, r: Request, at: nat) {
    id in w.calls && !w.calls[id].Returned? ==> w.calls[id].request == r && w.calls[id].at == at
  }

  lemma StepKeepsUnderWay(w: World, a: Action, id: nat, r: Request, at: nat)
    requires Enabled(w, a) && id in w.calls && UnderWay(w, id, r, at)
    ensures id in Step(w, a).calls && UnderWay(Step(w, a), id, r, at)
    ensures Step(w, a).invalidations == w.invalidations + if a.Invalidate? then 1 else 0
  {
  }

  lemma OneStepUnderWay(ws: seq<World>, acts: seq<Action>, k: nat, id: nat, r: Request, at: nat)
    requires Run(ws, acts) && k < |acts| && id in ws[k].calls && UnderWay(ws[k], id, r, at)
    ensures id in ws[k + 1].calls && UnderWay(ws[k + 1], id, r, at)
    ensures ws[k + 1].invalidations == ws[k].invalidations + if acts[k].Invalidate? then 1 else 0
  {
    RunStep(ws, acts, k);
    StepKeepsUnderWay(ws[k], acts[k], id, r, at);
  }

  lemma {:induction false} StaysUnderWay(ws: seq<World>, acts: seq<Action>, j: nat, m: nat, id: nat, r: Request, at: nat)
    requires Run(ws, acts) && j <= m < |ws| && id in ws[j].calls && UnderWay(ws[j], id, r, at)
    requires forall k | j <= k < m :: !acts[k].Invalidate?
    ensures id in ws[m].calls && UnderWay(ws[m], id, r, at) && ws[m].invalidations == ws[j].invalidations
    decreases m - j
  {
    if j < m {
      StaysUnderWay(ws, acts, j, m - 1, id, r, at);
      OneStepUnderWay(ws, acts, m - 1, id, r, at);
    }
  }

  lemma CallBegins(ws: seq<World>, acts: seq<Action>, j: nat, id: nat, r: Request)
    requires Run(ws, acts) && j < |acts| && acts[j] == Begin(id, r)
    ensures id in ws[j + 1].calls && UnderWay(ws[j + 1], id, r, ws[j + 1].invalidations)
    ensures ws[j + 1].invalidations == ws[j].invalidations
  {
    RunStep(ws, acts, j);
  }

  /** A fork is not wasted: when a call begins at `j` and finishes at `m` with no invalidation in between,
      its parse is cached at once, and every call for that key begun later is answered without a fork
      until an invalidation reaches the key. */
  lemma ParseIsKept(ws: seq<World>, acts: seq<Action>, j: nat, m: nat, n: nat, id: nat, r: Request)
    requires Run(ws, acts) && j < m < n < |acts|
    requires acts[j] == Begin(id, r) && acts[m] == Finish(id)
    requires forall k | j <= k < m :: !acts[k].Invalidate?
    requires forall k | m < k < n && acts[k].Invalidate? :: !Reaches(acts[k].request, CacheKey(r))
    ensures ws[m].calls[id].HasRead?
    ensures CacheKey(r) in ws[m + 1].cache.entries && ws[m + 1].cache.entries[CacheKey(r)] == ws[m].calls[id].entry
    ensures acts[n].Begin? && CacheKey(acts[n].request) == CacheKey(r) && IsAbs(acts[n].request.binary) ==>
              && ws[n + 1].calls[acts[n].call].Returned?
              && ws[n + 1].calls[acts[n].call].result.Some?
  {
    CallBegins(ws, acts, j, id, r);
    StaysUnderWay(ws, acts, j + 1, m, id, r, ws[j + 1].invalidations);
    FinishIsKept(ws, acts, m, id);
    OnlyInvalidationForgets(ws, acts, m + 1, n, CacheKey(r));
  }

  lemma FinishIsKept(ws: seq<World>, acts: seq<Action>, m: nat, id: nat)
    requires Run(ws, acts) && m < |acts| && acts[m] == Finish(id)
    ensures id in ws[m].calls && ws[m].calls[id].HasRead?
    ensures ws[m].invalidations == ws[m].calls[id].at ==>
              ws[m + 1].cache.entries == ws[m].cache.entries[CacheKey(ws[m].calls[id].request) := ws[m].calls[id].entry]
  {
    InvAlongRun(ws, acts, m);
    RunStep(ws, acts, m);
    FinishKeepsIffNotInvalidated(ws[m], id);
  }

  /** A relative binary is refused before anything is looked up or forked. */
  lemma RelativeBinariesAreRefused(ws: seq<World>, acts: seq<Action>, n: nat)
    requires Run(ws, acts) && n < |acts| && acts[n].Begin? && !IsAbs(acts[n].request.binary)
    ensures ws[n + 1].calls[acts[n].call] == Returned(acts[n].request, None) && ws[n + 1].cache == ws[n].cache
  {
    RunStep(ws, acts, n);
  }

  lemma StepKeepsEntry(w: World, a: Action, key: string)
    requires Enabled(w, a) && key in w.cache.entries
    ensures key in Step(w, a).cache.entries <==> !(a.Invalidate? && Reaches(a.request, key))
    ensures !a.Finish? && key in Step(w, a).cache.entries ==> Step(w, a).cache.entries[key] == w.cache.entries[key]
  {
  }

  lemma {:induction false} EntryStays(ws: seq<World>, acts: seq<Action>, m: nat, n: nat, key: string)
    requires Run(ws, acts) && m <= n < |ws|
    requires key in ws[m].cache.entries
    requires forall k | m <= k < n && acts[k].Invalidate? :: !Reaches(acts[k].request, key)
    ensures key in ws[n].cache.entries
    decreases n - m
  {
    if m < n {
      EntryStays(ws, acts, m, n - 1, key);
      EntryStaysOneStep(ws, acts, n - 1, key);
    }
  }

  lemma EntryStaysOneStep(ws: seq<World>, acts: seq<Action>, k: nat, key: string)
    requires Run(ws, acts) && k < |acts|
    requires key in ws[k].cache.entries && (acts[k].Invalidate? ==> !Reaches(acts[k].request, key))
    ensures key in ws[k + 1].cache.entries
  {
    RunStep(ws, acts, k);
    StepKeepsEntry(ws[k], acts[k], key);
  }

  /** An invalidation forgets no more than it should: once something is cached under a key, calls for it
      need no fork until an invalidation reaches that key. */
  lemma OnlyInvalidationForgets(ws: seq<World>, acts: seq<Action>, m: nat, n: nat, key: string)
    requires Run(ws, acts) && m <= n < |acts|
    requires key in ws[m].cache.entries
    requires forall k | m <= k < n && acts[k].Invalidate? :: !Reaches(acts[k].request, key)
    ensures key in ws[n].cache.entries
    ensures acts[n].Begin? && CacheKey(acts[n].request) == key && IsAbs(acts[n].request.binary) ==>
              ws[n + 1].calls[acts[n].call] == Returned(acts[n].request, Some(ws[n].cache.entries[key]))
  {
    EntryStays(ws, acts, m, n, key);
    RunStep(ws, acts, n);
  }

  // ----- Which files share a key -----

  predicate IsClean(p: string) {
    Clean(p) == p
  }

  /** Another reading of the key: a different place to split it into two clean paths. */
  ghost predicate SplitsElsewhere(f: File, i: int) {
    && OccursAt(KeyOf(f), "::", i) && i != |f.binary|
    && IsClean(KeyOf(f)[..i]) && IsClean(KeyOf(f)[i + 2..])
  }

  /** A file's key is its own exactly when the key cannot be split elsewhere into two clean paths. */
  lemma KeyIsUniqueIff(f: File)
    requires IsClean(f.binary) && IsClean(f.config)
    ensures (forall r: Request :: CacheKey(r) == KeyOf(f) ==> FileOf(r) == f)
       <==> (forall i :: !SplitsElsewhere(f, i))
  {
    if i :| SplitsElsewhere(f, i) {
      SplitMakesRequest(f, i);
    }
    if r: Request :| CacheKey(r) == KeyOf(f) && FileOf(r) != f {
      RequestMakesSplit(f, r);
    }
  }

  lemma SplitMakesRequest(f: File, i: int)
    requires SplitsElsewhere(f, i)
    ensures var r := Request(KeyOf(f)[..i], KeyOf(f)[i + 2..]); CacheKey(r) == KeyOf(f) && FileOf(r) != f
  {
    var key := KeyOf(f);
    assert key == key[..i] + key[i..i + 2] + key[i + 2..];
    assert |key[..i]| != |f.binary|;
  }

  lemma RequestMakesSplit(f: File, r: Request)
    requires CacheKey(r) == KeyOf(f) && FileOf(r) != f
    ensures SplitsElsewhere(f, |Clean(r.binary)|)
  {
    OtherSplit(f, FileOf(r));
    CleanIdempotent(r.binary);
    CleanIdempotent(r.config);
  }

  lemma OtherSplit(f: File, g: File)
    requires KeyOf(g) == KeyOf(f) && g != f
    ensures |g.binary| != |f.binary|
    ensures OccursAt(KeyOf(f), "::", |g.binary|)
    ensures KeyOf(f)[..|g.binary|] == g.binary && KeyOf(f)[|g.binary| + 2..] == g.config
  {
    var key := KeyOf(f);
    assert key[..|f.binary|] == f.binary && key[|f.binary| + 2..] == f.config;
    assert KeyOf(g)[..|g.binary|] == g.binary && KeyOf(g)[|g.binary| + 2..] == g.config;
    assert KeyOf(g)[|g.binary|..|g.binary| + 2] == "::";
  }

  lemma ColonInside(f: File, g: File)
    requires KeyOf(f) == KeyOf(g) && |f.binary| < |g.binary|
    ensures g.binary[|f.binary|] == ':'
  {
    assert KeyOf(g)[|f.binary|] == g.binary[|f.binary|];
    assert KeyOf(f)[|f.binary|] == "::"[0];
  }

  /** Binaries without a colon in their paths never share a key. */
  lemma ColonFreeBinariesAreSafe(f: File, g: File)
    requires ':' !in f.binary && ':' !in g.binary
    requires KeyOf(f) == KeyOf(g)
    ensures f == g
  {
    if |f.binary| < |g.binary| {
      ColonInside(f, g);
    } else if |g.binary| < |f.binary| {
      ColonInside(g, f);
    } else {
      assert KeyOf(f)[..|f.binary|] == f.binary && KeyOf(g)[..|f.binary|] == g.binary;
      assert KeyOf(f)[|f.binary| + 2..] == f.config && KeyOf(g)[|f.binary| + 2..] == g.config;
    }
  }

  predicate PathName(s: string) {
    s != "" && s != "." && s != ".." && '/' !in s
  }

  lemma NameIsClean(rooted: bool, name: string)
    requires PathName(name)
    ensures IsClean(if rooted then "/" + name else name)
  {
    ComponentsOfRender(rooted, [name]);
  }

  lemma JoinedIsName(a: string, b: string)
    requires PathName(a) && PathName(b)
    ensures PathName(a + "::" + b)
  {
    assert |a + "::" + b| > 2;
  }

  /** With a double colon in a path, two different files can share a key: `/a` with `b::c`, and
      `/a::b` with `c`. */
  lemma DoubleColonsCollide(a: string, b: string, c: string)
    requires PathName(a) && PathName(b) && PathName(c)
    ensures var r, s := Request("/" + a, b + "::" + c), Request("/" + (a + "::" + b), c);
            CacheKey(r) == CacheKey(s) && FileOf(r) != FileOf(s)
  {
    JoinedIsName(a, b);
    JoinedIsName(b, c);
    NameIsClean(true, a);
    NameIsClean(true, a + "::" + b);
    NameIsClean(false, b + "::" + c);
    NameIsClean(false, c);
    CleanRequestsCollide("/" + a, b + "::" + c, "/" + (a + "::" + b), c);
  }

  lemma CleanRequestsCollide(binary: string, config: string, binary': string, config': string)
    requires IsClean(binary) && IsClean(config) && IsClean(binary') && IsClean(config')
    requires binary + "::" + config == binary' + "::" + config' && |config| != |config'|
    ensures CacheKey(Request(binary, config)) == CacheKey(Request(binary', config'))
    ensures FileOf(Request(binary, config)) != FileOf(Request(binary', config'))
  {
  }

  /** Spelling does not matter: an invalidation reaches a file under any path that cleans to it. */
  lemma SpellingIsIrrelevant(r: Request, s: Request)
    requires Clean(r.binary) == Clean(s.binary) && Clean(r.config) == Clean(s.config)
    ensures CacheKey(r) == CacheKey(s)
    ensures CacheKey(Request(Clean(r.binary), Clean(r.config))) == CacheKey(r)
  {
    CleanIdempotent(r.binary);
    CleanIdempotent(r.config);
  }
}
