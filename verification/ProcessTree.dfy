/** Process-tree accounting (rss.go): the snapshot of the process table, the bounded depth-first walk
    that prices a worker with everything it spawned, and the enrichment of a pool's workers. */
module ProcessTree {
  import opened Sums
  import opened Wrappers
  import opened Machine
  import opened Pools

  /** One row of the process table: `parent` is None when the parent could not be read, and `rss` is
      the memory every read of this process reports (0 when it cannot be read). */
  datatype Row = Row(pid: int, parent: Option<int>, rss: nat)

  datatype Snapshot = Snapshot(children: map<int, seq<int>>, byPID: map<int, nat>) {

    function Kids(pid: int): seq<int> {
      if pid in children then children[pid] else []
    }

    function RssOf(pid: int): nat {
      if pid in byPID then byPID[pid] else 0
    }
  }

  const MAX_DEPTH := 64

  // ----- Building the snapshot -----

  ghost predicate DistinctPids(all: seq<Row>) {
    forall i, j | 0 <= i < j < |all| :: all[i].pid != all[j].pid
  }

  /** The parent relation a table states. */
  ghost function Parents(all: seq<Row>): map<int, int> {
    if all == [] then map[]
    else
      var row := all[|all| - 1];
      var before := Parents(all[..|all| - 1]);
      if row.parent.Some? then before[row.pid := row.parent.value] else before
  }

  /** `snap` is the tree of `parent`: every process appears in the child list of its parent, once,
      and nowhere else. */
  ghost predicate TreeOf(snap: Snapshot, parent: map<int, int>) {
    && (forall q, c :: c in snap.Kids(q) <==> c in parent && parent[c] == q)
    && (forall q :: NoRepeats(snap.Kids(q)))
    && parent.Keys <= snap.byPID.Keys
  }

  ghost predicate NoRepeats(kids: seq<int>) {
    forall i, j | 0 <= i < j < |kids| :: kids[i] != kids[j]
  }

  lemma {:induction false} ParentsAreRows(all: seq<Row>, c: int)
    requires c in Parents(all)
    ensures exists i | 0 <= i < |all| :: all[i].pid == c
  {
    var row := all[|all| - 1];
    if c == row.pid {
      assert all[|all| - 1].pid == c;
    } else {
      ParentsAreRows(all[..|all| - 1], c);
      var i :| 0 <= i < |all| - 1 && all[..|all| - 1][i].pid == c;
      assert all[i].pid == c;
    }
  }

  lemma FreshRowHasNoParent(all: seq<Row>, n: nat)
    requires DistinctPids(all) && n < |all|
    ensures all[n].pid !in Parents(all[..n])
  {
    if all[n].pid in Parents(all[..n]) {
      ParentsAreRows(all[..n], all[n].pid);
    }
  }

  /** Some row gives `q` as the parent of `c`. */
  ghost predicate HasRow(all: seq<Row>, c: int, q: int) {
    exists i | 0 <= i < |all| :: all[i].pid == c && all[i].parent == Some(q)
  }

  /** `snap` says exactly what the rows say: who is whose child, who is there, and with how much memory. */
  ghost predicate Built(snap: Snapshot, all: seq<Row>) {
    && (forall q, c :: c in snap.Kids(q) <==> HasRow(all, c, q))
    && (forall q :: NoRepeats(snap.Kids(q)))
    && (forall p :: p in snap.byPID <==> exists i | 0 <= i < |all| :: all[i].pid == p)
    && (forall i | 0 <= i < |all| :: snap.RssOf(all[i].pid) == all[i].rss)
  }

  /** The parent relation has exactly the rows that state a parent. */
  lemma {:induction false} ParentsMeanRows(all: seq<Row>, c: int, q: int)
    requires DistinctPids(all)
    ensures c in Parents(all) && Parents(all)[c] == q <==> HasRow(all, c, q)
  {
    if all != [] {
      var front, n := all[..|all| - 1], |all| - 1;
      ParentsMeanRows(front, c, q);
      if i :| 0 <= i < |all| && all[i].pid == c && all[i].parent == Some(q) {
        assert i < n ==> front[i].pid == c;
      }
      if i :| 0 <= i < n && front[i].pid == c && front[i].parent == Some(q) {
        assert all[i].pid == c && all[i].parent == Some(q);
      }
      assert all[n].pid == c && all[n].parent == Some(q) ==> HasRow(all, c, q);
      FreshRowHasNoParent(all, n);
    }
  }

  lemma TreeIsBuilt(snap: Snapshot, all: seq<Row>)
    requires DistinctPids(all) && TreeOf(snap, Parents(all))
    ensures forall q, c :: c in snap.Kids(q) <==> HasRow(all, c, q)
    ensures forall q :: NoRepeats(snap.Kids(q))
  {
    forall q, c
      ensures c in snap.Kids(q) <==> HasRow(all, c, q)
    {
      ParentsMeanRows(all, c, q);
    }
  }

  lemma BuiltIsTree(snap: Snapshot, all: seq<Row>)
    requires DistinctPids(all) && Built(snap, all)
    ensures TreeOf(snap, Parents(all))
  {
    forall q, c
      ensures c in snap.Kids(q) <==> c in Parents(all) && Parents(all)[c] == q
    {
      ParentsMeanRows(all, c, q);
    }
    forall c | c in Parents(all)
      ensures c in snap.byPID
    {
      ParentsAreRows(all, c);
    }
  }

  method SnapshotProcesses(all: seq<Row>) returns (snap: Snapshot)
    ensures forall p :: p in snap.byPID <==> exists i | 0 <= i < |all| :: all[i].pid == p
    ensures DistinctPids(all) ==> forall i | 0 <= i < |all| :: snap.RssOf(all[i].pid) == all[i].rss
    ensures DistinctPids(all) ==> TreeOf(snap, Parents(all))
    ensures DistinctPids(all) ==> Built(snap, all)
  {
    var children: map<int, seq<int>>, byPID: map<int, nat> := map[], map[];
    ghost var soFar: Snapshot := Snapshot(map[], map[]);
    for n := 0 to |all|
      invariant soFar == Snapshot(children, byPID)
      invariant forall p :: p in byPID <==> exists i | 0 <= i < n :: all[i].pid == p
      invariant DistinctPids(all) ==> forall i | 0 <= i < n :: soFar.RssOf(all[i].pid) == all[i].rss
      invariant DistinctPids(all) ==> TreeOf(soFar, Parents(all[..n]))
    {
      var row := all[n];
      ghost var before := soFar;
      assert all[..n + 1][..n] == all[..n];
      byPID := byPID[row.pid := row.rss];
      if row.parent.Some? {
        var q := row.parent.value;
        children := children[q := (if q in children then children[q] else []) + [row.pid]];
      }
      soFar := Snapshot(children, byPID);
      if DistinctPids(all) {
        FreshRowHasNoParent(all, n);
        TreeGrows(before, Parents(all[..n]), row, soFar);
      }
    }
    assert all[..|all|] == all;
    snap := Snapshot(children, byPID);
    if DistinctPids(all) {
      TreeIsBuilt(snap, all);
    }
  }

  lemma TreeGrows(before: Snapshot, parent: map<int, int>, row: Row, after: Snapshot)
    requires TreeOf(before, parent)
    requires row.pid !in parent
    requires after.byPID == before.byPID[row.pid := row.rss]
    requires row.parent.None? ==> after.children == before.children
    requires row.parent.Some? ==>
      after.children == before.children[row.parent.value := before.Kids(row.parent.value) + [row.pid]]
    ensures TreeOf(after, if row.parent.Some? then parent[row.pid := row.parent.value] else parent)
  {
    if row.parent.Some? {
      var q0 := row.parent.value;
      assert row.pid !in before.Kids(q0);
      forall q
        ensures after.Kids(q) == if q == q0 then before.Kids(q) + [row.pid] else before.Kids(q)
        ensures NoRepeats(after.Kids(q))
      {
        assert NoRepeats(before.Kids(q));
      }
    } else {
      forall q
        ensures after.Kids(q) == before.Kids(q)
        ensures NoRepeats(after.Kids(q))
      {
        assert NoRepeats(before.Kids(q));
      }
    }
  }

  // ----- The walk -----

  /** What one walk leaves behind: the memory it counted, the processes it has seen, and how many
      calls it took. */
  datatype Visit = Visit(total: nat, seen: set<int>, calls: nat)

  function Remaining(depth: nat): nat {
    if depth > MAX_DEPTH then 0 else MAX_DEPTH + 1 - depth
  }

  function Walk(snap: Snapshot, pid: int, seen: set<int>, depth: nat): Visit
    decreases Remaining(depth), 0
  {
    if pid in seen || depth > MAX_DEPTH then Visit(0, seen, 1)
    else
      var below := WalkAll(snap, snap.Kids(pid), seen + {pid}, depth + 1);
      Visit(snap.RssOf(pid) + below.total, below.seen, 1 + below.calls)
  }

  function WalkAll(snap: Snapshot, kids: seq<int>, seen: set<int>, depth: nat): Visit
    decreases Remaining(depth), 1 + |kids|
  {
    if kids == [] then Visit(0, seen, 0)
    else
      var first := Walk(snap, kids[0], seen, depth);
      var rest := WalkAll(snap, kids[1..], first.seen, depth);
      Visit(first.total + rest.total, rest.seen, first.calls + rest.calls)
  }

  /** The `seen` map the recursion shares. */
  class SeenSet {
    var pids: set<int>

    constructor ()
      ensures pids == {}
    {
      pids := {};
    }
  }

  method SubtreeRSSBounded(snap: Snapshot, pid: int, seen: SeenSet, depth: nat) returns (total: nat)
    modifies seen
    ensures total == Walk(snap, pid, old(seen.pids), depth).total
    ensures seen.pids == Walk(snap, pid, old(seen.pids), depth).seen
    decreases Remaining(depth)
  {
    if pid in seen.pids || depth > MAX_DEPTH {
      return 0;
    }
    ghost var all := Walk(snap, pid, seen.pids, depth);
    seen.pids := seen.pids + {pid};
    total := snap.RssOf(pid);
    var kids := snap.Kids(pid);
    for i := 0 to |kids|
      invariant var rest := WalkAll(snap, kids[i..], seen.pids, depth + 1);
        all.total == total + rest.total && all.seen == rest.seen
    {
      assert kids[i..][1..] == kids[i + 1..];
      var t := SubtreeRSSBounded(snap, kids[i], seen, depth + 1);
      total := total + t;
    }
  }

  method SubtreeRSS(snap: Snapshot, pid: int) returns (total: nat)
    ensures total == Walk(snap, pid, {}, 0).total
    ensures forall parent | TreeOf(snap, parent) :: total == Sum(snap.RssOf, Subtree(parent, pid))
  {
    var seen := new SeenSet();
    total := SubtreeRSSBounded(snap, pid, seen, 0);
    forall parent | TreeOf(snap, parent)
      ensures total == Sum(snap.RssOf, Subtree(parent, pid))
    {
      SubtreeSumIsExact(snap, parent, pid);
    }
  }

  // ----- What the walk computes -----

  /** How many steps up the parent chain of `p` first reaches `r`, if at most `fuel` do. */
  function Level(parent: map<int, int>, r: int, p: int, fuel: nat): Option<nat>
    decreases fuel
  {
    if p == r then Some(0)
    else if fuel == 0 || p !in parent then None
    else
      var above := Level(parent, r, parent[p], fuel - 1);
      if above.Some? then Some(above.value + 1) else None
  }

  /** `r` and every process whose parent chain first reaches `r` in at most 64 steps. */
  function Subtree(parent: map<int, int>, r: int): set<int> {
    set p | p in parent.Keys + {r} && Level(parent, r, p, MAX_DEPTH).Some?
  }

  /** The ancestor `k` steps up. */
  function Up(parent: map<int, int>, p: int, k: nat): Option<int>
    decreases k
  {
    if k == 0 then Some(p)
    else if p !in parent then None
    else Up(parent, parent[p], k - 1)
  }

  lemma {:induction false} LevelIsFirst(parent: map<int, int>, r: int, p: int, fuel: nat)
    requires Level(parent, r, p, fuel).Some?
    ensures Level(parent, r, p, fuel).value <= fuel
    ensures Up(parent, p, Level(parent, r, p, fuel).value) == Some(r)
    ensures forall j: nat | j < Level(parent, r, p, fuel).value :: Up(parent, p, j).Some? && Up(parent, p, j) != Some(r)
    decreases fuel
  {
    if p != r {
      LevelIsFirst(parent, r, parent[p], fuel - 1);
      forall j: nat | j < Level(parent, r, p, fuel).value
        ensures Up(parent, p, j).Some? && Up(parent, p, j) != Some(r)
      {
        if j > 0 {
          assert Up(parent, p, j) == Up(parent, parent[p], j - 1);
        }
      }
    }
  }

  lemma {:induction false} LevelFuel(parent: map<int, int>, r: int, p: int, fuel: nat, more: nat)
    requires Level(parent, r, p, fuel).Some? && Level(parent, r, p, fuel).value <= more
    ensures Level(parent, r, p, more) == Level(parent, r, p, fuel)
    decreases fuel
  {
    if p != r {
      LevelFuel(parent, r, parent[p], fuel - 1, more - 1);
    }
  }

  lemma {:induction false} UpStep(parent: map<int, int>, p: int, k: nat)
    ensures Up(parent, p, k).Some? && Up(parent, p, k).value in parent ==>
              Up(parent, p, k + 1) == Some(parent[Up(parent, p, k).value])
    ensures Up(parent, p, k + 1).Some? ==>
              Up(parent, p, k).Some? && Up(parent, p, k).value in parent
    decreases k
  {
    if k > 0 && p in parent {
      UpStep(parent, parent[p], k - 1);
    }
  }

  lemma {:induction false} UpAdd(parent: map<int, int>, p: int, j: nat, k: nat)
    requires Up(parent, p, j).Some?
    ensures Up(parent, p, j + k) == Up(parent, Up(parent, p, j).value, k)
    decreases j
  {
    if j > 0 {
      UpAdd(parent, parent[p], j - 1, k);
    }
  }

  /** The ancestor of `p` that sits `d` levels below the root `r`. */
  function AncestorAt(parent: map<int, int>, r: int, p: int, d: nat): Option<int> {
    var level := Level(parent, r, p, MAX_DEPTH);
    if level.Some? && d <= level.value then Up(parent, p, level.value - d) else None
  }

  lemma AncestorSteps(parent: map<int, int>, r: int, p: int, d: nat)
    ensures AncestorAt(parent, r, p, d + 1).Some? ==>
              var c := AncestorAt(parent, r, p, d + 1).value;
              c in parent && AncestorAt(parent, r, p, d) == Some(parent[c])
    ensures AncestorAt(parent, r, p, d).Some? ==>
              || AncestorAt(parent, r, p, d) == Some(p)
              || AncestorAt(parent, r, p, d + 1).Some?
    ensures d > 0 ==> AncestorAt(parent, r, p, d) != Some(r)
    ensures d > MAX_DEPTH ==> AncestorAt(parent, r, p, d).None?
  {
    var level := Level(parent, r, p, MAX_DEPTH);
    if level.Some? {
      LevelIsFirst(parent, r, p, MAX_DEPTH);
      if d < level.value {
        UpStep(parent, p, level.value - d - 1);
      }
    }
  }

  /** The processes of the subtree of `r` whose ancestor at level `d` is one of `tops`. */
  function Under(parent: map<int, int>, r: int, tops: set<int>, d: nat): set<int> {
    set p | p in Subtree(parent, r) && IsIn(AncestorAt(parent, r, p, d), tops)
  }

  predicate IsIn(x: Option<int>, s: set<int>) {
    x.Some? && x.value in s
  }

  function Elements(kids: seq<int>): set<int> {
    set c | c in kids
  }

  /** A child of `x`, other than the root again, is one level further down, or past the cut. */
  lemma ChildLevel(parent: map<int, int>, r: int, x: int, c: int)
    requires Level(parent, r, x, MAX_DEPTH).Some?
    requires c in parent && parent[c] == x && c != r
    ensures var d := Level(parent, r, x, MAX_DEPTH).value;
            Level(parent, r, c, MAX_DEPTH) == if d < MAX_DEPTH then Some(d + 1) else None
  {
    var d := Level(parent, r, x, MAX_DEPTH).value;
    LevelIsFirst(parent, r, x, MAX_DEPTH);
    var shorter: nat := MAX_DEPTH - 1;
    if d <= shorter {
      LevelFuel(parent, r, x, MAX_DEPTH, shorter);
    } else {
      LevelAboveFuel(parent, r, x, MAX_DEPTH, shorter);
    }
  }

  lemma {:induction false} LevelAboveFuel(parent: map<int, int>, r: int, p: int, fuel: nat, less: nat)
    requires Level(parent, r, p, fuel).Some? && Level(parent, r, p, fuel).value > less
    ensures Level(parent, r, p, less).None?
    decreases less
  {
    if less > 0 {
      LevelAboveFuel(parent, r, parent[p], fuel - 1, less - 1);
    }
  }

  /** Going down from `x` to its children loses `x` itself and nothing else. */
  lemma UnderSplits(snap: Snapshot, parent: map<int, int>, r: int, x: int, d: nat)
    requires TreeOf(snap, parent)
    requires Level(parent, r, x, MAX_DEPTH) == Some(d)
    ensures Under(parent, r, {x}, d) == {x} + Under(parent, r, Elements(snap.Kids(x)), d + 1)
    ensures x !in Under(parent, r, Elements(snap.Kids(x)), d + 1)
    ensures Sum(snap.RssOf, Under(parent, r, {x}, d))
         == snap.RssOf(x) + Sum(snap.RssOf, Under(parent, r, Elements(snap.Kids(x)), d + 1))
  {
    assert x in Subtree(parent, r);
    forall p | p in Subtree(parent, r)
      ensures p in Under(parent, r, {x}, d) <==> p == x || p in Under(parent, r, Elements(snap.Kids(x)), d + 1)
    {
      AncestorSteps(parent, r, p, d);
    }
    SumInsert(snap.RssOf, Under(parent, r, Elements(snap.Kids(x)), d + 1), x);
  }

  lemma UnderUnion(parent: map<int, int>, r: int, s: set<int>, t: set<int>, d: nat)
    requires s !! t
    ensures Under(parent, r, s + t, d) == Under(parent, r, s, d) + Under(parent, r, t, d)
    ensures Under(parent, r, s, d) !! Under(parent, r, t, d)
  {
  }

  /** Coming back round to the root, or going past the cut, finds nothing new. */
  lemma NothingUnder(parent: map<int, int>, r: int, c: int, d: nat)
    requires d > 0
    requires c == r || d > MAX_DEPTH
    ensures Under(parent, r, {c}, d) == {}
  {
    forall p | p in Subtree(parent, r)
      ensures p !in Under(parent, r, {c}, d)
    {
      AncestorSteps(parent, r, p, d);
    }
  }

  lemma FirstKidSplits(snap: Snapshot, parent: map<int, int>, r: int, kids: seq<int>, d: nat)
    requires kids != [] && NoRepeats(kids)
    ensures var all, mine := Under(parent, r, Elements(kids), d), Under(parent, r, {kids[0]}, d);
            var theirs := Under(parent, r, Elements(kids[1..]), d);
            && all == mine + theirs && mine !! theirs
            && Sum(snap.RssOf, all) == Sum(snap.RssOf, mine) + Sum(snap.RssOf, theirs)
  {
    var c, others := kids[0], Elements(kids[1..]);
    assert Elements(kids) == {c} + others;
    UnderUnion(parent, r, {c}, others, d);
    SumUnion(snap.RssOf, Under(parent, r, {c}, d), Under(parent, r, others, d));
  }

  lemma WalkGoesIn(snap: Snapshot, x: int, seen: set<int>, d: nat)
    requires x !in seen && d <= MAX_DEPTH
    ensures var v, below := Walk(snap, x, seen, d), WalkAll(snap, snap.Kids(x), seen + {x}, d + 1);
            v.seen == below.seen && v.total == snap.RssOf(x) + below.total
  {
  }

  /** What is left below `x` once it is counted. */
  lemma KidsAreLeft(snap: Snapshot, parent: map<int, int>, r: int, x: int, seen: set<int>, d: nat)
    requires TreeOf(snap, parent)
    requires Level(parent, r, x, MAX_DEPTH) == Some(d)
    requires Under(parent, r, {x}, d) !! seen
    ensures var kids := snap.Kids(x);
            var below := Under(parent, r, Elements(kids), d + 1);
            && d <= MAX_DEPTH && NoRepeats(kids) && (forall c | c in kids :: c in parent && parent[c] == x)
            && x !in seen && below !! seen + {x}
            && seen + Under(parent, r, {x}, d) == seen + {x} + below
            && Sum(snap.RssOf, Under(parent, r, {x}, d)) == snap.RssOf(x) + Sum(snap.RssOf, below)
  {
    LevelIsFirst(parent, r, x, MAX_DEPTH);
    UnderSplits(snap, parent, r, x, d);
    KidsOf(snap, parent, x);
    OneOut(Under(parent, r, {x}, d), Under(parent, r, Elements(snap.Kids(x)), d + 1), seen, x);
  }

  lemma KidsOf(snap: Snapshot, parent: map<int, int>, x: int)
    requires TreeOf(snap, parent)
    ensures NoRepeats(snap.Kids(x)) && (forall c | c in snap.Kids(x) :: c in parent && parent[c] == x)
  {
  }

  lemma OneOut(all: set<int>, below: set<int>, seen: set<int>, x: int)
    requires all == {x} + below && x !in below && all !! seen
    ensures x !in seen && below !! seen + {x} && seen + all == seen + {x} + below
  {
  }

  lemma {:induction false} WalkExact(snap: Snapshot, parent: map<int, int>, r: int, x: int, seen: set<int>, d: nat)
    requires TreeOf(snap, parent)
    requires Level(parent, r, x, MAX_DEPTH) == Some(d)
    requires x == r || r in seen
    requires Under(parent, r, {x}, d) !! seen
    ensures Walk(snap, x, seen, d).seen == seen + Under(parent, r, {x}, d)
    ensures Walk(snap, x, seen, d).total == Sum(snap.RssOf, Under(parent, r, {x}, d))
    decreases Remaining(d), 0
  {
    KidsAreLeft(snap, parent, r, x, seen, d);
    WalkAllExact(snap, parent, r, x, snap.Kids(x), seen + {x}, d);
    WalkGoesIn(snap, x, seen, d);
  }

  lemma {:induction false} WalkAllExact(
    snap: Snapshot, parent: map<int, int>, r: int, x: int, kids: seq<int>, seen: set<int>, d: nat)
    requires TreeOf(snap, parent)
    requires Level(parent, r, x, MAX_DEPTH) == Some(d) && d <= MAX_DEPTH
    requires forall c | c in kids :: c in parent && parent[c] == x
    requires NoRepeats(kids)
    requires r in seen
    requires Under(parent, r, Elements(kids), d + 1) !! seen
    ensures WalkAll(snap, kids, seen, d + 1).seen == seen + Under(parent, r, Elements(kids), d + 1)
    ensures WalkAll(snap, kids, seen, d + 1).total == Sum(snap.RssOf, Under(parent, r, Elements(kids), d + 1))
    decreases Remaining(d + 1), 1 + |kids|
  {
    if kids == [] {
      assert Under(parent, r, Elements(kids), d + 1) == {};
    } else {
      var mine := Under(parent, r, {kids[0]}, d + 1);
      FirstKidSplits(snap, parent, r, kids, d + 1);
      OneChildExact(snap, parent, r, x, kids[0], seen, d);
      WalkAllExact(snap, parent, r, x, kids[1..], seen + mine, d);
    }
  }

  lemma {:induction false} OneChildExact(
    snap: Snapshot, parent: map<int, int>, r: int, x: int, c: int, seen: set<int>, d: nat)
    requires TreeOf(snap, parent)
    requires Level(parent, r, x, MAX_DEPTH) == Some(d) && d <= MAX_DEPTH
    requires c in parent && parent[c] == x
    requires r in seen
    requires Under(parent, r, {c}, d + 1) !! seen
    ensures Walk(snap, c, seen, d + 1).seen == seen + Under(parent, r, {c}, d + 1)
    ensures Walk(snap, c, seen, d + 1).total == Sum(snap.RssOf, Under(parent, r, {c}, d + 1))
    decreases Remaining(d + 1), 1
  {
    if c == r || d == MAX_DEPTH {
      NothingUnder(parent, r, c, d + 1);
    } else {
      ChildLevel(parent, r, x, c);
      WalkExact(snap, parent, r, c, seen, d + 1);
    }
  }

  /** The walk counts the root and every process whose parent chain first reaches it in at most 64
      steps, each exactly once, whatever cycles the table presents. */
  lemma SubtreeSumIsExact(snap: Snapshot, parent: map<int, int>, r: int)
    requires TreeOf(snap, parent)
    ensures Walk(snap, r, {}, 0).seen == Subtree(parent, r)
    ensures Walk(snap, r, {}, 0).total == Sum(snap.RssOf, Subtree(parent, r))
  {
    var all := Under(parent, r, {r}, 0);
    forall p | p in Subtree(parent, r)
      ensures p in all
    {
      LevelIsFirst(parent, r, p, MAX_DEPTH);
    }
    assert all == Subtree(parent, r);
    WalkExact(snap, parent, r, r, {}, 0);
  }

  // ----- Read off the table -----

  /** A line of descent stated by the rows, from a process up to `r` and no further. */
  ghost predicate Descent(all: seq<Row>, chain: seq<int>, r: int) {
    && chain != [] && chain[|chain| - 1] == r
    && (forall i | 0 <= i < |chain| - 1 :: chain[i] != r && HasRow(all, chain[i], chain[i + 1]))
  }

  /** `p` is `r`, or its parents lead to `r` in at most 64 steps. */
  ghost predicate Descends(all: seq<Row>, r: int, p: int) {
    exists chain: seq<int> :: Descent(all, chain, r) && chain[0] == p && |chain| <= 64 + 1
  }

  lemma {:induction false} LevelGivesDescent(all: seq<Row>, r: int, p: int, fuel: nat) returns (chain: seq<int>)
    requires DistinctPids(all) && Level(Parents(all), r, p, fuel).Some?
    ensures Descent(all, chain, r) && chain[0] == p && |chain| <= fuel + 1
    decreases fuel
  {
    if p == r {
      chain := [p];
    } else {
      var q := Parents(all)[p];
      ParentsMeanRows(all, p, q);
      var above := LevelGivesDescent(all, r, q, fuel - 1);
      chain := [p] + above;
      forall i | 0 <= i < |chain| - 1
        ensures chain[i] != r && HasRow(all, chain[i], chain[i + 1])
      {
        if i > 0 {
          assert chain[i] == above[i - 1] && chain[i + 1] == above[i];
        }
      }
    }
  }

  lemma {:induction false} DescentGivesLevel(all: seq<Row>, chain: seq<int>, r: int, fuel: nat)
    requires DistinctPids(all) && Descent(all, chain, r) && |chain| <= fuel + 1
    ensures Level(Parents(all), r, chain[0], fuel).Some?
    decreases fuel
  {
    if chain[0] != r {
      var above := chain[1..];
      ParentsMeanRows(all, chain[0], chain[1]);
      assert HasRow(all, chain[0], chain[0 + 1]);
      forall i | 0 <= i < |above| - 1
        ensures above[i] != r && HasRow(all, above[i], above[i + 1])
      {
        assert above[i] == chain[i + 1] && above[i + 1] == chain[i + 1 + 1];
      }
      DescentGivesLevel(all, above, r, fuel - 1);
    }
  }

  lemma SubtreeIsDescent(all: seq<Row>, r: int, p: int)
    requires DistinctPids(all)
    ensures p in Subtree(Parents(all), r) <==> Descends(all, r, p)
  {
    if p in Subtree(Parents(all), r) {
      var chain := LevelGivesDescent(all, r, p, MAX_DEPTH);
    }
    if chain: seq<int> :| Descent(all, chain, r) && chain[0] == p && |chain| <= 64 + 1 {
      DescentGivesLevel(all, chain, r, MAX_DEPTH);
    }
  }

  /** From the rows to the price: over a snapshot of a table, the walk counts the root and exactly the
      processes whose rows lead to it in at most 64 steps, with the memory of their rows. */
  lemma TablePriceIsExact(all: seq<Row>, snap: Snapshot, r: int)
    requires DistinctPids(all) && Built(snap, all)
    ensures forall p :: p in Walk(snap, r, {}, 0).seen <==> Descends(all, r, p)
    ensures Walk(snap, r, {}, 0).total == Sum(snap.RssOf, Walk(snap, r, {}, 0).seen)
  {
    BuiltIsTree(snap, all);
    SubtreeSumIsExact(snap, Parents(all), r);
    forall p
      ensures p in Subtree(Parents(all), r) <==> Descends(all, r, p)
    {
      SubtreeIsDescent(all, r, p);
    }
  }

  /** A worker and the child it spawned cost what both have. */
  lemma ChildIsPriced(all: seq<Row>, snap: Snapshot, worker: int, child: int)
    requires DistinctPids(all) && Built(snap, all) && HasRow(all, child, worker) && child != worker
    ensures Walk(snap, worker, {}, 0).total >= snap.RssOf(worker) + snap.RssOf(child)
  {
    TablePriceIsExact(all, snap, worker);
    var chain := [child, worker];
    assert Descent(all, chain, worker);
    assert Descent(all, [worker], worker) && [worker][0] == worker;
    var seen := Walk(snap, worker, {}, 0).seen;
    SumRemove(snap.RssOf, seen, worker);
    SumRemove(snap.RssOf, seen - {worker}, child);
  }

  /** A subtree is never priced below its own root. */
  lemma SubtreeCoversOwn(snap: Snapshot, parent: map<int, int>, r: int)
    requires TreeOf(snap, parent)
    ensures Walk(snap, r, {}, 0).total >= snap.RssOf(r)
  {
    SubtreeSumIsExact(snap, parent, r);
    SumRemove(snap.RssOf, Subtree(parent, r), r);
  }

  // ----- Cost -----

  ghost function FanOut(snap: Snapshot): int -> nat {
    p => |snap.Kids(p)|
  }

  lemma {:induction false} WalkCost(snap: Snapshot, pid: int, seen: set<int>, depth: nat)
    ensures seen <= Walk(snap, pid, seen, depth).seen
    ensures Walk(snap, pid, seen, depth).calls == 1 + Sum(FanOut(snap), Walk(snap, pid, seen, depth).seen - seen)
    decreases Remaining(depth), 0
  {
    var v := Walk(snap, pid, seen, depth);
    if pid in seen || depth > MAX_DEPTH {
      assert v.seen - seen == {};
    } else {
      WalkAllCost(snap, snap.Kids(pid), seen + {pid}, depth + 1);
      assert v.seen - seen == {pid} + (v.seen - (seen + {pid}));
      SumInsert(FanOut(snap), v.seen - (seen + {pid}), pid);
    }
  }

  lemma {:induction false} WalkAllCost(snap: Snapshot, kids: seq<int>, seen: set<int>, depth: nat)
    ensures seen <= WalkAll(snap, kids, seen, depth).seen
    ensures WalkAll(snap, kids, seen, depth).calls
         == |kids| + Sum(FanOut(snap), WalkAll(snap, kids, seen, depth).seen - seen)
    decreases Remaining(depth), 1 + |kids|
  {
    var v := WalkAll(snap, kids, seen, depth);
    if kids == [] {
      assert v.seen - seen == {};
    } else {
      var first := Walk(snap, kids[0], seen, depth);
      WalkCost(snap, kids[0], seen, depth);
      WalkAllCost(snap, kids[1..], first.seen, depth);
      assert v.seen - seen == (first.seen - seen) + (v.seen - first.seen);
      SumUnion(FanOut(snap), first.seen - seen, v.seen - first.seen);
    }
  }

  /** One walk makes one call for the root and one for every entry of the child lists of the
      processes it counts: linear in the table. */
  lemma WalkIsLinear(snap: Snapshot, r: int)
    ensures Walk(snap, r, {}, 0).calls == 1 + Sum(FanOut(snap), Walk(snap, r, {}, 0).seen)
    ensures Walk(snap, r, {}, 0).calls <= 1 + Sum(FanOut(snap), snap.children.Keys)
  {
    WalkCost(snap, r, {}, 0);
    var seen := Walk(snap, r, {}, 0).seen;
    assert seen - {} == seen;
    var inner, leaves := seen * snap.children.Keys, seen - snap.children.Keys;
    assert seen == inner + leaves;
    SumUnion(FanOut(snap), inner, leaves);
    SumZero(FanOut(snap), leaves);
    SumSubset(FanOut(snap), inner, snap.children.Keys);
  }

  // ----- Conservation -----

  /** Neither process is reached by the other's parent chain. */
  ghost predicate Unrelated(parent: map<int, int>, v: int, w: int) {
    Level(parent, v, w, MAX_DEPTH).None? && Level(parent, w, v, MAX_DEPTH).None?
  }

  lemma {:induction false} LevelFromUp(parent: map<int, int>, r: int, p: int, k: nat, fuel: nat)
    requires Up(parent, p, k) == Some(r) && k <= fuel
    ensures Level(parent, r, p, fuel).Some?
    decreases k
  {
    if p != r {
      LevelFromUp(parent, r, parent[p], k - 1, fuel - 1);
    }
  }

  /** Of two processes on one parent chain, the lower reaches the higher. */
  lemma SharedChain(parent: map<int, int>, p: int, v: int, w: int)
    requires p in Subtree(parent, v) && p in Subtree(parent, w)
    requires Level(parent, v, p, MAX_DEPTH).value <= Level(parent, w, p, MAX_DEPTH).value
    ensures Level(parent, w, v, MAX_DEPTH).Some?
  {
    var i, j := Level(parent, v, p, MAX_DEPTH).value, Level(parent, w, p, MAX_DEPTH).value;
    LevelIsFirst(parent, v, p, MAX_DEPTH);
    LevelIsFirst(parent, w, p, MAX_DEPTH);
    UpAdd(parent, p, i, j - i);
    LevelFromUp(parent, w, v, j - i, MAX_DEPTH);
  }

  lemma UnrelatedAreDisjoint(parent: map<int, int>, v: int, w: int)
    requires Unrelated(parent, v, w)
    ensures Subtree(parent, v) !! Subtree(parent, w)
  {
    forall p | p in Subtree(parent, v)
      ensures p !in Subtree(parent, w)
    {
      if p in Subtree(parent, w) {
        if Level(parent, v, p, MAX_DEPTH).value <= Level(parent, w, p, MAX_DEPTH).value {
          SharedChain(parent, p, v, w);
        } else {
          SharedChain(parent, p, w, v);
        }
      }
    }
  }

  ghost function SubtreePrice(snap: Snapshot): int -> nat {
    w => Walk(snap, w, {}, 0).total
  }

  ghost function Forest(parent: map<int, int>, workers: set<int>): set<int> {
    set w, p | w in workers && p in Subtree(parent, w) :: p
  }

  lemma {:induction false} ForestSum(snap: Snapshot, parent: map<int, int>, workers: set<int>)
    requires TreeOf(snap, parent)
    requires forall v, w | v in workers && w in workers && v != w :: Unrelated(parent, v, w)
    ensures Sum(SubtreePrice(snap), workers) == Sum(snap.RssOf, Forest(parent, workers))
    decreases workers
  {
    if workers == {} {
      assert Forest(parent, workers) == {};
    } else {
      var w := Pick(workers);
      var others := workers - {w};
      SumRemove(SubtreePrice(snap), workers, w);
      ForestSum(snap, parent, others);
      SubtreeSumIsExact(snap, parent, w);
      var mine, theirs := Subtree(parent, w), Forest(parent, others);
      assert Forest(parent, workers) == mine + theirs;
      forall v | v in others
        ensures Subtree(parent, v) !! mine
      {
        UnrelatedAreDisjoint(parent, v, w);
      }
      SumUnion(snap.RssOf, mine, theirs);
    }
  }

  /** Workers none of which descends from another never cost more together than the whole table. */
  lemma SubtreesConserveMemory(snap: Snapshot, parent: map<int, int>, workers: set<int>)
    requires TreeOf(snap, parent)
    requires forall v, w | v in workers && w in workers && v != w :: Unrelated(parent, v, w)
    ensures Sum(SubtreePrice(snap), workers) <= Sum(snap.RssOf, snap.byPID.Keys)
  {
    ForestSum(snap, parent, workers);
    var all := Forest(parent, workers);
    var known, unknown := all * snap.byPID.Keys, all - snap.byPID.Keys;
    assert all == known + unknown;
    SumUnion(snap.RssOf, known, unknown);
    SumZero(snap.RssOf, unknown);
    SumSubset(snap.RssOf, known, snap.byPID.Keys);
  }

  // ----- Enriching a pool's workers -----

  /** The reads of one scrape: a process's own resident memory (None when it cannot be read) and its
      proportional set size. */
  datatype Reads = Reads(own: int -> Option<nat>, pss: int -> nat)

  predicate Measured(w: PoolProcess, os: Reads) {
    w.pid > 0 && os.own(Int32(w.pid)).Some?
  }

  /** A worker after enrichment. */
  function Enriched(w: PoolProcess, snap: Option<Snapshot>, os: Reads): PoolProcess {
    if !Measured(w, os) then w
    else
      var own := os.own(Int32(w.pid)).value;
      var sized := w.(currentRSS := own, currentPSS := os.pss(w.pid));
      match snap
      case None => sized
      case Some(s) =>
        var subtree := Walk(s, Int32(w.pid), {}, 0).total;
        sized.(subtreeRSS := if subtree < own then own else subtree)
  }

  /** How many live workers could not be read. */
  function Missing(workers: seq<PoolProcess>, os: Reads): nat {
    if workers == [] then 0
    else
      var w := workers[|workers| - 1];
      Missing(workers[..|workers| - 1], os) + if w.pid > 0 && !Measured(w, os) then 1 else 0
  }

  method EnrichWorkerRSS(workers: array<PoolProcess>, snap: Option<Snapshot>, os: Reads) returns (missing: nat)
    modifies workers
    ensures forall i | 0 <= i < workers.Length :: workers[i] == Enriched(old(workers[i]), snap, os)
    ensures missing == Missing(old(workers[..]), os)
  {
    missing := 0;
    ghost var was := workers[..];
    for i := 0 to workers.Length
      invariant forall k | 0 <= k < i :: workers[k] == Enriched(was[k], snap, os)
      invariant forall k | i <= k < workers.Length :: workers[k] == was[k]
      invariant missing == Missing(was[..i], os)
    {
      assert was[..i + 1][..i] == was[..i];
      var enriched, unreadable := EnrichOne(workers[i], snap, os);
      workers[i] := enriched;
      if unreadable {
        missing := missing + 1;
      }
    }
    assert was[..workers.Length] == was;
  }

  /** The body of that loop, for one worker. */
  method EnrichOne(w: PoolProcess, snap: Option<Snapshot>, os: Reads) returns (enriched: PoolProcess, unreadable: bool)
    ensures enriched == Enriched(w, snap, os)
    ensures unreadable <==> w.pid > 0 && !Measured(w, os)
  {
    enriched, unreadable := w, false;
    if w.pid <= 0 {
      return;
    }
    var mem := os.own(Int32(w.pid));
    if mem.None? {
      unreadable := true;
      return;
    }
    var own := mem.value;
    enriched := enriched.(currentRSS := own, currentPSS := os.pss(w.pid));
    if snap.Some? {
      var subtree := SubtreeRSS(snap.value, Int32(w.pid));
      if subtree < own {
        subtree := own;
      }
      enriched := enriched.(subtreeRSS := subtree);
    }
  }

  /** What enrichment means for one worker: its subtree is the exact sum over its descendants, never
      below its own memory, so the children's share is never negative; without a snapshot only its own
      memory is filled in; and a worker that cannot be read is left alone. Nothing else of it changes. */
  lemma EnrichmentIsExact(w: PoolProcess, snap: Option<Snapshot>, all: seq<Row>, os: Reads)
    requires snap.Some? ==> DistinctPids(all) && Built(snap.value, all)
    ensures var after := Enriched(w, snap, os);
            if w.pid > 0 && os.own(Int32(w.pid)).Some? then
              && after.currentRSS == os.own(Int32(w.pid)).value && after.currentPSS == os.pss(w.pid)
              && after == w.(currentRSS := after.currentRSS, currentPSS := after.currentPSS,
                             subtreeRSS := after.subtreeRSS)
              && (snap.None? ==> after.subtreeRSS == w.subtreeRSS)
              && (snap.Some? ==>
                    var seen := Walk(snap.value, Int32(w.pid), {}, 0).seen;
                    var exact := Sum(snap.value.RssOf, seen);
                    && (forall p :: p in seen <==> Descends(all, Int32(w.pid), p))
                    && after.subtreeRSS == (if exact < after.currentRSS then after.currentRSS else exact)
                    && after.subtreeRSS >= after.currentRSS)
            else after == w
  {
    if snap.Some? {
      TablePriceIsExact(all, snap.value, Int32(w.pid));
    }
  }

  /** Where in the list the live workers are that cannot be read. */
  function UnreadableAt(workers: seq<PoolProcess>, os: Reads): set<nat> {
    set i: nat | i < |workers| && workers[i].pid > 0 && os.own(Int32(workers[i].pid)).None?
  }

  lemma UnreadableGrows(workers: seq<PoolProcess>, os: Reads)
    requires workers != []
    ensures var w, before := workers[|workers| - 1], UnreadableAt(workers[..|workers| - 1], os);
            |UnreadableAt(workers, os)| == |before| + if w.pid > 0 && os.own(Int32(w.pid)).None? then 1 else 0
  {
    var front, n: nat := workers[..|workers| - 1], |workers| - 1;
    var counts := workers[n].pid > 0 && os.own(Int32(workers[n].pid)).None?;
    assert UnreadableAt(workers, os) == UnreadableAt(front, os) + if counts then {n} else {};
    assert n !in UnreadableAt(front, os);
  }

  lemma {:induction false} MissingIsCounted(workers: seq<PoolProcess>, os: Reads)
    ensures Missing(workers, os) == |UnreadableAt(workers, os)|
  {
    if workers != [] {
      MissingIsCounted(workers[..|workers| - 1], os);
      UnreadableGrows(workers, os);
    }
  }
}
