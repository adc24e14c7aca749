/** The walk over the directories above a path (trust.go): a file is only trusted if nobody else can
    swap what it is reached through. */
module Trust {
  import opened Wrappers
  import opened Text
  import opened Paths

  /** What `Lstat` says of a directory: gone, unreadable, of unknown ownership, or its owner, permission
      bits and sticky bit. */
  datatype Stat = Missing | Unreadable | OwnerUnknown | Info(uid: nat, perm: bv16, sticky: bool)

  datatype TrustError =
    | PathMissing(dir: string)
    | CannotStat(dir: string)
    | CannotOwn(dir: string)
    | NotRoots(dir: string)
    | Writable(dir: string)

  const GROUP_OR_OTHERS_WRITE: bv16 := 0x12 // 0o022
  const OTHERS_WRITE: bv16 := 0x02 // 0o002

  /** What is wrong with one directory; `strict` is the rule for a process running as root. */
  function DirError(strict: bool, dir: string, st: Stat): Option<TrustError> {
    match st
    case Missing => Some(PathMissing(dir))
    case Unreadable => Some(CannotStat(dir))
    case OwnerUnknown => Some(CannotOwn(dir))
    case Info(uid, perm, sticky) =>
      if strict && uid != 0 then Some(NotRoots(dir))
      else if strict && perm & GROUP_OR_OTHERS_WRITE != 0 && !sticky then Some(Writable(dir))
      else if !strict && perm & OTHERS_WRITE != 0 && !sticky then Some(Writable(dir))
      else None
  }

  /** The permission bits, counted from the lowest: others may write, the group may write. */
  predicate OthersWrite(perm: bv16) {
    (perm >> 1) & 1 == 1
  }

  predicate GroupWrites(perm: bv16) {
    (perm >> 4) & 1 == 1
  }

  /** The rule: the directory is there and its owner known; it is sticky or nobody else can write to it; and
      for a process running as root nobody else includes the group, and root has to own it. */
  lemma RuleIs(strict: bool, dir: string, st: Stat)
    ensures DirError(strict, dir, st) == None <==>
              && st.Info?
              && (strict ==> st.uid == 0)
              && (st.sticky || (!OthersWrite(st.perm) && (strict ==> !GroupWrites(st.perm))))
    ensures DirError(strict, dir, st) == Some(PathMissing(dir)) <==> st.Missing?
    ensures DirError(strict, dir, st) == Some(NotRoots(dir)) <==> strict && st.Info? && st.uid != 0
  {
    if st.Info? {
      WriteBits(st.perm);
    }
  }

  lemma WriteBits(perm: bv16)
    ensures perm & OTHERS_WRITE != 0 <==> OthersWrite(perm)
    ensures perm & GROUP_OR_OTHERS_WRITE != 0 <==> OthersWrite(perm) || GroupWrites(perm)
  {
  }

  /** The directory the first `k` components of a path name: the root or, of a relative path, the current
      directory when there are none. */
  function DirAt(rooted: bool, parts: seq<string>, k: nat): string
    requires k <= |parts|
  {
    Render(rooted, parts[..k])
  }

  /** How many components the directory of a path has: the root is its own, and so is the
      current directory. */
  function ParentLength(parts: seq<string>): nat {
    if parts == [] then 0 else |parts| - 1
  }

  /** What is wrong with the directory the first `k` components name. */
  function ErrorAt(strict: bool, lstat: string -> Stat, rooted: bool, parts: seq<string>, k: nat): Option<TrustError>
    requires k <= |parts|
  {
    DirError(strict, DirAt(rooted, parts, k), lstat(DirAt(rooted, parts, k)))
  }

  /** Nothing is wrong with any directory from the root down to `top` components. */
  ghost predicate AllFine(strict: bool, lstat: string -> Stat, rooted: bool, parts: seq<string>, top: nat)
    requires top <= |parts|
  {
    forall k: nat | k <= top :: ErrorAt(strict, lstat, rooted, parts, k) == None
  }

  /** Nothing is wrong with any of them below the first `k` components. */
  ghost predicate FineBelow(strict: bool, lstat: string -> Stat, rooted: bool, parts: seq<string>, k: nat, top: nat)
    requires top <= |parts|
  {
    forall i: nat | k < i <= top :: ErrorAt(strict, lstat, rooted, parts, i) == None
  }

  lemma FineBelowStep(strict: bool, lstat: string -> Stat, rooted: bool, parts: seq<string>, k: nat, top: nat)
    requires k <= top <= |parts| && FineBelow(strict, lstat, rooted, parts, k, top)
    requires ErrorAt(strict, lstat, rooted, parts, k) == None
    ensures if k == 0 then AllFine(strict, lstat, rooted, parts, top)
            else FineBelow(strict, lstat, rooted, parts, k - 1, top)
  {
  }

  /** The directory of `k` components is the deepest one, down to `top`, that something is wrong with. */
  ghost predicate DeepestError(strict: bool, lstat: string -> Stat, rooted: bool, parts: seq<string>, top: nat, k: nat, e: TrustError)
    requires top <= |parts|
  {
    && k <= top
    && ErrorAt(strict, lstat, rooted, parts, k) == Some(e)
    && FineBelow(strict, lstat, rooted, parts, k, top)
  }

  /** Every proper ancestor of the path exists and meets the rule. */
  ghost predicate Accepted(strict: bool, lstat: string -> Stat, path: string) {
    AllFine(strict, lstat, IsAbs(path), Components(path), ParentLength(Components(path)))
  }

  /** The walk accepts exactly the accepted paths, and otherwise reports the deepest ancestor that
      something is wrong with. */
  method TrustedAncestors(strict: bool, lstat: string -> Stat, path: string) returns (err: Option<TrustError>)
    ensures err == None <==> Accepted(strict, lstat, path)
    ensures err.Some? ==> exists k: nat ::
              DeepestError(strict, lstat, IsAbs(path), Components(path), ParentLength(Components(path)), k, err.value)
  {
    FirstDirectory(path);
    err := WalkUp(strict, lstat, Dir(Clean(path)), IsAbs(path), Components(path), ParentLength(Components(path)));
  }

  /** The loop: from a directory to the top, which is its own parent. */
  method WalkUp(strict: bool, lstat: string -> Stat, from: string, ghost rooted: bool, ghost parts: seq<string>, ghost top: nat)
    returns (err: Option<TrustError>)
    requires Normal(rooted, parts) && top <= |parts| && from == DirAt(rooted, parts, top)
    ensures err == None <==> AllFine(strict, lstat, rooted, parts, top)
    ensures err.Some? ==> exists k: nat :: DeepestError(strict, lstat, rooted, parts, top, k, err.value)
  {
    ghost var k: nat := top;
    var dir := from;
    while true
      invariant k <= top && dir == DirAt(rooted, parts, k)
      invariant FineBelow(strict, lstat, rooted, parts, k, top)
      decreases k
    {
      err := DirError(strict, dir, lstat(dir));
      assert err == ErrorAt(strict, lstat, rooted, parts, k);
      if err.Some? {
        assert DeepestError(strict, lstat, rooted, parts, top, k, err.value);
        return;
      }
      FineBelowStep(strict, lstat, rooted, parts, k, top);
      ParentOfPrefix(rooted, parts, k);
      var parent := Dir(dir);
      if parent == dir {
        return;
      }
      dir := parent;
      k := k - 1;
    }
  }

  lemma FirstDirectory(path: string)
    ensures Dir(Clean(path)) == DirAt(IsAbs(path), Components(path), ParentLength(Components(path)))
    ensures Normal(IsAbs(path), Components(path))
  {
    CleanIsNormal(path);
    DirDropsLast(IsAbs(path), Components(path));
  }

  lemma NormalPrefix(rooted: bool, parts: seq<string>, k: nat)
    requires Normal(rooted, parts) && k <= |parts|
    ensures Normal(rooted, parts[..k])
    ensures IsAbs(DirAt(rooted, parts, k)) == rooted && Components(DirAt(rooted, parts, k)) == parts[..k]
  {
    PrefixIsNormal(rooted, parts, k);
    ComponentsOfRender(rooted, parts[..k]);
  }

  lemma ParentOfPrefix(rooted: bool, parts: seq<string>, k: nat)
    requires Normal(rooted, parts) && k <= |parts|
    ensures Dir(DirAt(rooted, parts, k)) == DirAt(rooted, parts, if k == 0 then 0 else k - 1)
    ensures k == 0 <==> Dir(DirAt(rooted, parts, k)) == DirAt(rooted, parts, k)
  {
    ParentIs(rooted, parts, k);
    if k > 0 {
      PrefixesDiffer(rooted, parts, k);
    }
  }

  lemma ParentIs(rooted: bool, parts: seq<string>, k: nat)
    requires Normal(rooted, parts) && k <= |parts|
    ensures Dir(DirAt(rooted, parts, k)) == DirAt(rooted, parts, if k == 0 then 0 else k - 1)
  {
    PrefixIsNormal(rooted, parts, k);
    DirDropsLast(rooted, parts[..k]);
    if k > 0 {
      FrontOfPrefix(parts, k);
    }
  }

  lemma PrefixIsNormal(rooted: bool, parts: seq<string>, k: nat)
    requires Normal(rooted, parts) && k <= |parts|
    ensures Normal(rooted, parts[..k])
  {
  }

  lemma FrontOfPrefix(parts: seq<string>, k: nat)
    requires 0 < k <= |parts|
    ensures parts[..k][..|parts[..k]| - 1] == parts[..k - 1]
  {
  }

  lemma PrefixesDiffer(rooted: bool, parts: seq<string>, k: nat)
    requires Normal(rooted, parts) && 0 < k <= |parts|
    ensures DirAt(rooted, parts, k - 1) != DirAt(rooted, parts, k)
  {
    NormalPrefix(rooted, parts, k);
    NormalPrefix(rooted, parts, k - 1);
    assert |parts[..k]| != |parts[..k - 1]|;
  }

  /** Only the cleaned path matters. */
  lemma SpellingIsIrrelevant(strict: bool, lstat: string -> Stat, p: string, q: string)
    requires Clean(p) == Clean(q)
    ensures Accepted(strict, lstat, p) <==> Accepted(strict, lstat, q)
  {
    CleanIsNormal(p);
    CleanIsNormal(q);
    CleanIdempotent(p);
    CleanIdempotent(q);
  }

  lemma PrefixErrors(strict: bool, lstat: string -> Stat, rooted: bool, parts: seq<string>, k: nat)
    requires k <= |parts|
    ensures forall i: nat | i <= k ::
              ErrorAt(strict, lstat, rooted, parts[..k], i) == ErrorAt(strict, lstat, rooted, parts, i)
  {
    forall i: nat | i <= k
      ensures ErrorAt(strict, lstat, rooted, parts[..k], i) == ErrorAt(strict, lstat, rooted, parts, i)
    {
      assert parts[..k][..i] == parts[..i];
    }
  }

  /** The directory of the first `k` components of a path. */
  function Ancestor(path: string, k: nat): string
    requires k <= |Components(path)|
  {
    DirAt(IsAbs(path), Components(path), k)
  }

  /** The directories above an ancestor are the first of those above the path. */
  lemma AcceptedPrefix(strict: bool, lstat: string -> Stat, path: string, k: nat)
    requires k <= |Components(path)|
    ensures Accepted(strict, lstat, Ancestor(path, k))
       <==> AllFine(strict, lstat, IsAbs(path), Components(path), if k == 0 then 0 else k - 1)
  {
    var rooted, parts := IsAbs(path), Components(path);
    CleanIsNormal(path);
    NormalPrefix(rooted, parts, k);
    PrefixErrors(strict, lstat, rooted, parts, k);
    var top := if k == 0 then 0 else k - 1;
    assert ParentLength(parts[..k]) == top;
    forall i: nat | i <= top
      ensures ErrorAt(strict, lstat, rooted, parts[..k], i) == ErrorAt(strict, lstat, rooted, parts, i)
    {
    }
  }

  /** A path is accepted only if each of its ancestors is, all the way to the top. */
  lemma AncestorsAreAccepted(strict: bool, lstat: string -> Stat, path: string, k: nat)
    requires Accepted(strict, lstat, path) && k <= |Components(path)|
    ensures Accepted(strict, lstat, Ancestor(path, k))
  {
    AcceptedPrefix(strict, lstat, path, k);
  }

  /** Acceptance is acceptance of the parent directory, and nothing wrong with it. */
  lemma AcceptedFromParent(strict: bool, lstat: string -> Stat, path: string)
    ensures var n := ParentLength(Components(path));
            Accepted(strict, lstat, path) <==>
              Accepted(strict, lstat, Ancestor(path, n))
              && ErrorAt(strict, lstat, IsAbs(path), Components(path), n) == None
  {
    var n := ParentLength(Components(path));
    AcceptedPrefix(strict, lstat, path, n);
    AllFineStep(strict, lstat, IsAbs(path), Components(path), n);
  }

  lemma AllFineStep(strict: bool, lstat: string -> Stat, rooted: bool, parts: seq<string>, n: nat)
    requires n <= |parts|
    ensures AllFine(strict, lstat, rooted, parts, n) <==>
              AllFine(strict, lstat, rooted, parts, if n == 0 then 0 else n - 1)
              && ErrorAt(strict, lstat, rooted, parts, n) == None
  {
  }

  /** What root accepts, anyone accepts. */
  lemma StrictIsStricter(lstat: string -> Stat, path: string)
    requires Accepted(true, lstat, path)
    ensures Accepted(false, lstat, path)
  {
    var rooted, parts := IsAbs(path), Components(path);
    forall i: nat | i <= ParentLength(parts)
      ensures ErrorAt(false, lstat, rooted, parts, i) == None
    {
      var st := lstat(DirAt(rooted, parts, i));
      assert ErrorAt(true, lstat, rooted, parts, i) == None;
      GroupBitsCoverOthers(st.perm);
    }
  }

  lemma GroupBitsCoverOthers(perm: bv16)
    ensures perm & GROUP_OR_OTHERS_WRITE == 0 ==> perm & OTHERS_WRITE == 0
  {
    assert perm & OTHERS_WRITE == (perm & GROUP_OR_OTHERS_WRITE) & OTHERS_WRITE;
  }
}
