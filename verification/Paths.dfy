/** Lexical paths with the meaning of Go's `path/filepath` on Unix. */
module Paths {
  import opened Text

  /** One step of cleaning: what `part` does to the components kept so far. */
  function Push(rooted: bool, kept: seq<string>, part: string): seq<string> {
    if part == "" || part == "." then kept
    else if part != ".." then kept + [part]
    else if kept != [] && kept[|kept| - 1] != ".." then kept[..|kept| - 1]
    else if rooted then kept
    else kept + [".."]
  }

  function Resolve(rooted: bool, parts: seq<string>): seq<string> {
    if parts == [] then []
    else Push(rooted, Resolve(rooted, parts[..|parts| - 1]), parts[|parts| - 1])
  }

  function Render(rooted: bool, parts: seq<string>): string {
    if rooted then "/" + Join(parts, '/')
    else if parts == [] then "."
    else Join(parts, '/')
  }

  predicate IsAbs(p: string) {
    p != "" && p[0] == '/'
  }

  /** The components `Clean` keeps. */
  function Components(p: string): seq<string> {
    Resolve(IsAbs(p), Split(p, '/'))
  }

  /** `filepath.Clean`: the shortest lexically equivalent path. */
  function Clean(p: string): string {
    Render(IsAbs(p), Components(p))
  }

  /** `filepath.Dir`: everything up to the last slash, cleaned. */
  function Dir(p: string): string {
    Clean(p[..LastIndex(p, '/') + 1])
  }

  /** Component lists that cleaning leaves alone. */
  predicate Normal(rooted: bool, parts: seq<string>) {
    && (forall i | 0 <= i < |parts| :: parts[i] != "" && parts[i] != "." && '/' !in parts[i])
    && (forall i | 0 <= i < |parts| && parts[i] == ".." :: !rooted)
    && (forall i, j | 0 <= i < j < |parts| && parts[j] == ".." :: parts[i] == "..")
  }

  lemma {:induction false} ResolveIsNormal(rooted: bool, parts: seq<string>)
    requires forall i | 0 <= i < |parts| :: '/' !in parts[i]
    ensures Normal(rooted, Resolve(rooted, parts))
  {
    if parts != [] {
      ResolveIsNormal(rooted, parts[..|parts| - 1]);
    }
  }

  lemma {:induction false} ResolveNormal(rooted: bool, parts: seq<string>)
    requires Normal(rooted, parts)
    ensures Resolve(rooted, parts) == parts
  {
    if parts != [] {
      var front := parts[..|parts| - 1];
      ResolveNormal(rooted, front);
      assert front + [parts[|parts| - 1]] == parts;
    }
  }

  lemma {:induction false} ResolveSkipsLeadingEmpty(rooted: bool, parts: seq<string>)
    ensures Resolve(rooted, [""] + parts) == Resolve(rooted, parts)
  {
    var all := [""] + parts;
    if parts == [] {
      assert all[..0] == [];
    } else {
      assert all[..|all| - 1] == [""] + parts[..|parts| - 1];
      ResolveSkipsLeadingEmpty(rooted, parts[..|parts| - 1]);
    }
  }

  lemma CleanIsNormal(p: string)
    ensures Normal(IsAbs(p), Components(p))
    ensures IsAbs(Clean(p)) == IsAbs(p)
  {
    ResolveIsNormal(IsAbs(p), Split(p, '/'));
    var parts := Components(p);
    if !IsAbs(p) && parts != [] {
      JoinStart(parts);
    }
  }

  lemma JoinStart(parts: seq<string>)
    requires parts != [] && parts[0] != ""
    ensures Join(parts, '/') != "" && Join(parts, '/')[0] == parts[0][0]
  {
  }

  /** A rendered normal path parses back into its own components. */
  lemma ComponentsOfRender(rooted: bool, parts: seq<string>)
    requires Normal(rooted, parts)
    ensures IsAbs(Render(rooted, parts)) == rooted
    ensures Components(Render(rooted, parts)) == parts
  {
    var p := Render(rooted, parts);
    if rooted {
      assert p == "" + ['/'] + Join(parts, '/');
      SplitAtSep("", Join(parts, '/'), '/');
      ResolveSkipsLeadingEmpty(true, Split(Join(parts, '/'), '/'));
      if parts == [] {
        assert Split("", '/') == [""];
        assert Resolve(true, [""]) == Push(true, Resolve(true, []), "") by { assert [""][..0] == []; }
      } else {
        SplitJoin(parts, '/');
        ResolveNormal(true, parts);
      }
    } else if parts == [] {
      SplitNoSep(".", '/');
      assert ["."][..0] == [];
    } else {
      JoinStart(parts);
      SplitJoin(parts, '/');
      ResolveNormal(false, parts);
    }
  }

  /** Cleaning a clean path changes nothing. */
  lemma CleanIdempotent(p: string)
    ensures Clean(Clean(p)) == Clean(p)
    ensures Components(Clean(p)) == Components(p)
  {
    CleanIsNormal(p);
    ComponentsOfRender(IsAbs(p), Components(p));
  }

  /** The directory of a clean path drops exactly its last component; the root and the current
      directory are their own. */
  lemma DirDropsLast(rooted: bool, parts: seq<string>)
    requires Normal(rooted, parts)
    ensures Dir(Render(rooted, parts)) == Render(rooted, if parts == [] then [] else parts[..|parts| - 1])
  {
    var p := Render(rooted, parts);
    if parts == [] {
      DirOfTop(rooted);
    } else {
      var front, last := parts[..|parts| - 1], parts[|parts| - 1];
      assert parts == front + [last];
      if front != [] {
        JoinAppend(front, last, '/');
      }
      var head := Head(rooted, front);
      assert p == head + last;
      DirCutsLast(head, last);
      CleanHead(rooted, front);
    }
  }

  lemma DirCutsLast(head: string, last: string)
    requires '/' !in last && (head == "" || head[|head| - 1] == '/')
    ensures Dir(head + last) == Clean(head)
  {
    var p := head + last;
    assert head != "" ==> p[|head| - 1] == '/';
    assert LastIndex(p, '/') == |head| - 1;
    assert p[..|head|] == head;
  }

  lemma DirOfTop(rooted: bool)
    ensures Dir(Render(rooted, [])) == Render(rooted, [])
  {
    var p := Render(rooted, []);
    assert p == if rooted then "/" else ".";
    assert p[..LastIndex(p, '/') + 1] == if rooted then "/" else "";
    CleanHead(rooted, []);
  }

  /** What is left of a path once its last component is cut off. */
  function Head(rooted: bool, front: seq<string>): string {
    if front == [] then (if rooted then "/" else "")
    else (if rooted then "/" else "") + Join(front, '/') + "/"
  }

  lemma CleanHead(rooted: bool, front: seq<string>)
    requires Normal(rooted, front)
    ensures Clean(Head(rooted, front)) == Render(rooted, front)
  {
    var p := Head(rooted, front);
    if front == [] {
      if rooted {
        ComponentsOfRender(true, []);
        assert p == Render(true, []);
      } else {
        assert Split(p, '/') == [""] && [""][..0] == [];
      }
    } else {
      JoinAppend(front, "", '/');
      SplitJoin(front + [""], '/');
      if rooted {
        assert p == "" + ['/'] + Join(front + [""], '/');
        SplitAtSep("", Join(front + [""], '/'), '/');
        ResolveSkipsLeadingEmpty(true, front + [""]);
      } else {
        assert p == Join(front + [""], '/');
        JoinStart(front + [""]);
      }
      assert (front + [""])[..|front|] == front;
      ResolveNormal(rooted, front);
    }
  }

  // ----- Detours -----

  lemma {:induction false} ResolveSkips(rooted: bool, before: seq<string>, detour: seq<string>, after: seq<string>)
    requires Resolve(rooted, before + detour) == Resolve(rooted, before)
    ensures Resolve(rooted, before + detour + after) == Resolve(rooted, before + after)
  {
    if after == [] {
      assert before + detour + after == before + detour && before + after == before;
    } else {
      var front := after[..|after| - 1];
      assert (before + detour + after)[..|before + detour + after| - 1] == before + detour + front;
      assert (before + after)[..|before + after| - 1] == before + front;
      ResolveSkips(rooted, before, detour, front);
    }
  }

  lemma ResolveOneMore(rooted: bool, parts: seq<string>, part: string)
    ensures Resolve(rooted, parts + [part]) == Push(rooted, Resolve(rooted, parts), part)
  {
    assert (parts + [part])[..|parts|] == parts;
  }

  lemma DetourResolves(rooted: bool, before: seq<string>, name: string)
    requires name != "" && name != "." && name != ".."
    ensures Resolve(rooted, before + [name, ".."]) == Resolve(rooted, before)
  {
    assert before + [name, ".."] == (before + [name]) + [".."];
    ResolveOneMore(rooted, before, name);
    ResolveOneMore(rooted, before + [name], "..");
  }

  lemma SplitPath(p: string, q: string)
    ensures Split(p + "/" + q, '/') == Split(p, '/') + Split(q, '/')
    ensures IsAbs(p + "/" + q) == (p == "" || IsAbs(p))
  {
    SplitAppend(p, q, '/');
    assert p + "/" + q == p + ['/'] + q;
  }

  lemma SplitStep(name: string, rest: string)
    requires '/' !in name
    ensures Split(name + "/" + rest, '/') == [name] + Split(rest, '/')
  {
    SplitPath(name, rest);
    SplitNoSep(name, '/');
  }

  lemma SplitDetour(p: string, name: string, up: string, q: string)
    requires '/' !in name && '/' !in up
    ensures var path := p + "/" + (name + "/" + (up + "/" + q));
            && Split(path, '/') == Split(p, '/') + [name, up] + Split(q, '/')
            && IsAbs(path) == (p == "" || IsAbs(p))
  {
    SplitStep(up, q);
    SplitStep(name, up + "/" + q);
    SplitPath(p, name + "/" + (up + "/" + q));
    Flatten(Split(p, '/'), name, up, Split(q, '/'));
  }

  lemma Flatten(before: seq<string>, name: string, up: string, after: seq<string>)
    ensures before + ([name] + ([up] + after)) == before + [name, up] + after
  {
  }

  lemma CleanAlike(p: string, q: string)
    requires IsAbs(p) == IsAbs(q) && Resolve(IsAbs(p), Split(p, '/')) == Resolve(IsAbs(q), Split(q, '/'))
    ensures Clean(p) == Clean(q)
  {
  }

  /** Going into a directory and back out is the same as staying. */
  lemma DetourIsCleaned(p: string, name: string, q: string)
    requires name != "" && name != "." && name != ".." && '/' !in name
    ensures Clean(p + "/" + (name + "/" + (".." + "/" + q))) == Clean(p + "/" + q)
  {
    var rooted := p == "" || IsAbs(p);
    SplitDetour(p, name, "..", q);
    SplitPath(p, q);
    DetourResolves(rooted, Split(p, '/'), name);
    ResolveSkips(rooted, Split(p, '/'), [name, ".."], Split(q, '/'));
    CleanAlike(p + "/" + (name + "/" + (".." + "/" + q)), p + "/" + q);
  }
}
