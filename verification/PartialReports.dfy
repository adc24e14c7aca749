/** What parsing only part of a report would do (config.go), which is why a truncated capture is refused:
    it can lose pools, and cut in the wrong place it can add some. */
module PartialReports {
  import opened Wrappers
  import opened Text
  import opened ConfigParser
  import opened ConfigPrinter

  /** `a` has no section or setting name that `b` lacks. */
  ghost predicate NamesWithin(a: EffectiveConfig, b: EffectiveConfig) {
    && a.global.Keys <= b.global.Keys
    && a.pools.Keys <= b.pools.Keys
    && forall name | name in a.pools :: a.pools[name].Keys <= b.pools[name].Keys
  }

  lemma {:induction false} ApplyingOnlyAdds(st: State, lines: seq<Line>)
    ensures NamesWithin(st.config, ApplyAll(st, lines).config)
    decreases lines
  {
    if lines != [] {
      var next := Apply(st, lines[0]);
      ApplyingOnlyAdds(next, lines[1..]);
      assert NamesWithin(st.config, next.config);
    }
  }

  lemma LinePrefixOnlyLoses(lines: seq<Line>, n: nat)
    requires n <= |lines|
    ensures NamesWithin(ApplyAll(START, lines[..n]).config, ApplyAll(START, lines).config)
  {
    ApplyAppend(START, lines[..n], lines[n..]);
    assert lines[..n] + lines[n..] == lines;
    ApplyingOnlyAdds(ApplyAll(START, lines[..n]), lines[n..]);
  }

  /** The raw lines of a report cut after a newline are the first of its raw lines. */
  lemma RawLinesOfCut(head: string, tail: string)
    ensures RawLines(head + "\n" + tail) == RawLines(head + "\n") + RawLines(tail)
  {
    SplitAppend(head, tail, '\n');
    SplitAppend(head, "", '\n');
    assert head + "\n" + "" == head + "\n";
    LastOfAppend(Split(head, '\n'), Split(tail, '\n'));
    LastOfAppend(Split(head, '\n'), [""]);
  }

  lemma LastOfAppend(a: seq<string>, b: seq<string>)
    requires b != []
    ensures (a + b)[..|a + b| - 1] == a + b[..|b| - 1] && (a + b)[|a + b| - 1] == b[|b| - 1]
  {
  }

  lemma PrefixIsScannable(raws: seq<string>, n: nat)
    requires n <= |raws|
    ensures Scannable(raws) ==> Scannable(raws[..n])
  {
  }

  /** Cutting a report between two lines never breaks it and can only lose pools and settings, never
      add any. */
  lemma LineCutOnlyLoses(head: string, tail: string)
    ensures Parsed(head + "\n" + tail).Ok? ==>
              && Parsed(head + "\n").Ok?
              && NamesWithin(Parsed(head + "\n").value, Parsed(head + "\n" + tail).value)
  {
    RawLinesOfCut(head, tail);
    var cut, whole := RawLines(head + "\n"), RawLines(head + "\n" + tail);
    assert whole[..|cut|] == cut;
    PrefixIsScannable(whole, |cut|);
    assert ClassifyAll(whole)[..|cut|] == ClassifyAll(cut);
    LinePrefixOnlyLoses(ClassifyAll(whole), |cut|);
  }

  // ----- Cutting at any byte -----

  /** What a report cut after `n` bytes has of whole lines, newline included, and of the line cut. */
  function WholeLines(output: string, n: nat): string
    requires n <= |output|
  {
    output[..LastIndex(output[..n], '\n') + 1]
  }

  function CutLine(output: string, n: nat): string
    requires n <= |output|
  {
    output[LastIndex(output[..n], '\n') + 1..n]
  }

  /** The name a line gives, section or setting, is in `whole`; a setting is looked for in `section`. */
  predicate Known(section: string, line: Line, whole: EffectiveConfig) {
    match line
    case Ignored => true
    case Section(name) => name == "global" || name in whole.pools
    case Setting(key, _) => if section == "global" then key in whole.global else key in PoolOf(whole, section)
  }

  /** The section being read is the global one or a pool already there. */
  predicate InPlace(st: State) {
    st.section == "global" || st.section in st.config.pools
  }

  lemma {:induction false} StaysInPlace(st: State, lines: seq<Line>)
    requires InPlace(st)
    ensures InPlace(ApplyAll(st, lines))
    decreases lines
  {
    if lines != [] {
      StaysInPlace(Apply(st, lines[0]), lines[1..]);
    }
  }

  lemma OneMoreLine(st: State, line: Line, whole: EffectiveConfig)
    requires InPlace(st) && NamesWithin(st.config, whole)
    ensures NamesWithin(Apply(st, line).config, whole) <==> Known(st.section, line, whole)
  {
    var next := Apply(st, line).config;
    match line {
      case Ignored =>
      case Section(name) =>
      case Setting(key, value) =>
        if st.section == "global" {
          assert next.global.Keys == st.config.global.Keys + {key};
        } else {
          assert next.pools.Keys == st.config.pools.Keys;
          assert next.pools[st.section].Keys == st.config.pools[st.section].Keys + {key};
        }
    }
  }

  /** One line that may be cut, read in place of the `lines` that follow `st`. */
  lemma CutLineLosesIff(st: State, lines: seq<Line>, cut: Line)
    requires InPlace(st)
    ensures var whole := ApplyAll(st, lines).config;
            NamesWithin(Apply(st, cut).config, whole) <==> Known(st.section, cut, whole)
  {
    ApplyingOnlyAdds(st, lines);
    OneMoreLine(st, cut, ApplyAll(st, lines).config);
  }

  /** Text that is empty or ends in a newline. */
  predicate OfWholeLines(s: string) {
    s == "" || s[|s| - 1] == '\n'
  }

  lemma RawLinesAppend(head: string, tail: string)
    requires OfWholeLines(head)
    ensures RawLines(head + tail) == RawLines(head) + RawLines(tail)
  {
    if head == "" {
      assert head + tail == tail;
    } else {
      var before := head[..|head| - 1];
      assert before + "\n" == head;
      assert before + "\n" + tail == head + tail;
      RawLinesOfCut(before, tail);
    }
  }

  /** The first piece of a text that begins with a newline-free `part`. */
  lemma {:induction false} SplitStart(part: string, rest: string)
    requires '\n' !in part
    ensures Split(part + rest, '\n')[0] == part + Split(rest, '\n')[0]
  {
    if part == "" {
      assert part + rest == rest;
    } else {
      assert (part + rest)[1..] == part[1..] + rest && (part + rest)[0] == part[0];
      SplitStart(part[1..], rest);
      assert [part[0]] + part[1..] == part;
    }
  }

  /** A cut line fits the scanner if the line it was cut from does. */
  lemma CutLineFits(part: string, rest: string)
    requires '\n' !in part && Scannable(RawLines(part + rest))
    ensures |part| < MAX_TOKEN
  {
    SplitStart(part, rest);
    var pieces := Split(part + rest, '\n');
    if part != "" {
      assert RawLines(part + rest)[0] == pieces[0];
    }
  }

  lemma RawLinesOfPart(part: string)
    requires '\n' !in part
    ensures RawLines(part) == Piece(part)
  {
    SplitNoSep(part, '\n');
  }

  /** A cut line as a raw line, if there is anything of it. */
  function Piece(part: string): seq<string> {
    if part == "" then [] else [part]
  }

  lemma ClassifyAppend(raws: seq<string>, more: seq<string>)
    ensures ClassifyAll(raws + more) == ClassifyAll(raws) + ClassifyAll(more)
  {
  }

  lemma ApplyOne(st: State, line: Line)
    ensures ApplyAll(st, [line]) == Apply(st, line)
  {
    assert [line][1..] == [];
  }

  lemma EmptyLineIsIgnored()
    ensures LineOf("") == Ignored
  {
  }

  /** An empty piece says nothing, so every cut line may be counted as a line. */
  lemma PieceApplied(st: State, part: string)
    ensures ApplyAll(st, ClassifyAll(Piece(part))) == Apply(st, LineOf(part))
  {
    if part == "" {
      EmptyLineIsIgnored();
    } else {
      assert ClassifyAll(Piece(part)) == [LineOf(part)];
      ApplyOne(st, LineOf(part));
    }
  }

  lemma CutIsScannable(raws: seq<string>, part: string, rest: string)
    requires '\n' !in part && Scannable(raws + RawLines(part + rest))
    ensures Scannable(raws + Piece(part))
  {
    var more := RawLines(part + rest);
    assert forall i | 0 <= i < |raws| :: (raws + more)[i] == raws[i];
    assert forall i | 0 <= i < |more| :: (raws + more)[|raws| + i] == more[i];
    CutLineFits(part, rest);
  }

  lemma CutParts(output: string, n: nat)
    requires n <= |output|
    ensures OfWholeLines(WholeLines(output, n)) && '\n' !in CutLine(output, n)
    ensures output[..n] == WholeLines(output, n) + CutLine(output, n)
    ensures output == WholeLines(output, n) + CutLine(output, n) + output[n..]
  {
  }

  /** The section that is being read after these lines. */
  function SectionAfter(head: string): string {
    ApplyAll(START, ClassifyAll(RawLines(head))).section
  }

  /** Cut at any byte, a parseable report still parses, and it loses without adding exactly when the cut
      line, read as it stands, names nothing new: no section the report lacks, and no setting that
      its section lacks. */
  lemma ByteCutLosesIff(output: string, n: nat)
    requires n <= |output|
    ensures Parsed(output).Ok? ==>
              && Parsed(output[..n]).Ok?
              && (NamesWithin(Parsed(output[..n]).value, Parsed(output).value)
                  <==> Known(SectionAfter(WholeLines(output, n)), LineOf(CutLine(output, n)), Parsed(output).value))
  {
    var head, part, rest := WholeLines(output, n), CutLine(output, n), output[n..];
    CutParts(output, n);
    assert head + (part + rest) == output;
    CutLosesIff(head, part, rest);
  }

  lemma CutLosesIff(head: string, part: string, rest: string)
    requires OfWholeLines(head) && '\n' !in part
    ensures var output, cut := head + (part + rest), head + part;
            Parsed(output).Ok? ==>
              && Parsed(cut).Ok?
              && (NamesWithin(Parsed(cut).value, Parsed(output).value)
                  <==> Known(SectionAfter(head), LineOf(part), Parsed(output).value))
  {
    RawLinesAppend(head, part);
    RawLinesOfPart(part);
    RawLinesAppend(head, part + rest);
    CutRawsLoseIff(RawLines(head), part, rest);
  }

  lemma CutRawsLoseIff(raws: seq<string>, part: string, rest: string)
    requires '\n' !in part
    ensures var before, more := ApplyAll(START, ClassifyAll(raws)), RawLines(part + rest);
            var whole := ApplyAll(START, ClassifyAll(raws + more)).config;
            Scannable(raws + more) ==>
              && Scannable(raws + Piece(part))
              && (NamesWithin(ApplyAll(START, ClassifyAll(raws + Piece(part))).config, whole)
                  <==> Known(before.section, LineOf(part), whole))
  {
    var before, more := ApplyAll(START, ClassifyAll(raws)), RawLines(part + rest);
    if Scannable(raws + more) {
      CutIsScannable(raws, part, rest);
    }
    ClassifyAppend(raws, Piece(part));
    ClassifyAppend(raws, more);
    ApplyAppend(START, ClassifyAll(raws), ClassifyAll(Piece(part)));
    ApplyAppend(START, ClassifyAll(raws), ClassifyAll(more));
    PieceApplied(before, part);
    StaysInPlace(START, ClassifyAll(raws));
    CutLineLosesIff(before, ClassifyAll(more), LineOf(part));
  }

  // ----- Cuts that add a pool -----

  lemma {:induction false} PoolsHaveHeadings(st: State, lines: seq<Line>, name: string)
    requires InPlace(st)
    ensures name in ApplyAll(st, lines).config.pools ==> name in st.config.pools || Section(name) in lines
    decreases lines
  {
    if lines != [] {
      PoolsHaveHeadings(Apply(st, lines[0]), lines[1..], name);
    }
  }

  /** A report that ends in a heading without its newline. */
  lemma CutAtHeading(doc: seq<Printed>, name: string)
    requires AllWellFormed(doc) && Plain(name) && |name| + 2 < MAX_TOKEN
    requires name != "global" && !Contains("[" + name + "]", NOTICE)
    ensures var cut := Print(doc) + ("[" + name + "]");
            Parsed(cut).Ok? && name in Parsed(cut).value.pools
  {
    var raw := "[" + name + "]";
    HeadingReadsBack(name);
    PrintEndsLines(doc);
    PrintReadsBack(doc);
    RawLinesAppend(Print(doc), raw);
    RawLinesOfPart(raw);
    HeadingAdds(RawLines(Print(doc)), raw, name);
  }

  lemma HeadingReadsBack(name: string)
    requires Plain(name) && |name| + 2 < MAX_TOKEN && !Contains("[" + name + "]", NOTICE)
    ensures LineOf("[" + name + "]") == Section(name) && '\n' !in "[" + name + "]"
  {
    var p := Printed(Heading(name), None, "", "");
    assert PrintLine(p) == "[" + name + "]";
    LineReadsBack(p);
  }

  lemma HeadingAdds(raws: seq<string>, raw: string, name: string)
    requires Scannable(raws) && |raw| < MAX_TOKEN && raw != "" && LineOf(raw) == Section(name) && name != "global"
    ensures Scannable(raws + [raw]) && name in ApplyAll(START, ClassifyAll(raws + [raw])).config.pools
  {
    ClassifyAppend(raws, [raw]);
    ApplyAppend(START, ClassifyAll(raws), ClassifyAll([raw]));
    PieceApplied(ApplyAll(START, ClassifyAll(raws)), raw);
  }

  lemma {:induction false} PrintEndsLines(doc: seq<Printed>)
    ensures OfWholeLines(Print(doc))
  {
    if doc != [] {
      PrintEndsLines(doc[1..]);
    }
  }

  lemma {:induction false} PrintAppend(a: seq<Printed>, b: seq<Printed>)
    ensures Print(a + b) == Print(a) + Print(b)
  {
    if a == [] {
      assert a + b == b;
    } else {
      assert (a + b)[1..] == a[1..] + b;
      PrintAppend(a[1..], b);
    }
  }

  /** A pool of a printed report has a heading. */
  lemma PrintedPools(doc: seq<Printed>, name: string)
    requires AllWellFormed(doc)
    ensures Parsed(Print(doc)).Ok?
    ensures name in Parsed(Print(doc)).value.pools ==> exists i | 0 <= i < |doc| :: doc[i].item == Heading(name)
  {
    PrintReadsBack(doc);
    PoolsHaveHeadings(START, Meanings(doc), name);
    HeadingsAreItems(doc, name);
  }

  lemma HeadingsAreItems(doc: seq<Printed>, name: string)
    ensures Section(name) in Meanings(doc) ==> exists i | 0 <= i < |doc| :: doc[i].item == Heading(name)
  {
    if Section(name) in Meanings(doc) {
      var i :| 0 <= i < |doc| && Meanings(doc)[i] == Section(name);
      assert doc[i].item == Heading(name);
    }
  }

  /** Both texts parse, and the first, a beginning of the second, has a pool that the second lacks. */
  predicate Invents(cut: string, report: string, name: string) {
    && cut <= report
    && Parsed(report).Ok? && name !in Parsed(report).value.pools
    && Parsed(cut).Ok? && name in Parsed(cut).value.pools
  }

  /** Every stamped line is a place where a cut adds a pool: right after the stamp's bracket, it reads as a
      heading named like the stamp. */
  lemma StampCutInventsAPool(doc: seq<Printed>, k: nat, stamp: string)
    requires AllWellFormed(doc) && k < |doc| && doc[k].stamp == Some(stamp)
    requires Plain(stamp) && stamp != "global"
    requires forall i | 0 <= i < |doc| :: doc[i].item != Heading(stamp)
    ensures Invents(Print(doc[..k]) + ("[" + stamp + "]"), Print(doc), stamp)
  {
    PrintedPools(doc, stamp);
    var rest := StampEnds(doc, k, stamp);
    Begins(Print(doc[..k]) + ("[" + stamp + "]"), rest);
    CutAfterStamp(doc, k, stamp);
  }

  lemma CutAfterStamp(doc: seq<Printed>, k: nat, stamp: string)
    requires AllWellFormed(doc) && k < |doc| && doc[k].stamp == Some(stamp)
    requires Plain(stamp) && stamp != "global"
    ensures var cut := Print(doc[..k]) + ("[" + stamp + "]");
            Parsed(cut).Ok? && stamp in Parsed(cut).value.pools
  {
    FirstLinesAreWellFormed(doc, k);
    StampFits(doc[k], stamp);
    NoNoticeInStamp(stamp);
    CutAtHeading(doc[..k], stamp);
  }

  lemma FirstLinesAreWellFormed(doc: seq<Printed>, k: nat)
    requires AllWellFormed(doc) && k < |doc|
    ensures AllWellFormed(doc[..k]) && WellFormed(doc[k])
  {
  }

  lemma StampFits(p: Printed, stamp: string)
    requires WellFormed(p) && p.stamp == Some(stamp)
    ensures |stamp| + 2 < MAX_TOKEN && ']' !in stamp
  {
    var rest := StampStarts(p, stamp);
  }

  lemma StampEnds(doc: seq<Printed>, k: nat, stamp: string) returns (rest: string)
    requires k < |doc| && doc[k].stamp == Some(stamp)
    ensures Print(doc) == Print(doc[..k]) + ("[" + stamp + "]") + rest
  {
    var p := doc[k];
    PrintAppend(doc[..k], doc[k..]);
    assert doc == doc[..k] + doc[k..] && doc[k..][0] == p && doc[k..][1..] == doc[k + 1..];
    var inLine := StampStarts(p, stamp);
    rest := inLine + (['\n'] + Print(doc[k + 1..]));
    Regroup(Print(doc[..k]), "[" + stamp + "]", inLine, ['\n'], Print(doc[k + 1..]));
  }

  lemma Regroup(a: string, b: string, c: string, d: string, e: string)
    ensures a + ((b + c) + d + e) == a + b + (c + (d + e))
  {
  }

  lemma Begins(a: string, b: string)
    ensures a <= a + b
  {
  }

  lemma NoNoticeInStamp(stamp: string)
    requires ']' !in stamp
    ensures !Contains("[" + stamp + "]", NOTICE)
  {
    var s := "[" + stamp + "]";
    OccurrenceChars(s, NOTICE, Index(s, NOTICE));
    assert NOTICE[0] == ']' && NOTICE[1] == ' ';
    assert forall i | 0 <= i < |s| - 1 :: s[i] == if i == 0 then '[' else stamp[i - 1];
  }

  lemma StampStarts(p: Printed, stamp: string) returns (rest: string)
    requires p.stamp == Some(stamp)
    ensures PrintLine(p) == ("[" + stamp + "]") + rest
  {
    rest := " NOTICE:" + p.indent + Core(p.item) + p.tail;
    assert NOTICE == "]" + " NOTICE:";
  }

  /** So does a cut inside a heading that has a bracket in its name. */
  lemma ByteCutInventsAPool(a: string, b: string)
    requires Plain(a) && Plain(b) && a != "global" && |a| + |b| + 3 < MAX_TOKEN
    requires !Contains("[" + (a + "]" + b) + "]", NOTICE)
    ensures Invents("[" + a + "]", "[" + (a + "]" + b) + "]" + "\n", a)
  {
    var name := a + "]" + b;
    var doc := [Printed(Heading(name), None, "", "")];
    PlainJoin(a, b);
    assert PrintLine(doc[0]) == "[" + name + "]";
    assert WellFormed(doc[0]);
    assert doc[1..] == [];
    assert Print(doc) == "[" + name + "]" + "\n";
    PrintedPools(doc, a);
    CutHeading(a, b);
    NoNoticeInCut(a, b);
    CutAtHeading([], a);
    assert Print([]) + ("[" + a + "]") == "[" + a + "]";
  }

  lemma NoNoticeInCut(a: string, b: string)
    requires !Contains("[" + (a + "]" + b) + "]", NOTICE)
    ensures !Contains("[" + a + "]", NOTICE)
  {
    var s, t := "[" + a + "]", "[" + (a + "]" + b) + "]";
    var i := Index(s, NOTICE);
    assert t[..|s|] == s;
    if i >= 0 {
      assert t[i..i + |NOTICE|] == s[i..i + |NOTICE|];
      assert OccursAt(t, NOTICE, i);
    }
  }

  lemma PlainJoin(a: string, b: string)
    requires Plain(a) && Plain(b)
    ensures Plain(a + "]" + b) && a + "]" + b != a
  {
    var s := a + "]" + b;
    assert |s| > |a|;
    forall i | 0 <= i < |s|
      ensures s[i] == if i < |a| then a[i] else if i == |a| then ']' else b[i - |a| - 1]
    {
    }
  }

  lemma CutHeading(a: string, b: string)
    ensures ("[" + (a + "]" + b) + "]" + "\n")[..|a| + 2] == "[" + a + "]"
  {
  }
}
