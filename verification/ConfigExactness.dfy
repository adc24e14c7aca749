/** Exactly which settings survive being printed and parsed back: the clean-up of a line only ever deletes,
    so a setting that comes back whole had nothing in it that the clean-up deletes. */
module ConfigExactness {
  import opened Text
  import opened Wrappers
  import opened ConfigParser
  import opened ConfigPrinter

  /** How many characters of `s` are not blanks. */
  function Ink(s: string): nat {
    if s == "" then 0 else Ink(s[..|s| - 1]) + if s[|s| - 1] == ' ' then 0 else 1
  }

  lemma {:induction false} InkAppend(s: string, t: string)
    ensures Ink(s + t) == Ink(s) + Ink(t)
  {
    if t == "" {
      assert s + t == s;
    } else {
      assert (s + t)[..|s + t| - 1] == s + t[..|t| - 1];
      InkAppend(s, t[..|t| - 1]);
    }
  }

  lemma {:induction false} InkIsCounted(s: string)
    ensures Ink(s) <= |s|
    ensures (forall i | 0 <= i < |s| :: s[i] != ' ') ==> Ink(s) == |s|
    ensures Ink(s) == 0 ==> forall i | 0 <= i < |s| :: s[i] == ' '
  {
    if s != "" {
      var front := s[..|s| - 1];
      InkIsCounted(front);
      assert forall i | 0 <= i < |front| :: s[i] == front[i];
    }
  }

  // ----- Deleting loses ink -----

  lemma {:induction false} TrimLeftCuts(s: string, cut: set<char>) returns (l: string)
    ensures s == l + TrimLeft(s, cut) && AllIn(l, cut)
    ensures TrimLeft(s, cut) == "" || TrimLeft(s, cut)[0] !in cut
  {
    if s != "" && s[0] in cut {
      var l' := TrimLeftCuts(s[1..], cut);
      l := [s[0]] + l';
    } else {
      l := "";
    }
  }

  lemma {:induction false} TrimRightCuts(s: string, cut: set<char>) returns (r: string)
    ensures s == TrimRight(s, cut) + r && AllIn(r, cut)
    ensures TrimRight(s, cut) == "" || TrimRight(s, cut)[|TrimRight(s, cut)| - 1] !in cut
    ensures TrimRight(s, cut) != "" ==> TrimRight(s, cut)[0] == s[0]
  {
    if s != "" && s[|s| - 1] in cut {
      var r' := TrimRightCuts(s[..|s| - 1], cut);
      r := r' + [s[|s| - 1]];
    } else {
      r := "";
    }
  }

  /** What trimming takes away, and what it leaves. */
  lemma TrimCuts(s: string, cut: set<char>) returns (l: string, r: string)
    ensures s == l + Trim(s, cut) + r
    ensures AllIn(l, cut) && AllIn(r, cut) && Trimmed(Trim(s, cut), cut)
    ensures |Trim(s, cut)| + |l| + |r| == |s|
    ensures Ink(s) == Ink(l) + Ink(Trim(s, cut)) + Ink(r)
  {
    l := TrimLeftCuts(s, cut);
    r := TrimRightCuts(TrimLeft(s, cut), cut);
    InkOfThree(l, Trim(s, cut), r);
    assert l + (Trim(s, cut) + r) == l + Trim(s, cut) + r;
  }

  lemma InkOfThree(l: string, m: string, r: string)
    ensures Ink(l + m + r) == Ink(l) + Ink(m) + Ink(r)
  {
    InkAppend(l, m);
    InkAppend(l + m, r);
  }

  lemma {:induction false} RemoveAllLosesInk(s: string, pat: string)
    requires pat != "" && Ink(pat) > 0
    ensures Ink(RemoveAll(s, pat)) <= Ink(s)
    ensures Ink(RemoveAll(s, pat)) == Ink(s) ==> RemoveAll(s, pat) == s && forall i :: !OccursAt(s, pat, i)
    decreases |s|
  {
    if |s| >= |pat| {
      if s[..|pat|] == pat {
        assert s == pat + s[|pat|..];
        InkAppend(pat, s[|pat|..]);
        RemoveAllLosesInk(s[|pat|..], pat);
      } else {
        var rest := s[1..];
        assert s == [s[0]] + rest;
        InkAppend([s[0]], rest);
        InkAppend([s[0]], RemoveAll(rest, pat));
        RemoveAllLosesInk(rest, pat);
        forall i
          ensures OccursAt(s, pat, i) ==> OccursAt(rest, pat, i - 1)
        {
          if OccursAt(s, pat, i) {
            assert i > 0;
            OccursInTail(s, pat, i - 1);
          }
        }
      }
    }
  }

  lemma TrimQuotesLosesInk(s: string)
    ensures Ink(Trim(s, QUOTE)) <= Ink(s)
    ensures Ink(Trim(s, QUOTE)) == Ink(s) ==> Trim(s, QUOTE) == s && Trimmed(s, QUOTE)
  {
    var l, r := TrimCuts(s, QUOTE);
    InkIsCounted(l);
    InkIsCounted(r);
  }

  /** A clean-up that loses no ink changed nothing but the blanks around the line. */
  lemma CleanUpLosesInk(core: string)
    ensures Ink(CleanUp(TrimSpace(core))) <= Ink(core)
    ensures Ink(CleanUp(TrimSpace(core))) == Ink(core) ==>
              var t := TrimSpace(core);
              && CleanUp(t) == t && Trimmed(t, QUOTE)
              && (forall i :: !OccursAt(t, "\\t", i)) && (forall i :: !OccursAt(t, "\t", i))
  {
    var t := TrimSpace(core);
    var escaped, tab := "\\t", "\t";
    assert escaped[0] == '\\' && escaped[1] == 't' && tab[0] == '\t';
    InkIsCounted(escaped);
    InkIsCounted(tab);
    var l, r := TrimCuts(core, SPACES);
    RemoveAllLosesInk(t, escaped);
    RemoveAllLosesInk(RemoveAll(t, escaped), tab);
    TrimQuotesLosesInk(RemoveAll(RemoveAll(t, escaped), tab));
    var l', r' := TrimCuts(Trim(RemoveAll(RemoveAll(t, escaped), tab), QUOTE), SPACES);
    TrimTrimmed(t, SPACES);
  }

  // ----- What comes back whole -----

  lemma TrimmedPartsLoseInk(text: string)
    ensures Ink(Trim(TrimSpace(text), QUOTE)) <= Ink(text)
    ensures '=' !in text ==> '=' !in Trim(TrimSpace(text), QUOTE)
  {
    var l, r := TrimCuts(text, SPACES);
    var l', r' := TrimCuts(TrimSpace(text), QUOTE);
    var inner := Trim(TrimSpace(text), QUOTE);
    assert forall i | 0 <= i < |inner| :: inner[i] == TrimSpace(text)[|l'| + i];
    assert forall i | 0 <= i < |TrimSpace(text)| :: TrimSpace(text)[i] == text[|l| + i];
  }

  /** A part that comes back out of at most one blank more than itself was bare. */
  lemma PaddedIsBare(text: string, part: string)
    requires part != "" && part == Trim(TrimSpace(text), QUOTE) && |text| <= |part| + 1
    requires text[0] == ' ' || text[|text| - 1] == ' '
    ensures |text| == |part| + 1 && Bare(part)
  {
    var l, r := TrimCuts(text, SPACES);
    var l', r' := TrimCuts(TrimSpace(text), QUOTE);
    var inner := TrimSpace(text);
    LastOf(l, inner, r);
    assert l == "" ==> text[0] == (inner + r)[0];
    assert inner == l' + part + r';
    assert l' == "" && r' == "";
    assert inner == part;
  }

  lemma FirstOccurrence(s: string, pat: string)
    requires |pat| == 1
    ensures var at := Index(s, pat);
            at >= 0 ==> at < |s| && s[at] == pat[0] && pat[0] !in s[..at] && s == s[..at] + pat + s[at + 1..]
  {
    var at := Index(s, pat);
    OccurrenceChars(s, pat, at);
    forall j | 0 <= j < at
      ensures s[j] != pat[0]
    {
      CharOccurs(s, pat, j);
    }
  }

  lemma CharOccurs(s: string, pat: string, i: int)
    requires |pat| == 1 && 0 <= i < |s|
    ensures OccursAt(s, pat, i) <==> s[i] == pat[0]
  {
    assert s[i..i + 1] == [s[i]];
  }

  // ----- The last character -----

  predicate EndsIn(s: string, c: char) {
    s != "" && s[|s| - 1] == c
  }

  lemma TrimKeepsEnd(s: string, cut: set<char>, c: char)
    requires EndsIn(s, c) && c !in cut
    ensures EndsIn(Trim(s, cut), c)
  {
    var l, r := TrimCuts(s, cut);
    LastOf(l, Trim(s, cut), r);
  }

  lemma LastOf(l: string, m: string, r: string)
    ensures var s := l + m + r;
            s != "" ==> s[|s| - 1] == if r != "" then r[|r| - 1] else if m != "" then m[|m| - 1] else l[|l| - 1]
  {
  }

  lemma {:induction false} RemoveAllKeepsEnd(s: string, pat: string, c: char)
    requires pat != "" && EndsIn(s, c) && c !in pat
    ensures EndsIn(RemoveAll(s, pat), c)
    decreases |s|
  {
    if |s| >= |pat| {
      if s[..|pat|] == pat {
        assert s[|pat| - 1] == pat[|pat| - 1];
        RemoveAllKeepsEnd(s[|pat|..], pat, c);
      } else if |s| > 1 {
        RemoveAllKeepsEnd(s[1..], pat, c);
      }
    }
  }

  lemma CleanUpKeepsEnd(core: string, c: char)
    requires EndsIn(core, c) && c !in SPACES && c !in {'"', '\\', 't'}
    ensures EndsIn(CleanUp(TrimSpace(core)), c)
  {
    var escaped, tab := "\\t", "\t";
    assert c !in escaped && c !in tab;
    TrimKeepsEnd(core, SPACES, c);
    RemoveAllKeepsEnd(TrimSpace(core), escaped, c);
    RemoveAllKeepsEnd(RemoveAll(TrimSpace(core), escaped), tab, c);
    var bare := RemoveAll(RemoveAll(TrimSpace(core), escaped), tab);
    TrimKeepsEnd(bare, QUOTE, c);
    TrimKeepsEnd(Trim(bare, QUOTE), SPACES, c);
  }

  // ----- Taking a printed setting apart -----

  lemma CoreParts(key: string, value: string)
    ensures Core(Entry(key, value)) == KeyText(key) + "=" + (" " + Shown(value))
    ensures Ink(Core(Entry(key, value))) == Ink(key) + 1 + Ink(Shown(value))
  {
    var text, shown := KeyText(key), Shown(value);
    var blank, sign := " ", "=";
    assert Core(Entry(key, value)) == text + sign + (blank + shown);
    InkAppend(text + sign, blank + shown);
    InkAppend(text, sign);
    InkAppend(blank, shown);
    InkAppend(key, blank);
    assert blank[..0] == "" && sign[..0] == "";
  }

  lemma SplitIsUnique(a: string, b: string, c: string, d: string)
    requires a + "=" + b == c + "=" + d && '=' !in a && '=' !in c
    ensures a == c && b == d
  {
    EqualsIsFound(a, b);
    EqualsIsFound(c, d);
    var s, t := a + "=" + b, c + "=" + d;
    assert s[..|a|] == a && t[..|c|] == c && s[|a| + 1..] == b && t[|c| + 1..] == d;
  }

  /** The halves of a cleaned line that reads as a setting whose value, if empty, was printed at its end. */
  lemma HalvesOf(key: string, value: string, raw: string, line: string) returns (text: string, rest: string)
    requires line == CleanUp(TrimSpace(raw)) && Classify(line) == Setting(key, value)
    requires value == "" ==> EndsIn(raw, 'd')
    ensures line == text + "=" + rest && '=' !in text && '=' !in key
    ensures key == Trim(TrimSpace(text), QUOTE) && Shown(value) == Trim(TrimSpace(rest), QUOTE)
    ensures value != "undefined"
  {
    var sign := "=";
    var eq := Index(line, sign);
    FirstOccurrence(line, sign);
    text, rest := line[..eq], line[eq + 1..];
    TrimmedPartsLoseInk(text);
    if value == "" {
      CleanUpKeepsEnd(raw, 'd');
      assert EndsIn(rest, 'd');
      TrimKeepsEnd(rest, SPACES, 'd');
      TrimKeepsEnd(TrimSpace(rest), QUOTE, 'd');
    }
  }

  lemma CoreEndsShown(key: string, value: string)
    ensures value == "" ==> EndsIn(Core(Entry(key, value)), 'd')
  {
    if value == "" {
      var core := Core(Entry(key, value));
      assert core[|core| - 1] == "undefined"[8];
    }
  }

  /** A line that reads as a setting has all the ink of that setting. */
  lemma InkOfReadBack(key: string, value: string, raw: string, line: string)
    requires line == CleanUp(TrimSpace(raw)) && Classify(line) == Setting(key, value)
    requires value == "" ==> EndsIn(raw, 'd')
    ensures Ink(line) >= Ink(Core(Entry(key, value)))
  {
    var text, rest := HalvesOf(key, value, raw, line);
    CoreParts(key, value);
    TrimmedPartsLoseInk(text);
    TrimmedPartsLoseInk(rest);
    InkOfHalves(text, rest);
  }

  /** Nothing but blanks was lost on the way. */
  lemma NoInkIsLost(key: string, value: string, line: string, text: string, rest: string)
    requires line == CleanUp(TrimSpace(Core(Entry(key, value)))) && line == text + "=" + rest
    requires key == Trim(TrimSpace(text), QUOTE) && Shown(value) == Trim(TrimSpace(rest), QUOTE)
    ensures line == TrimSpace(Core(Entry(key, value))) && Ink(line) == Ink(Core(Entry(key, value)))
    ensures (forall i :: !OccursAt(line, "\\t", i)) && (forall i :: !OccursAt(line, "\t", i))
  {
    CoreParts(key, value);
    TrimmedPartsLoseInk(text);
    TrimmedPartsLoseInk(rest);
    InkOfHalves(text, rest);
    CleanUpLosesInk(Core(Entry(key, value)));
  }

  lemma OnlyBlanksAround(s: string) returns (l: string, r: string)
    requires Ink(TrimSpace(s)) == Ink(s)
    ensures s == l + TrimSpace(s) + r
    ensures Blank(l) && Blank(r)
  {
    l, r := TrimCuts(s, SPACES);
    InkIsCounted(l);
    InkIsCounted(r);
  }

  predicate Blank(s: string) {
    forall i | 0 <= i < |s| :: s[i] == ' '
  }

  /** Two halves that come back whole, with nothing but blanks cut off around them. */
  lemma NoBlankIsLost(key: string, shown: string, l: string, text: string, rest: string, r: string)
    requires KeyText(key) + "=" + (" " + shown) == l + (text + "=" + rest) + r && Blank(l) && Blank(r)
    requires '=' !in key && '=' !in text && shown != ""
    requires key == Trim(TrimSpace(text), QUOTE) && shown == Trim(TrimSpace(rest), QUOTE)
    ensures l == "" && r == "" && Bare(key) && Bare(shown)
  {
    assert l + (text + "=" + rest) + r == (l + text) + "=" + (rest + r);
    SplitIsUnique(KeyText(key), " " + shown, l + text, rest + r);
    ValueIsBare(shown, rest, r);
    KeyIsBare(key, l, text);
  }

  lemma ValueIsBare(shown: string, rest: string, r: string)
    requires " " + shown == rest + r && shown != "" && shown == Trim(TrimSpace(rest), QUOTE)
    ensures r == "" && Bare(shown)
  {
    assert rest != "" && (rest + r)[0] == ' ' && |rest + r| == |shown| + 1;
    PaddedIsBare(rest, shown);
  }

  lemma KeyIsBare(key: string, l: string, text: string)
    requires KeyText(key) == l + text && key == Trim(TrimSpace(text), QUOTE)
    ensures l == "" && Bare(key)
  {
    if key != "" {
      assert text != "" && (l + text)[|l + text| - 1] == ' ' && |l + text| == |key| + 1;
      PaddedIsBare(text, key);
    }
  }

  /** The line is the text that was printed. */
  lemma LineIsWhole(key: string, value: string, line: string)
    requires line == CleanUp(TrimSpace(Core(Entry(key, value)))) && Classify(line) == Setting(key, value)
    ensures line == Core(Entry(key, value)) && Bare(key) && Bare(Shown(value))
    ensures (forall i :: !OccursAt(line, "\\t", i)) && (forall i :: !OccursAt(line, "\t", i))
    ensures '=' !in key && value != "undefined"
  {
    CoreEndsShown(key, value);
    var text, rest := HalvesOf(key, value, Core(Entry(key, value)), line);
    NoInkIsLost(key, value, line, text, rest);
    TrimmedIsWhole(key, value, line, text, rest);
  }

  lemma TrimmedIsWhole(key: string, value: string, line: string, text: string, rest: string)
    requires line == TrimSpace(Core(Entry(key, value))) && Ink(line) == Ink(Core(Entry(key, value)))
    requires line == text + "=" + rest && '=' !in text && '=' !in key
    requires key == Trim(TrimSpace(text), QUOTE) && Shown(value) == Trim(TrimSpace(rest), QUOTE)
    ensures line == Core(Entry(key, value)) && Bare(key) && Bare(Shown(value))
  {
    var l, r := OnlyBlanksAround(Core(Entry(key, value)));
    CoreParts(key, value);
    NoBlankIsLost(key, Shown(value), l, text, rest, r);
    assert "" + line + "" == line;
  }

  lemma InkOfHalves(text: string, rest: string)
    ensures Ink(text + "=" + rest) == Ink(text) + 1 + Ink(rest)
  {
    var sign := "=";
    InkAppend(text + sign, rest);
    InkAppend(text, sign);
    assert sign[..0] == "";
  }

  lemma PlainParts(key: string, value: string)
    requires '\n' !in key && '\n' !in value
    requires var core := Core(Entry(key, value));
             (forall i :: !OccursAt(core, "\\t", i)) && (forall i :: !OccursAt(core, "\t", i))
    ensures Plain(key) && Plain(value)
  {
    var core, text, shown := Core(Entry(key, value)), KeyText(key), Shown(value);
    NothingEscaped(core);
    CoreParts(key, value);
    PartIsPlain("", key, (if key == "" then "" else " ") + "= " + shown, core);
    PartIsPlain(text + "= ", shown, "", core);
  }

  lemma PartIsPlain(before: string, part: string, after: string, s: string)
    requires s == before + part + after
    requires '\t' !in s && forall i | 0 <= i < |s| - 1 :: !(s[i] == '\\' && s[i + 1] == 't')
    ensures '\n' !in part ==> Plain(part)
  {
    var n := |before|;
    assert forall i | 0 <= i < |part| :: part[i] == s[n + i];
  }

  lemma NothingEscaped(s: string)
    requires (forall i :: !OccursAt(s, "\\t", i)) && (forall i :: !OccursAt(s, "\t", i))
    ensures '\t' !in s && forall i | 0 <= i < |s| - 1 :: !(s[i] == '\\' && s[i + 1] == 't')
  {
    var tab := "\t";
    forall i | 0 <= i < |s|
      ensures s[i] != '\t'
    {
      CharOccurs(s, tab, i);
    }
    forall i | 0 <= i < |s| - 1
      ensures !(s[i] == '\\' && s[i + 1] == 't')
    {
      assert s[i..i + 2] == [s[i], s[i + 1]];
      assert !OccursAt(s, "\\t", i);
    }
  }

  lemma EndsOfCore(key: string, value: string)
    ensures var core := Core(Entry(key, value));
            && (key != "" ==> core[0] == key[0])
            && (value != "" ==> core[|core| - 1] == value[|value| - 1])
  {
  }

  lemma SettingsAreNotMarked(line: string)
    requires Classify(line).Setting?
    ensures line != "" && line[0] != ';' && !(line[0] == '[' && line[|line| - 1] == ']')
  {
  }

  lemma WholeSettingIsOk(key: string, value: string)
    requires '\n' !in key && '\n' !in value
    requires Classify(CleanUp(TrimSpace(Core(Entry(key, value))))) == Setting(key, value)
    ensures SettingOk(key, value)
  {
    var line := CleanUp(TrimSpace(Core(Entry(key, value))));
    LineIsWhole(key, value, line);
    PlainParts(key, value);
    EndsOfCore(key, value);
    SettingsAreNotMarked(line);
  }

  // ----- The line as printed -----

  lemma TrimDropsCR(s: string)
    ensures TrimSpace(DropCR(s)) == TrimSpace(s)
  {
    var l, r := TrimCuts(s, SPACES);
    var m := TrimSpace(s);
    LastOf(l, m, r);
    if s != "" && s[|s| - 1] == '\r' {
      if r != "" {
        assert DropCR(s) == l + m + r[..|r| - 1];
        TrimPadded(l, m, r[..|r| - 1], SPACES);
      } else {
        assert DropCR(s) == l[..|l| - 1] + "" + "";
        TrimPadded(l[..|l| - 1], "", "", SPACES);
      }
    }
  }

  lemma Regroup(head: string, indent: string, l: string, m: string, r: string, tail: string)
    ensures head + indent + (l + m + r) + tail == head + (indent + l) + m + (r + tail)
  {
  }

  lemma StampedLineUnstamps(stamp: string, indent: string, core: string, tail: string)
    requires AllIn(indent, PADDING) && AllIn(tail, PADDING) && ']' !in stamp
    ensures Unstamp(DropCR("[" + stamp + NOTICE + indent + core + tail)) == TrimSpace(core)
  {
    var l, r := TrimCuts(core, SPACES);
    var line := "[" + stamp + NOTICE + indent + core + tail;
    TrimDropsCR(line);
    Regroup("[" + stamp + NOTICE, indent, l, TrimSpace(core), r, tail);
    UnstampStampedLine(stamp, indent + l, TrimSpace(core), r + tail);
  }

  lemma PaddedCoreTrims(indent: string, core: string, tail: string)
    requires AllIn(indent, PADDING) && AllIn(tail, PADDING)
    ensures TrimSpace(DropCR(indent + core + tail)) == TrimSpace(core)
  {
    var l, r := TrimCuts(core, SPACES);
    TrimDropsCR(indent + core + tail);
    Regroup("", indent, l, TrimSpace(core), r, tail);
    assert "" + indent == indent && "" + (indent + l) == indent + l;
    TrimPadded(indent + l, TrimSpace(core), r + tail, SPACES);
  }

  /** A setting that holds the text of a stamp's end loses what is before it, and so never comes back. */
  lemma StampInsideIsLost(key: string, value: string, trimmed: string)
    requires trimmed == TrimSpace(Core(Entry(key, value))) && Contains(trimmed, NOTICE)
    ensures var after := trimmed[Index(trimmed, NOTICE) + |NOTICE|..];
            Classify(CleanUp(TrimSpace(after))) != Setting(key, value)
  {
    var core, at := Core(Entry(key, value)), Index(trimmed, NOTICE);
    var before, after := trimmed[..at], trimmed[at + |NOTICE|..];
    var line := CleanUp(TrimSpace(after));
    assert trimmed == before + NOTICE + after;
    InkOfThree(before, NOTICE, after);
    NoticeHasInk();
    var l, r := TrimCuts(core, SPACES);
    CleanUpLosesInk(after);
    EndAfterStamp(key, value, trimmed, before, after);
    if Classify(line) == Setting(key, value) {
      EmptyIsIgnored(after, line);
      InkOfReadBack(key, value, after, line);
    }
  }

  lemma NoticeHasInk()
    ensures Ink(NOTICE) > 0 && EndsIn(NOTICE, ':')
  {
    InkIsCounted(NOTICE);
  }

  lemma EmptyIsIgnored(after: string, line: string)
    requires line == CleanUp(TrimSpace(after))
    ensures after == "" ==> Classify(line).Ignored?
  {
  }

  lemma EndAfterStamp(key: string, value: string, trimmed: string, before: string, after: string)
    requires trimmed == TrimSpace(Core(Entry(key, value))) && trimmed == before + NOTICE + after
    ensures value == "" && after != "" ==> EndsIn(after, 'd')
  {
    CoreEndsShown(key, value);
    if value == "" {
      TrimKeepsEnd(Core(Entry(key, value)), SPACES, 'd');
      LastOf(before, NOTICE, after);
    }
  }

  /** A line, once trimmed, is cut after the end of a stamp if it holds one. */
  lemma LineMeans(line: string, trimmed: string)
    requires TrimSpace(DropCR(line)) == trimmed
    ensures Contains(trimmed, NOTICE) ==>
              LineOf(line) == Classify(CleanUp(TrimSpace(trimmed[Index(trimmed, NOTICE) + |NOTICE|..])))
    ensures !Contains(trimmed, NOTICE) ==> LineOf(line) == Classify(CleanUp(trimmed))
  {
  }

  lemma OkIsTrimmed(key: string, value: string)
    requires SettingOk(key, value)
    ensures TrimSpace(Core(Entry(key, value))) == Core(Entry(key, value))
  {
    CoreIsPlain(Entry(key, value));
    TrimTrimmed(Core(Entry(key, value)), SPACES);
  }

  lemma UnstampedReadsBackIff(indent: string, key: string, value: string, tail: string)
    requires AllIn(indent, PADDING) && AllIn(tail, PADDING)
    requires '\n' !in key && '\n' !in value
    ensures LineOf(indent + Core(Entry(key, value)) + tail) == Setting(key, value)
       <==> SettingOk(key, value) && !Contains(Core(Entry(key, value)), NOTICE)
  {
    PaddedCoreTrims(indent, Core(Entry(key, value)), tail);
    TrimmedReadsBackIff(key, value, indent + Core(Entry(key, value)) + tail, TrimSpace(Core(Entry(key, value))));
  }

  lemma TrimmedReadsBackIff(key: string, value: string, line: string, trimmed: string)
    requires '\n' !in key && '\n' !in value
    requires trimmed == TrimSpace(Core(Entry(key, value))) && TrimSpace(DropCR(line)) == trimmed
    ensures LineOf(line) == Setting(key, value)
       <==> SettingOk(key, value) && !Contains(Core(Entry(key, value)), NOTICE)
  {
    LineMeans(line, trimmed);
    if SettingOk(key, value) {
      OkIsTrimmed(key, value);
    }
    if Contains(trimmed, NOTICE) {
      StampInsideIsLost(key, value, trimmed);
    } else {
      CleanReadsBackIff(key, value);
    }
  }

  lemma CleanReadsBackIff(key: string, value: string)
    requires '\n' !in key && '\n' !in value
    ensures Classify(CleanUp(TrimSpace(Core(Entry(key, value))))) == Setting(key, value) <==> SettingOk(key, value)
  {
    var core := Core(Entry(key, value));
    if SettingOk(key, value) {
      CoreIsPlain(Entry(key, value));
      TrimTrimmed(core, SPACES);
      CleanUpLeavesPlain(core);
      ClassifyReadsEntry(key, value);
    }
    if Classify(CleanUp(TrimSpace(core))) == Setting(key, value) {
      WholeSettingIsOk(key, value);
    }
  }

  /** A printed setting is read back as itself exactly when key and value hold nothing the clean-up would
      delete, the key no equals sign, the line does not look like a comment or a heading, and, if it is
      not stamped, it does not hold the end of a stamp. */
  lemma SettingReadsBackIff(stamp: Option<string>, indent: string, key: string, value: string, tail: string)
    requires AllIn(indent, PADDING) && AllIn(tail, PADDING) && (stamp.Some? ==> ']' !in stamp.value)
    requires '\n' !in key && '\n' !in value
    ensures LineOf(PrintLine(Printed(Entry(key, value), stamp, indent, tail))) == Setting(key, value)
       <==> SettingOk(key, value) && (stamp.None? ==> !Contains(Core(Entry(key, value)), NOTICE))
  {
    var core := Core(Entry(key, value));
    var line := PrintLine(Printed(Entry(key, value), stamp, indent, tail));
    if stamp.Some? {
      assert line == "[" + stamp.value + NOTICE + indent + core + tail;
      StampedLineUnstamps(stamp.value, indent, core, tail);
      CleanReadsBackIff(key, value);
    } else {
      assert line == indent + core + tail;
      UnstampedReadsBackIff(indent, key, value, tail);
    }
  }
}
