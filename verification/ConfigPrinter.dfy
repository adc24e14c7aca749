/** The report `php-fpm -tt` writes, as a printer, and the proof that the parser inverts it. */
module ConfigPrinter {
  import opened Text
  import opened Wrappers
  import opened ConfigParser

  // ----- Printing -----

  /** What one line of a report says. */
  datatype Item = Heading(name: string) | Entry(key: string, value: string) | Comment(text: string) | Blank

  /** A line as printed: the item, the log stamp in front of it if any, and the padding around it. */
  datatype Printed = Printed(item: Item, stamp: Option<string>, indent: string, tail: string)

  const PADDING: set<char> := {' ', '\t'}

  function Shown(value: string): string {
    if value == "" then "undefined" else value
  }

  /** A key and the space after it; before an unnamed setting that space is part of the padding. */
  function KeyText(key: string): string {
    if key == "" then "" else key + " "
  }

  function Core(item: Item): string {
    match item
    case Heading(name) => "[" + name + "]"
    case Entry(key, value) => KeyText(key) + "= " + Shown(value)
    case Comment(text) => ";" + text
    case Blank => ""
  }

  function Stamp(stamp: Option<string>): string {
    if stamp.Some? then "[" + stamp.value + NOTICE else ""
  }

  function PrintLine(p: Printed): string {
    Stamp(p.stamp) + p.indent + Core(p.item) + p.tail
  }

  function Print(doc: seq<Printed>): string {
    if doc == [] then "" else PrintLine(doc[0]) + ['\n'] + Print(doc[1..])
  }

  // ----- Well-formedness -----

  /** Text the parser's clean-up leaves alone: no newline, no tab, no backslash followed by `t`. */
  predicate Plain(s: string) {
    && '\n' !in s && '\t' !in s
    && forall i | 0 <= i < |s| - 1 :: !(s[i] == '\\' && s[i + 1] == 't')
  }

  /** Neither padded nor quoted. */
  predicate Bare(s: string) {
    Trimmed(s, SPACES) && Trimmed(s, QUOTE)
  }

  /** Which settings a report can carry. */
  predicate SettingOk(key: string, value: string) {
    && Plain(key) && Bare(key) && '=' !in key
    && Plain(value) && Bare(value) && value != "undefined"
    && (key != "" ==> key[0] != ';' && !(key[0] == '[' && value != "" && value[|value| - 1] == ']'))
  }

  predicate ItemOk(item: Item) {
    match item
    case Heading(name) => Plain(name)
    case Entry(key, value) => SettingOk(key, value)
    case Comment(text) => Plain(text) && Bare(";" + text)
    case Blank => true
  }

  predicate WellFormed(p: Printed) {
    && ItemOk(p.item)
    && AllIn(p.indent, PADDING) && AllIn(p.tail, PADDING)
    && (p.stamp.Some? ==> ']' !in p.stamp.value && '\n' !in p.stamp.value)
    && (p.stamp.None? ==> !Contains(Core(p.item), NOTICE))
    && |PrintLine(p)| < MAX_TOKEN
  }

  // ----- One line reads back -----

  function Meaning(item: Item): Line {
    match item
    case Heading(name) => Section(name)
    case Entry(key, value) => Setting(key, value)
    case Comment(_) => Ignored
    case Blank => Ignored
  }

  lemma EntryIsPlain(key: string, value: string)
    requires SettingOk(key, value)
    ensures Plain(Core(Entry(key, value))) && Bare(Core(Entry(key, value)))
  {
    var s, shown, text, n := Core(Entry(key, value)), Shown(value), KeyText(key), |KeyText(key)|;
    assert Plain(shown) && Bare(shown) && shown != "";
    assert s == text + ['=', ' '] + shown;
    forall i | 0 <= i < |s|
      ensures s[i] == if i < n then text[i] else if i < n + 2 then ['=', ' '][i - n] else shown[i - n - 2]
    {
    }
    forall i | 0 <= i < |s| - 1
      ensures !(s[i] == '\\' && s[i + 1] == 't')
    {
    }
  }

  lemma CoreIsPlain(item: Item)
    requires ItemOk(item)
    ensures Plain(Core(item)) && Bare(Core(item))
  {
    if item.Entry? {
      EntryIsPlain(item.key, item.value);
    }
  }

  lemma CleanUpLeavesPlain(core: string)
    requires Plain(core) && Bare(core)
    ensures CleanUp(core) == core
  {
    var escaped, tab := "\\t", "\t";
    assert escaped[0] == '\\' && escaped[1] == 't' && tab[0] == '\t';
    forall i
      ensures !OccursAt(core, escaped, i) && !OccursAt(core, tab, i)
    {
      OccurrenceChars(core, escaped, i);
      OccurrenceChars(core, tab, i);
    }
    RemoveAllAbsent(core, escaped);
    RemoveAllAbsent(core, tab);
    TrimTrimmed(core, QUOTE);
    TrimTrimmed(core, SPACES);
  }

  /** The stamp's own `] NOTICE:` is the one the parser finds, whatever follows it. */
  lemma StampIsFound(stamp: string, rest: string)
    requires ']' !in stamp
    ensures Index("[" + stamp + NOTICE + rest, NOTICE) == 1 + |stamp|
  {
    var s := "[" + stamp + NOTICE + rest;
    var at := 1 + |stamp|;
    assert s[at..at + |NOTICE|] == NOTICE;
    assert OccursAt(s, NOTICE, at);
    OccurrenceChars(s, NOTICE, Index(s, NOTICE));
    assert NOTICE[0] == ']';
    forall j | 0 <= j < at
      ensures s[j] == if j == 0 then '[' else stamp[j - 1]
    {
    }
  }

  lemma UnstampPlainLine(indent: string, core: string, tail: string)
    requires AllIn(indent, PADDING) && AllIn(tail, PADDING) && Trimmed(core, SPACES)
    requires !Contains(core, NOTICE)
    ensures Unstamp(indent + core + tail) == core
  {
    TrimPadded(indent, core, tail, SPACES);
  }

  lemma UnstampStampedLine(stamp: string, indent: string, core: string, tail: string)
    requires AllIn(indent, SPACES) && AllIn(tail, SPACES) && Trimmed(core, SPACES)
    requires ']' !in stamp
    ensures Unstamp("[" + stamp + NOTICE + indent + core + tail) == core
  {
    var rest := if core == "" then "" else indent + core;
    TrimStampedLine(stamp, indent, core, tail);
    StampIsFound(stamp, rest);
    assert ("[" + stamp + NOTICE + rest)[1 + |stamp| + |NOTICE|..] == rest;
    assert core != "" ==> rest == indent + core + "";
    assert core == "" ==> rest == "" + core + "";
    TrimPadded(if core == "" then "" else indent, core, "", SPACES);
  }

  lemma TrimStampedLine(stamp: string, indent: string, core: string, tail: string)
    requires AllIn(indent, SPACES) && AllIn(tail, SPACES) && Trimmed(core, SPACES)
    ensures TrimSpace("[" + stamp + NOTICE + indent + core + tail)
         == "[" + stamp + NOTICE + if core == "" then "" else indent + core
  {
    var line := "[" + stamp + NOTICE + if core == "" then "" else indent + core;
    var padding := if core == "" then indent + tail else tail;
    assert "[" + stamp + NOTICE + indent + core + tail == "" + line + padding;
    assert line[|line| - 1] == if core == "" then NOTICE[|NOTICE| - 1] else core[|core| - 1];
    TrimPadded("", line, padding, SPACES);
  }

  lemma NormaliseRecoversCore(p: Printed)
    requires WellFormed(p)
    ensures Normalise(PrintLine(p)) == Core(p.item)
  {
    var core := Core(p.item);
    CoreIsPlain(p.item);
    CleanUpLeavesPlain(core);
    if p.stamp.Some? {
      UnstampStampedLine(p.stamp.value, p.indent, core, p.tail);
    } else {
      UnstampPlainLine(p.indent, core, p.tail);
      assert PrintLine(p) == p.indent + core + p.tail;
    }
  }

  lemma ClassifyReadsHeading(name: string)
    ensures Classify("[" + name + "]") == Section(name)
  {
    var s := "[" + name + "]";
    assert s[1..|s| - 1] == name;
  }

  lemma KeyIsTrimmedOut(key: string)
    requires Bare(key)
    ensures Trim(TrimSpace(KeyText(key)), QUOTE) == key
  {
    var after := if key == "" then "" else " ";
    assert KeyText(key) == "" + key + after;
    TrimPadded("", key, after, SPACES);
    TrimTrimmed(key, QUOTE);
  }

  lemma ValueIsTrimmedOut(shown: string)
    requires Bare(shown)
    ensures Trim(TrimSpace(" " + shown), QUOTE) == shown
  {
    assert " " + shown == " " + shown + "";
    TrimPadded(" ", shown, "", SPACES);
    TrimTrimmed(shown, QUOTE);
  }

  lemma EqualsIsFound(text: string, rest: string)
    requires '=' !in text
    ensures Index(text + "=" + rest, "=") == |text|
  {
    var s, eq := text + "=" + rest, "=";
    assert s[|text|..|text| + 1] == eq && eq[0] == '=';
    assert OccursAt(s, eq, |text|);
    OccurrenceChars(s, eq, Index(s, eq));
    assert forall j | 0 <= j < |text| :: s[j] == text[j];
  }

  /** A line that is neither comment nor heading is split at its first equals sign. */
  lemma ClassifySplits(line: string, text: string, rest: string)
    requires line == text + "=" + rest && '=' !in text
    requires line[0] != ';' && !(line[0] == '[' && line[|line| - 1] == ']')
    ensures Classify(line) == SettingOf(Trim(TrimSpace(text), QUOTE), Trim(TrimSpace(rest), QUOTE))
  {
    EqualsIsFound(text, rest);
    assert line[..|text|] == text && line[|text| + 1..] == rest;
  }

  lemma ClassifyReadsEntry(key: string, value: string)
    requires SettingOk(key, value)
    ensures Classify(Core(Entry(key, value))) == Setting(key, value)
  {
    var s, shown, text := Core(Entry(key, value)), Shown(value), KeyText(key);
    KeyIsTrimmedOut(key);
    ValueIsTrimmedOut(shown);
    assert s == text + "=" + (" " + shown);
    assert s[0] == (if key == "" then '=' else key[0]) && s[|s| - 1] == shown[|shown| - 1];
    ClassifySplits(s, text, " " + shown);
  }

  lemma ClassifyReadsCore(item: Item)
    requires ItemOk(item)
    ensures Classify(Core(item)) == Meaning(item)
  {
    match item {
      case Heading(name) => ClassifyReadsHeading(name);
      case Entry(key, value) => ClassifyReadsEntry(key, value);
      case Comment(_) =>
      case Blank =>
    }
  }

  lemma PrintedLineIsOneLine(p: Printed)
    requires WellFormed(p)
    ensures '\n' !in PrintLine(p) && '\r' !in PrintLine(p)[if PrintLine(p) == "" then 0 else |PrintLine(p)| - 1..]
  {
    CoreIsPlain(p.item);
    var s, core := PrintLine(p), Core(p.item);
    assert '\n' !in Stamp(p.stamp);
    if s != "" {
      assert s[|s| - 1..] == [s[|s| - 1]];
      if p.tail != "" {
        assert s[|s| - 1] == p.tail[|p.tail| - 1];
      } else if core != "" {
        assert s[|s| - 1] == core[|core| - 1];
      } else if p.indent != "" {
        assert s[|s| - 1] == p.indent[|p.indent| - 1];
      } else {
        assert s[|s| - 1] == NOTICE[|NOTICE| - 1];
      }
    }
  }

  /** A printed line reads back as what it says. */
  lemma LineReadsBack(p: Printed)
    requires WellFormed(p)
    ensures Classify(Normalise(DropCR(PrintLine(p)))) == Meaning(p.item)
    ensures '\n' !in PrintLine(p)
  {
    PrintedLineIsOneLine(p);
    NormaliseRecoversCore(p);
    ClassifyReadsCore(p.item);
  }

  // ----- The whole report reads back -----

  function Meanings(doc: seq<Printed>): (lines: seq<Line>)
    ensures |lines| == |doc|
  {
    seq(|doc|, i requires 0 <= i < |doc| => Meaning(doc[i].item))
  }

  ghost predicate AllWellFormed(doc: seq<Printed>) {
    forall i | 0 <= i < |doc| :: WellFormed(doc[i])
  }

  lemma {:induction false} SplitPrint(doc: seq<Printed>)
    requires AllWellFormed(doc)
    ensures var parts := Split(Print(doc), '\n');
            && |parts| == |doc| + 1 && parts[|doc|] == ""
            && forall i | 0 <= i < |doc| :: parts[i] == PrintLine(doc[i])
  {
    if doc != [] {
      LineReadsBack(doc[0]);
      SplitAtSep(PrintLine(doc[0]), Print(doc[1..]), '\n');
      SplitPrint(doc[1..]);
    }
  }

  lemma PrintReadsBack(doc: seq<Printed>)
    requires AllWellFormed(doc)
    ensures Parsed(Print(doc)) == Ok(ApplyAll(START, Meanings(doc)).config)
  {
    SplitPrint(doc);
    var raws := RawLines(Print(doc));
    assert |raws| == |doc|;
    forall i | 0 <= i < |doc|
      ensures ClassifyAll(raws)[i] == Meanings(doc)[i]
      ensures |raws[i]| < MAX_TOKEN
    {
      assert raws[i] == PrintLine(doc[i]);
      LineReadsBack(doc[i]);
    }
    assert ClassifyAll(raws) == Meanings(doc);
  }

  // ----- Reports of a configuration -----

  /** One section of a report: its settings in the order printed. */
  datatype Block = Block(name: string, settings: seq<(string, string)>)

  ghost predicate DistinctKeys(settings: seq<(string, string)>) {
    forall i, j | 0 <= i < j < |settings| :: settings[i].0 != settings[j].0
  }

  /** `settings` lists the entries of `m`, each once, in some order. */
  ghost predicate ListsMap(settings: seq<(string, string)>, m: map<string, string>) {
    && DistinctKeys(settings)
    && (forall i | 0 <= i < |settings| :: settings[i].0 in m && m[settings[i].0] == settings[i].1)
    && (forall k | k in m :: exists i | 0 <= i < |settings| :: settings[i].0 == k)
  }

  /** `blocks` lists the sections of `c`, each once, in some order; the global section may be left
      out when it is empty. */
  ghost predicate ListsConfig(blocks: seq<Block>, c: EffectiveConfig) {
    && "global" !in c.pools
    && (forall i, j | 0 <= i < j < |blocks| :: blocks[i].name != blocks[j].name)
    && (forall i | 0 <= i < |blocks| :: ListsMap(blocks[i].settings, SectionOf(c, blocks[i].name)))
    && (forall i | 0 <= i < |blocks| :: blocks[i].name == "global" || blocks[i].name in c.pools)
    && (forall name | name in c.pools :: exists i | 0 <= i < |blocks| :: blocks[i].name == name)
    && (c.global == map[] || exists i | 0 <= i < |blocks| :: blocks[i].name == "global")
  }

  function SectionOf(c: EffectiveConfig, name: string): map<string, string> {
    if name == "global" then c.global else PoolOf(c, name)
  }

  /** The last setting of a key in a section is the one that counts. */
  lemma LastSettingWins(lines: seq<Line>, key: string, value: string)
    ensures var section := ApplyAll(START, lines).section;
            var after := ApplyAll(START, lines + [Setting(key, value)]).config;
            key in SectionOf(after, section) && SectionOf(after, section)[key] == value
  {
    ApplyAppend(START, lines, [Setting(key, value)]);
    assert [Setting(key, value)][1..] == [];
    var st := ApplyAll(START, lines);
    assert ApplyAll(st, [Setting(key, value)]) == Apply(st, Setting(key, value));
  }

  function SettingLines(settings: seq<(string, string)>): seq<Line> {
    if settings == [] then [] else [Setting(settings[0].0, settings[0].1)] + SettingLines(settings[1..])
  }

  function BlockLines(blocks: seq<Block>): seq<Line> {
    if blocks == [] then []
    else BlockLines(blocks[..|blocks| - 1]) + [Section(blocks[|blocks| - 1].name)]
         + SettingLines(blocks[|blocks| - 1].settings)
  }

  /** The lines of a report that say something. */
  function Telling(lines: seq<Line>): seq<Line> {
    if lines == [] then []
    else if lines[0].Ignored? then Telling(lines[1..])
    else [lines[0]] + Telling(lines[1..])
  }

  lemma {:induction false} IgnoredLinesDoNothing(st: State, lines: seq<Line>)
    ensures ApplyAll(st, Telling(lines)) == ApplyAll(st, lines)
    decreases lines
  {
    if lines != [] {
      IgnoredLinesDoNothing(Apply(st, lines[0]), lines[1..]);
      if !lines[0].Ignored? {
        assert Telling(lines)[1..] == Telling(lines[1..]);
      }
    }
  }

  function PutAll(m: map<string, string>, settings: seq<(string, string)>): map<string, string>
    decreases settings
  {
    if settings == [] then m else PutAll(m[settings[0].0 := settings[0].1], settings[1..])
  }

  lemma {:induction false} PutAllKeeps(m: map<string, string>, settings: seq<(string, string)>)
    requires DistinctKeys(settings)
    ensures forall i | 0 <= i < |settings| ::
              settings[i].0 in PutAll(m, settings) && PutAll(m, settings)[settings[i].0] == settings[i].1
    ensures forall k | (forall i | 0 <= i < |settings| :: settings[i].0 != k) ::
              (k in PutAll(m, settings) <==> k in m) && (k in m ==> PutAll(m, settings)[k] == m[k])
    decreases settings
  {
    if settings != [] {
      var tail := settings[1..];
      PutAllKeeps(m[settings[0].0 := settings[0].1], tail);
      assert forall i | 0 <= i < |tail| :: tail[i].0 != settings[0].0;
      forall i | 0 <= i < |settings|
        ensures settings[i].0 in PutAll(m, settings) && PutAll(m, settings)[settings[i].0] == settings[i].1
      {
        if i > 0 {
          assert settings[i] == tail[i - 1];
        }
      }
      forall k | (forall i | 0 <= i < |settings| :: settings[i].0 != k)
        ensures (k in PutAll(m, settings) <==> k in m) && (k in m ==> PutAll(m, settings)[k] == m[k])
      {
        assert settings[0].0 != k;
        assert forall i | 0 <= i < |tail| :: tail[i] == settings[i + 1];
      }
    }
  }

  lemma ListingRebuilds(settings: seq<(string, string)>, m: map<string, string>)
    requires ListsMap(settings, m)
    ensures PutAll(map[], settings) == m
  {
    var r := PutAll(map[], settings);
    PutAllKeeps(map[], settings);
    forall k
      ensures k in r <==> k in m
      ensures k in m ==> r[k] == m[k]
    {
      if k in m {
        var i :| 0 <= i < |settings| && settings[i].0 == k;
      } else {
        assert forall i | 0 <= i < |settings| :: settings[i].0 != k;
      }
    }
  }

  lemma {:induction false} SettingsGoToTheirSection(st: State, settings: seq<(string, string)>)
    requires st.section == "global" || st.section in st.config.pools
    ensures ApplyAll(st, SettingLines(settings)).section == st.section
    ensures ApplyAll(st, SettingLines(settings)).config
         == if st.section == "global" then st.config.(global := PutAll(st.config.global, settings))
            else st.config.(pools := st.config.pools[st.section := PutAll(st.config.pools[st.section], settings)])
    decreases settings
  {
    if settings == [] {
      if st.section != "global" {
        assert st.config.pools[st.section := st.config.pools[st.section]] == st.config.pools;
      }
    } else {
      var line := Setting(settings[0].0, settings[0].1);
      assert SettingLines(settings)[1..] == SettingLines(settings[1..]);
      SettingsGoToTheirSection(Apply(st, line), settings[1..]);
    }
  }

  /** The configuration the first blocks make. */
  function Assembled(blocks: seq<Block>): EffectiveConfig {
    if blocks == [] then EMPTY
    else
      var c, last := Assembled(blocks[..|blocks| - 1]), blocks[|blocks| - 1];
      if last.name == "global" then c.(global := PutAll(c.global, last.settings))
      else c.(pools := c.pools[last.name := PutAll(PoolOf(c, last.name), last.settings)])
  }

  lemma {:induction false} BlocksAssemble(blocks: seq<Block>)
    ensures ApplyAll(START, BlockLines(blocks)).config == Assembled(blocks)
  {
    if blocks != [] {
      var front, last := blocks[..|blocks| - 1], blocks[|blocks| - 1];
      BlocksAssemble(front);
      var heading, settings := [Section(last.name)], SettingLines(last.settings);
      ApplyAppend(START, BlockLines(front) + heading, settings);
      ApplyAppend(START, BlockLines(front), heading);
      var st := ApplyAll(START, BlockLines(front));
      assert heading[1..] == [];
      assert ApplyAll(st, heading) == Apply(st, heading[0]);
      SettingsGoToTheirSection(Apply(st, heading[0]), last.settings);
    }
  }

  ghost predicate Names(blocks: seq<Block>, name: string) {
    exists i | 0 <= i < |blocks| :: blocks[i].name == name
  }

  lemma NamesGrow(blocks: seq<Block>, name: string)
    requires blocks != []
    ensures Names(blocks, name) <==> Names(blocks[..|blocks| - 1], name) || name == blocks[|blocks| - 1].name
  {
    var front := blocks[..|blocks| - 1];
    if i :| 0 <= i < |blocks| && blocks[i].name == name {
      assert i == |front| || front[i].name == name;
    }
    if i :| 0 <= i < |front| && front[i].name == name {
      assert blocks[i].name == name;
    }
    assert blocks[|front|].name == blocks[|blocks| - 1].name;
  }

  lemma {:induction false} AssembledNames(blocks: seq<Block>, name: string)
    ensures name in Assembled(blocks).pools <==> name != "global" && Names(blocks, name)
    ensures !Names(blocks, name) ==> SectionOf(Assembled(blocks), name) == map[]
  {
    if blocks != [] {
      AssembledNames(blocks[..|blocks| - 1], name);
      NamesGrow(blocks, name);
    }
  }

  /** Distinct sections do not disturb one another. */
  lemma {:induction false} AssembledSections(blocks: seq<Block>, i: nat)
    requires forall i, j | 0 <= i < j < |blocks| :: blocks[i].name != blocks[j].name
    requires i < |blocks|
    ensures SectionOf(Assembled(blocks), blocks[i].name) == PutAll(map[], blocks[i].settings)
  {
    var front, last := blocks[..|blocks| - 1], blocks[|blocks| - 1];
    if i == |front| {
      assert forall j | 0 <= j < |front| :: front[j].name != last.name;
      AssembledNames(front, last.name);
    } else {
      AssembledSections(front, i);
      assert front[i] == blocks[i];
    }
  }

  lemma AssembledIsListed(blocks: seq<Block>, c: EffectiveConfig)
    requires ListsConfig(blocks, c)
    ensures Assembled(blocks) == c
  {
    var r := Assembled(blocks);
    forall name
      ensures SectionOf(r, name) == SectionOf(c, name)
      ensures name in r.pools <==> name in c.pools
    {
      AssembledNames(blocks, name);
      if i :| 0 <= i < |blocks| && blocks[i].name == name {
        AssembledSections(blocks, i);
        ListingRebuilds(blocks[i].settings, SectionOf(c, name));
      }
    }
    forall name | name in c.pools
      ensures r.pools[name] == c.pools[name]
    {
      assert SectionOf(r, name) == SectionOf(c, name);
    }
    assert r.pools == c.pools;
    assert SectionOf(r, "global") == SectionOf(c, "global");
  }

  /** Round trip: a report of `c`, with its sections and settings in any order, stamped or not, padded
      as it likes and with blank and comment lines anywhere, parses back to `c`. */
  lemma ReportRoundTrip(c: EffectiveConfig, blocks: seq<Block>, doc: seq<Printed>)
    requires ListsConfig(blocks, c)
    requires AllWellFormed(doc)
    requires Telling(Meanings(doc)) == BlockLines(blocks)
    ensures Parsed(Print(doc)) == Ok(c)
  {
    PrintReadsBack(doc);
    IgnoredLinesDoNothing(START, Meanings(doc));
    BlocksAssemble(blocks);
    AssembledIsListed(blocks, c);
  }
}
