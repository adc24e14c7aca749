/** The parser for the report of `php-fpm -tt` (config.go), and the printer it inverts. */
module ConfigParser {
  import opened Text
  import opened Wrappers

  datatype EffectiveConfig = EffectiveConfig(global: map<string, string>, pools: map<string, map<string, string>>)

  const EMPTY := EffectiveConfig(map[], map[])
  const NOTICE := "] NOTICE:"
  const QUOTE: set<char> := {'"'}

  /** `bufio.MaxScanTokenSize`: a line this long, not counting its newline, stops the scanner. */
  const MAX_TOKEN := 65536

  datatype ParseError = LineTooLong

  // ----- One line -----

  /** The line without its log stamp. */
  function Unstamp(raw: string): string {
    var line := TrimSpace(raw);
    var idx := Index(line, NOTICE);
    if idx != -1 then TrimSpace(line[idx + |NOTICE|..]) else line
  }

  /** The line without tabs, written or escaped, and without the quotes around it. */
  function CleanUp(body: string): string {
    TrimSpace(Trim(RemoveAll(RemoveAll(body, "\\t"), "\t"), QUOTE))
  }

  function Normalise(raw: string): string {
    CleanUp(Unstamp(raw))
  }

  datatype Line = Ignored | Section(name: string) | Setting(key: string, value: string)

  function Classify(line: string): Line {
    if line == "" || line[0] == ';' then Ignored
    else if line[0] == '[' && line[|line| - 1] == ']' then Section(line[1..|line| - 1])
    else if Contains(line, "=") then
      var eq := Index(line, "=");
      SettingOf(Trim(TrimSpace(line[..eq]), QUOTE), Trim(TrimSpace(line[eq + 1..]), QUOTE))
    else Ignored
  }

  function SettingOf(key: string, value: string): Line {
    Setting(key, if value == "undefined" then "" else value)
  }

  // ----- The whole report -----

  datatype State = State(section: string, config: EffectiveConfig)

  const START := State("global", EMPTY)

  function PoolOf(config: EffectiveConfig, name: string): map<string, string> {
    if name in config.pools then config.pools[name] else map[]
  }

  /** What one recognised line does to the configuration read so far. */
  function Apply(st: State, line: Line): State {
    match line
    case Ignored => st
    case Section(name) =>
      if name == "global" then st.(section := "global")
      else State(name, st.config.(pools := st.config.pools[name := PoolOf(st.config, name)]))
    case Setting(key, value) =>
      if st.section != "global" then
        st.(config := st.config.(pools := st.config.pools[st.section := PoolOf(st.config, st.section)[key := value]]))
      else
        st.(config := st.config.(global := st.config.global[key := value]))
  }

  function ApplyAll(st: State, lines: seq<Line>): State
    decreases lines
  {
    if lines == [] then st else ApplyAll(Apply(st, lines[0]), lines[1..])
  }

  lemma {:induction false} ApplyAppend(st: State, a: seq<Line>, b: seq<Line>)
    ensures ApplyAll(st, a + b) == ApplyAll(ApplyAll(st, a), b)
    decreases a
  {
    if a == [] {
      assert a + b == b;
    } else {
      assert (a + b)[1..] == a[1..] + b;
      ApplyAppend(Apply(st, a[0]), a[1..], b);
    }
  }

  function DropCR(s: string): string {
    if s != "" && s[|s| - 1] == '\r' then s[..|s| - 1] else s
  }

  /** The pieces between newlines; `bufio.ScanLines` has no piece after a final newline. */
  function RawLines(output: string): seq<string> {
    var parts := Split(output, '\n');
    if parts[|parts| - 1] == "" then parts[..|parts| - 1] else parts
  }

  /** What a raw line says. */
  function LineOf(raw: string): Line {
    Classify(Normalise(DropCR(raw)))
  }

  function ClassifyAll(raws: seq<string>): (lines: seq<Line>)
    ensures |lines| == |raws|
    ensures forall i | 0 <= i < |raws| :: lines[i] == LineOf(raws[i])
  {
    seq(|raws|, i requires 0 <= i < |raws| => LineOf(raws[i]))
  }

  predicate Scannable(raws: seq<string>) {
    forall i | 0 <= i < |raws| :: |raws[i]| < MAX_TOKEN
  }

  function Parsed(output: string): Result<EffectiveConfig, ParseError> {
    var raws := RawLines(output);
    if Scannable(raws) then Ok(ApplyAll(START, ClassifyAll(raws)).config) else Err(LineTooLong)
  }

  /** Only a line of 64 KiB or more makes a report unreadable. */
  lemma FailsOnLongLines(output: string)
    ensures Parsed(output).Err? <==> exists i | 0 <= i < |RawLines(output)| :: |RawLines(output)[i]| >= 65536
  {
  }

  method ParseFPMConfigOutput(output: string) returns (r: Result<EffectiveConfig, ParseError>)
    ensures r == Parsed(output)
  {
    var raws := RawLines(output);
    var tooLong, global, pools := ScanLines(raws);
    r := if tooLong then Err(LineTooLong) else Ok(EffectiveConfig(global, pools));
  }

  /** The scanner loop, which a line too long for the buffer stops. */
  method ScanLines(raws: seq<string>)
    returns (tooLong: bool, global: map<string, string>, pools: map<string, map<string, string>>)
    ensures tooLong <==> !Scannable(raws)
    ensures !tooLong ==> EffectiveConfig(global, pools) == ApplyAll(START, ClassifyAll(raws)).config
  {
    tooLong, global, pools := false, map[], map[];
    var currentSection := "global";
    ghost var lines := ClassifyAll(raws);
    ghost var end, st := ApplyAll(START, lines), START;
    LeadsFromStart(lines);
    var n := 0;
    while n < |raws|
      invariant 0 <= n <= |raws| && !tooLong
      invariant forall i | 0 <= i < n :: |raws[i]| < MAX_TOKEN
      invariant st == State(currentSection, EffectiveConfig(global, pools)) && Leads(st, lines, n, end)
    {
      if |raws[n]| >= MAX_TOKEN {
        tooLong := true;
        return;
      }
      LeadsOn(st, lines, n, end);
      st := Apply(st, lines[n]);
      currentSection, global, pools := ReadRaw(raws[n], currentSection, global, pools);
      n := n + 1;
    }
    LeadsToEnd(st, lines, end);
  }

  /** From `st`, the lines from the `n`-th on lead to `end`. */
  ghost predicate Leads(st: State, lines: seq<Line>, n: nat, end: State) {
    n <= |lines| && ApplyAll(st, lines[n..]) == end
  }

  lemma LeadsFromStart(lines: seq<Line>)
    ensures Leads(START, lines, 0, ApplyAll(START, lines))
  {
    assert lines[0..] == lines;
  }

  lemma LeadsOn(st: State, lines: seq<Line>, n: nat, end: State)
    requires n < |lines| && Leads(st, lines, n, end)
    ensures Leads(Apply(st, lines[n]), lines, n + 1, end)
  {
    assert lines[n..][1..] == lines[n + 1..];
  }

  lemma LeadsToEnd(st: State, lines: seq<Line>, end: State)
    requires Leads(st, lines, |lines|, end)
    ensures st == end
  {
  }

  method ReadRaw(raw: string, section: string, global: map<string, string>, pools: map<string, map<string, string>>)
    returns (section': string, global': map<string, string>, pools': map<string, map<string, string>>)
    ensures State(section', EffectiveConfig(global', pools'))
         == Apply(State(section, EffectiveConfig(global, pools)), LineOf(raw))
  {
    section', global', pools' := ReadLine(Normalise(DropCR(raw)), section, global, pools);
  }

  /** The body of the scanner loop: one normalised line, and the section and maps it leaves. */
  method ReadLine(line: string, section: string, global: map<string, string>, pools: map<string, map<string, string>>)
    returns (section': string, global': map<string, string>, pools': map<string, map<string, string>>)
    ensures State(section', EffectiveConfig(global', pools'))
         == Apply(State(section, EffectiveConfig(global, pools)), Classify(line))
  {
    section', global', pools' := section, global, pools;
    if line == "" || line[0] == ';' {
      return;
    }
    if line[0] == '[' && line[|line| - 1] == ']' {
      section' := line[1..|line| - 1];
      assert Classify(line) == Section(section');
      if section' != "global" && section' !in pools' {
        pools' := pools'[section' := map[]];
      }
      return;
    }
    if Contains(line, "=") {
      var eq := Index(line, "=");
      var key := Trim(TrimSpace(line[..eq]), QUOTE);
      var val := Trim(TrimSpace(line[eq + 1..]), QUOTE);
      if val == "undefined" {
        val := "";
      }
      assert Classify(line) == Setting(key, val);
      global', pools' := StoreSetting(key, val, section, global, pools);
    }
  }

  method StoreSetting(
    key: string, val: string, section: string, global: map<string, string>, pools: map<string, map<string, string>>)
    returns (global': map<string, string>, pools': map<string, map<string, string>>)
    ensures State(section, EffectiveConfig(global', pools'))
         == Apply(State(section, EffectiveConfig(global, pools)), Setting(key, val))
  {
    global', pools' := global, pools;
    if section != "global" {
      if section !in pools' {
        pools' := pools'[section := map[]];
      }
      var pool := pools'[section][key := val];
      assert pools'[section := pool] == pools[section := pool];
      pools' := pools'[section := pool];
    } else {
      global' := global'[key := val];
    }
  }
}
