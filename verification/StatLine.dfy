/** Reading `/proc/<pid>/stat` (start_linux.go, zombie_linux.go), and the line the kernel prints. */
module StatLine {
  import opened Text
  import opened Machine

  // ----- Reading -----

  /** `strings.Fields`: the maximal runs of non-space characters. */
  function Fields(s: string): seq<string>
    decreases |s|
  {
    if s == "" then []
    else if s[0] in SPACES then Fields(s[1..])
    else
      var n := WordLength(s);
      [s[..n]] + Fields(s[n..])
  }

  function WordLength(s: string): (n: nat)
    ensures n <= |s|
    ensures s != "" && s[0] !in SPACES ==> n > 0
    ensures forall i | 0 <= i < n :: s[i] !in SPACES
    ensures n < |s| ==> s[n] in SPACES
  {
    if s == "" || s[0] in SPACES then 0 else 1 + WordLength(s[1..])
  }

  /** `strconv.ParseUint(s, 10, 64)`, with the zero the caller turns its errors into. */
  function ParseUint(s: string): (n: nat)
    ensures n < TWO_TO_THE_64
  {
    if s != "" && AllDigits(s) && DigitsValue(s) < TWO_TO_THE_64 then DigitsValue(s) else 0
  }

  const START_TIME_OFFSET := 19

  /** Everything from the process state on: what follows the last closing parenthesis and one space. */
  function AfterName(data: string): string {
    var i := LastIndex(data, ')');
    if i < 0 || i + 2 >= |data| then "" else data[i + 2..]
  }

  /** The start time in the text of a stat file, or 0 when it is not there. */
  function StartTime(data: string): nat {
    var fields := Fields(AfterName(data));
    if |fields| <= START_TIME_OFFSET then 0 else ParseUint(fields[START_TIME_OFFSET])
  }

  predicate IsZombie(data: string) {
    var rest := AfterName(data);
    rest != "" && rest[0] == 'Z'
  }

  // ----- Printing -----

  /** A stat line: pid, name in parentheses, one-character state, then numbers from field 4 on. */
  datatype Stat = Stat(pid: nat, name: string, state: char, numbers: seq<int>)

  function Signed(n: int): (s: string)
    ensures s != "" && forall i | 0 <= i < |s| :: s[i] == '-' || IsDigit(s[i])
  {
    if n < 0 then "-" + Decimal(-n) else Decimal(n)
  }

  function Numbers(numbers: seq<int>): string {
    if numbers == [] then "\n" else " " + Signed(numbers[0]) + Numbers(numbers[1..])
  }

  function PrintStat(st: Stat): string {
    Decimal(st.pid) + " (" + st.name + ") " + ([st.state] + Numbers(st.numbers))
  }

  predicate StateOk(c: char) {
    c !in SPACES && c != ')'
  }

  // ----- Reading what was printed -----

  lemma {:induction false} NumbersHaveNoParen(numbers: seq<int>)
    ensures ')' !in Numbers(numbers)
  {
    if numbers != [] {
      NumbersHaveNoParen(numbers[1..]);
      var s := Signed(numbers[0]);
      assert ')' !in s;
    }
  }

  /** The name may hold anything, spaces, parentheses and newlines included: the last closing
      parenthesis of the line is the one that ends it. */
  lemma AfterNameOfPrint(st: Stat)
    requires StateOk(st.state)
    ensures AfterName(PrintStat(st)) == [st.state] + Numbers(st.numbers)
  {
    NumbersHaveNoParen(st.numbers);
    var head, tail := Decimal(st.pid) + " (" + st.name, [st.state] + Numbers(st.numbers);
    var data := PrintStat(st);
    assert data == head + ") " + tail;
    assert data[|head|] == ')';
    forall j | |head| < j < |data|
      ensures data[j] != ')'
    {
      assert data[j] == if j == |head| + 1 then ' ' else tail[j - |head| - 2];
    }
    assert LastIndex(data, ')') == |head|;
    assert data[|head| + 2..] == tail;
  }

  lemma WordThenSpace(word: string, rest: string)
    requires word != "" && (forall i | 0 <= i < |word| :: word[i] !in SPACES)
    requires rest != "" && rest[0] in SPACES
    ensures Fields(word + rest) == [word] + Fields(rest)
  {
    var s := word + rest;
    assert forall i | 0 <= i < |word| :: s[i] == word[i];
    assert s[|word|] == rest[0];
    assert WordLength(s) == |word|;
    assert s[..|word|] == word && s[|word|..] == rest;
  }

  function Words(numbers: seq<int>): (words: seq<string>)
    ensures |words| == |numbers|
    ensures forall i | 0 <= i < |numbers| :: words[i] == Signed(numbers[i])
  {
    seq(|numbers|, i requires 0 <= i < |numbers| => Signed(numbers[i]))
  }

  lemma SignedIsWord(n: int)
    ensures forall i | 0 <= i < |Signed(n)| :: Signed(n)[i] !in SPACES
  {
    var s := Signed(n);
    assert forall i | 0 <= i < |s| :: s[i] == '-' || IsDigit(s[i]);
  }

  lemma SpaceThenWord(word: string, rest: string)
    requires word != "" && (forall i | 0 <= i < |word| :: word[i] !in SPACES)
    requires rest != "" && rest[0] in SPACES
    ensures Fields(" " + word + rest) == [word] + Fields(rest)
  {
    var s := " " + word + rest;
    assert s[1..] == word + rest && s[0] == ' ';
    assert Fields(s) == Fields(s[1..]);
    WordThenSpace(word, rest);
  }

  lemma NewlineHasNoFields(s: string)
    requires |s| == 1 && s[0] in SPACES
    ensures Fields(s) == []
  {
    assert s[1..] == "";
  }

  lemma {:induction false} FieldsOfNumbers(numbers: seq<int>)
    ensures Fields(Numbers(numbers)) == Words(numbers)
    ensures Numbers(numbers) != "" && Numbers(numbers)[0] in SPACES
  {
    if numbers == [] {
      NewlineHasNoFields(Numbers(numbers));
    } else {
      FieldsOfNumbers(numbers[1..]);
      SignedIsWord(numbers[0]);
      SpaceThenWord(Signed(numbers[0]), Numbers(numbers[1..]));
      assert Words(numbers) == [Signed(numbers[0])] + Words(numbers[1..]);
    }
  }

  lemma FieldsOfPrint(st: Stat)
    requires StateOk(st.state)
    ensures Fields(AfterName(PrintStat(st))) == [[st.state]] + Words(st.numbers)
  {
    AfterNameOfPrint(st);
    FieldsOfNumbers(st.numbers);
    WordThenSpace([st.state], Numbers(st.numbers));
  }

  lemma SignedIsParsed(n: int)
    ensures ParseUint(Signed(n)) == if 0 <= n < 0x1_0000_0000_0000_0000 then n else 0
  {
    if n < 0 {
      assert Signed(n)[0] == '-';
    } else {
      DecimalValue(n);
    }
  }

  /** Whether a line has the field of that number in proc(5), where the state is field 3. */
  predicate HasField(st: Stat, field: nat) {
    4 <= field && field - 4 < |st.numbers|
  }

  function Field(st: Stat, field: nat): int
    requires HasField(st, field)
  {
    st.numbers[field - 4]
  }

  /** Round trip: whatever the name, the start time read back is the one printed, field 22 of the line, or 0
      when it is not a 64-bit unsigned number or the line is too short to have one. */
  lemma StartTimeRoundTrip(st: Stat)
    requires StateOk(st.state)
    ensures StartTime(PrintStat(st))
         == if HasField(st, 22) && 0 <= Field(st, 22) < 0x1_0000_0000_0000_0000 then Field(st, 22) else 0
  {
    FieldsOfPrint(st);
    if HasField(st, 22) {
      assert ([[st.state]] + Words(st.numbers))[START_TIME_OFFSET] == Words(st.numbers)[22 - 4];
      SignedIsParsed(Field(st, 22));
    }
  }

  /** The zombie check on the same line answers exactly for state `Z`. */
  lemma ZombieRoundTrip(st: Stat)
    requires StateOk(st.state)
    ensures IsZombie(PrintStat(st)) <==> st.state == 'Z'
  {
    AfterNameOfPrint(st);
  }
}
