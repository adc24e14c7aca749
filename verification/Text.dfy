/** Byte-string helpers with the meaning of Go's `strings`, `bytes` and `strconv` functions
    on ASCII text. */
module Text {

  /** The ASCII characters `strings.TrimSpace` and `strings.Fields` treat as white space. */
  const SPACES: set<char> := {' ', '\t', '\n', '\r', '\U{B}', '\U{C}'}

  // ----- Trimming -----

  function TrimLeft(s: string, cut: set<char>): string {
    if s != "" && s[0] in cut then TrimLeft(s[1..], cut) else s
  }

  function TrimRight(s: string, cut: set<char>): string {
    if s != "" && s[|s| - 1] in cut then TrimRight(s[..|s| - 1], cut) else s
  }

  function Trim(s: string, cut: set<char>): string {
    TrimRight(TrimLeft(s, cut), cut)
  }

  function TrimSpace(s: string): string {
    Trim(s, SPACES)
  }

  predicate AllIn(s: string, cut: set<char>) {
    forall i | 0 <= i < |s| :: s[i] in cut
  }

  /** Neither end of `s` is a character of `cut`. */
  predicate Trimmed(s: string, cut: set<char>) {
    s == "" || (s[0] !in cut && s[|s| - 1] !in cut)
  }

  lemma {:induction false} TrimLeftPadded(l: string, m: string, cut: set<char>)
    requires AllIn(l, cut)
    requires m == "" || m[0] !in cut
    ensures TrimLeft(l + m, cut) == m
  {
    if l == "" {
      assert l + m == m;
    } else {
      assert (l + m)[1..] == l[1..] + m;
      TrimLeftPadded(l[1..], m, cut);
    }
  }

  lemma {:induction false} TrimRightPadded(m: string, r: string, cut: set<char>)
    requires AllIn(r, cut)
    requires m == "" || m[|m| - 1] !in cut
    ensures TrimRight(m + r, cut) == m
  {
    if r == "" {
      assert m + r == m;
    } else {
      assert (m + r)[..|m + r| - 1] == m + r[..|r| - 1];
      TrimRightPadded(m, r[..|r| - 1], cut);
    }
  }

  /** Trimming removes exactly the padding. */
  lemma TrimPadded(l: string, m: string, r: string, cut: set<char>)
    requires AllIn(l, cut) && AllIn(r, cut)
    requires Trimmed(m, cut)
    ensures Trim(l + m + r, cut) == m
  {
    if m == "" {
      assert l + m + r == (l + r) + "";
      TrimLeftPadded(l + r, "", cut);
    } else {
      assert l + m + r == l + (m + r);
      TrimLeftPadded(l, m + r, cut);
      TrimRightPadded(m, r, cut);
    }
  }

  lemma TrimTrimmed(s: string, cut: set<char>)
    requires Trimmed(s, cut)
    ensures Trim(s, cut) == s
  {
    TrimPadded("", s, "", cut);
    assert "" + s + "" == s;
  }

  // ----- Case -----

  function LowerChar(c: char): char {
    if 'A' <= c <= 'Z' then c + 'a' - 'A' else c
  }

  function ToLower(s: string): string {
    seq(|s|, i requires 0 <= i < |s| => LowerChar(s[i]))
  }

  /** `strings.EqualFold` on ASCII. */
  predicate EqualFold(s: string, t: string) {
    ToLower(s) == ToLower(t)
  }

  // ----- Searching -----

  predicate OccursAt(s: string, pat: string, i: int) {
    0 <= i && i + |pat| <= |s| && s[i..i + |pat|] == pat
  }

  predicate HasPrefix(s: string, pat: string) {
    |pat| <= |s| && s[..|pat|] == pat
  }

  lemma OccurrenceChars(s: string, pat: string, i: int)
    ensures OccursAt(s, pat, i) ==> forall k | 0 <= k < |pat| :: s[i + k] == pat[k]
  {
    if OccursAt(s, pat, i) {
      forall k | 0 <= k < |pat|
        ensures s[i + k] == pat[k]
      {
        assert s[i..i + |pat|][k] == s[i + k];
      }
    }
  }

  lemma OccursInTail(s: string, pat: string, i: int)
    requires s != "" && 0 <= i
    ensures OccursAt(s, pat, i + 1) <==> OccursAt(s[1..], pat, i)
  {
    if i + 1 + |pat| <= |s| {
      assert s[1..][i..i + |pat|] == s[i + 1..i + 1 + |pat|];
    }
  }

  /** The first occurrence of `pat`, or -1. */
  function Index(s: string, pat: string): (i: int)
    ensures i == -1 || OccursAt(s, pat, i)
    ensures forall j :: OccursAt(s, pat, j) ==> 0 <= i <= j
  {
    if |s| < |pat| then -1
    else if s[..|pat|] == pat then 0
    else
      assert |pat| > 0;
      var k := Index(s[1..], pat);
      assert OccursAt(s, pat, k + 1) || k < 0 by {
        if k >= 0 {
          OccursInTail(s, pat, k);
        }
      }
      assert forall j :: OccursAt(s, pat, j) ==> 0 <= k < j by {
        forall j | OccursAt(s, pat, j)
          ensures 0 <= k < j
        {
          assert j != 0;
          OccursInTail(s, pat, j - 1);
        }
      }
      if k < 0 then -1 else k + 1
  }

  predicate Contains(s: string, pat: string) {
    Index(s, pat) >= 0
  }

  /** The last occurrence of a character, or -1. */
  function LastIndex(s: string, c: char): (i: int)
    ensures -1 <= i < |s|
    ensures i >= 0 ==> s[i] == c
    ensures forall j | i < j < |s| :: s[j] != c
  {
    if s == "" then -1
    else if s[|s| - 1] == c then |s| - 1
    else LastIndex(s[..|s| - 1], c)
  }

  /** `strings.ReplaceAll(s, pat, "")`. */
  function RemoveAll(s: string, pat: string): string
    requires pat != ""
  {
    if |s| < |pat| then s
    else if s[..|pat|] == pat then RemoveAll(s[|pat|..], pat)
    else [s[0]] + RemoveAll(s[1..], pat)
  }

  lemma {:induction false} RemoveAllAbsent(s: string, pat: string)
    requires pat != ""
    requires forall i :: !OccursAt(s, pat, i)
    ensures RemoveAll(s, pat) == s
  {
    if |s| >= |pat| {
      assert OccursAt(s, pat, 0) || s[..|pat|] != pat;
      forall i
        ensures !OccursAt(s[1..], pat, i)
      {
        if OccursAt(s[1..], pat, i) {
          assert s[1..][i..i + |pat|] == s[i + 1..i + 1 + |pat|];
          assert OccursAt(s, pat, i + 1);
        }
      }
      RemoveAllAbsent(s[1..], pat);
    }
  }

  // ----- Splitting -----

  function Split(s: string, sep: char): (parts: seq<string>)
    ensures |parts| >= 1
    ensures forall i | 0 <= i < |parts| :: sep !in parts[i]
  {
    if s == "" then [""]
    else
      var rest := Split(s[1..], sep);
      if s[0] == sep then [""] + rest else [[s[0]] + rest[0]] + rest[1..]
  }

  function Join(parts: seq<string>, sep: char): string {
    if |parts| == 0 then ""
    else if |parts| == 1 then parts[0]
    else parts[0] + [sep] + Join(parts[1..], sep)
  }

  lemma {:induction false} SplitAtSep(s: string, t: string, sep: char)
    requires sep !in s
    ensures Split(s + [sep] + t, sep) == [s] + Split(t, sep)
  {
    if s == "" {
      assert "" + [sep] + t == [sep] + t;
      assert ([sep] + t)[1..] == t;
    } else {
      var whole := s + [sep] + t;
      assert whole[1..] == s[1..] + [sep] + t;
      SplitAtSep(s[1..], t, sep);
      assert [s[0]] + s[1..] == s;
    }
  }

  /** The pieces on either side of a separator do not mix. */
  lemma {:induction false} SplitAppend(s: string, t: string, sep: char)
    ensures Split(s + [sep] + t, sep) == Split(s, sep) + Split(t, sep)
  {
    if s == "" {
      assert "" + [sep] + t == [sep] + t;
      assert ([sep] + t)[1..] == t;
    } else {
      var whole := s + [sep] + t;
      assert whole[1..] == s[1..] + [sep] + t && whole[0] == s[0];
      SplitAppend(s[1..], t, sep);
    }
  }

  lemma {:induction false} SplitNoSep(s: string, sep: char)
    requires sep !in s
    ensures Split(s, sep) == [s]
  {
    if s != "" {
      SplitNoSep(s[1..], sep);
      assert [s[0]] + s[1..] == s;
    }
  }

  /** Splitting undoes joining. */
  lemma {:induction false} SplitJoin(parts: seq<string>, sep: char)
    requires |parts| >= 1
    requires forall i | 0 <= i < |parts| :: sep !in parts[i]
    ensures Split(Join(parts, sep), sep) == parts
  {
    if |parts| == 1 {
      SplitNoSep(parts[0], sep);
    } else {
      SplitAtSep(parts[0], Join(parts[1..], sep), sep);
      SplitJoin(parts[1..], sep);
      assert [parts[0]] + parts[1..] == parts;
    }
  }

  lemma {:induction false} JoinAppend(parts: seq<string>, last: string, sep: char)
    requires |parts| >= 1
    ensures Join(parts + [last], sep) == Join(parts, sep) + [sep] + last
  {
    if |parts| == 1 {
      assert (parts + [last])[1..] == [last];
    } else {
      assert (parts + [last])[1..] == parts[1..] + [last];
      JoinAppend(parts[1..], last, sep);
    }
  }

  // ----- Decimal numbers -----

  predicate IsDigit(c: char) {
    '0' <= c <= '9'
  }

  predicate AllDigits(s: string) {
    forall i | 0 <= i < |s| :: IsDigit(s[i])
  }

  function DigitChar(d: nat): (c: char)
    requires d < 10
    ensures IsDigit(c)
  {
    '0' + d as char
  }

  /** The decimal notation of `n`, without leading zeros. */
  function Decimal(n: nat): (s: string)
    ensures s != "" && AllDigits(s)
  {
    if n < 10 then [DigitChar(n)] else Decimal(n / 10) + [DigitChar(n % 10)]
  }

  function DigitsValue(s: string): nat
    requires AllDigits(s)
  {
    if s == "" then 0
    else 10 * DigitsValue(s[..|s| - 1]) + (s[|s| - 1] - '0') as nat
  }

  lemma {:induction false} DecimalValue(n: nat)
    ensures DigitsValue(Decimal(n)) == n
  {
    if n >= 10 {
      DecimalValue(n / 10);
      assert Decimal(n)[..|Decimal(n)| - 1] == Decimal(n / 10);
    }
  }
}
