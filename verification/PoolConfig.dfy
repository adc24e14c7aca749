/** Which section of the configuration describes a scraped pool (metrics.go): a choice made while ranging
    over a map, that must not depend on the order of the range. */
module PoolConfig {
  import opened Text
  import opened Wrappers

  type Values = map<string, string>

  /** The one section whose name differs from `name` at most in case. */
  ghost predicate OnlyFit(pools: map<string, Values>, name: string, section: string) {
    && section in pools && EqualFold(section, name)
    && forall s | s in pools && EqualFold(s, name) :: s == section
  }

  /** The exact name first; otherwise a case-insensitive match, if there is just one; otherwise none. */
  ghost predicate Chosen(pools: map<string, Values>, name: string, r: Option<Values>) {
    if name in pools then r == Some(pools[name])
    else if exists s :: OnlyFit(pools, name, s) then exists s :: OnlyFit(pools, name, s) && r == Some(pools[s])
    else r == None
  }

  /** `order` is some order in which the sections can be ranged over. */
  ghost predicate RangeOver(pools: map<string, Values>, order: seq<string>) {
    && (forall i, j | 0 <= i < j < |order| :: order[i] != order[j])
    && (forall s :: s in pools <==> s in order)
  }

  method ChooseConfig(pools: map<string, Values>, order: seq<string>, name: string) returns (r: Option<Values>)
    requires RangeOver(pools, order)
    ensures Chosen(pools, name, r)
  {
    if name in pools {
      return Some(pools[name]);
    }
    var candidate: Option<Values> := None;
    var found := 0;
    ghost var last := "";
    for i := 0 to |order|
      invariant found >= 0
      invariant found == 0 ==> forall s | s in order[..i] :: !EqualFold(s, name)
      invariant found > 0 ==> last in order[..i] && last in pools && EqualFold(last, name) && candidate == Some(pools[last])
      invariant found == 1 ==> forall s | s in order[..i] && EqualFold(s, name) :: s == last
      invariant found > 1 ==> exists s | s in order[..i] :: EqualFold(s, name) && s != last
    {
      assert order[..i + 1] == order[..i] + [order[i]];
      if EqualFold(order[i], name) {
        candidate := Some(pools[order[i]]);
        found := found + 1;
        last := order[i];
      }
    }
    assert order[..|order|] == order;
    if found == 1 {
      assert OnlyFit(pools, name, last);
      return candidate;
    }
    r := None;
  }

  /** The choice is the same for every order of the range. */
  lemma ChoiceIsUnique(pools: map<string, Values>, name: string, r: Option<Values>, r': Option<Values>)
    requires Chosen(pools, name, r) && Chosen(pools, name, r')
    ensures r == r'
  {
    if name !in pools && exists s :: OnlyFit(pools, name, s) {
      var s :| OnlyFit(pools, name, s) && r == Some(pools[s]);
      var t :| OnlyFit(pools, name, t) && r' == Some(pools[t]);
      assert s == t;
    }
  }

  /** Two pools whose names differ only in case each get their own section, and a third spelling gets
      neither. */
  lemma CaseTwinsAreKeptApart(pools: map<string, Values>, a: string, b: string, name: string, r: Option<Values>)
    requires a in pools && b in pools && a != b && EqualFold(a, b) && EqualFold(name, a)
    requires Chosen(pools, name, r)
    ensures name == a ==> r == Some(pools[a])
    ensures name == b ==> r == Some(pools[b])
    ensures name !in pools ==> r == None
  {
    assert EqualFold(a, name) && EqualFold(b, name);
  }

  lemma LowerCaseMatches(s: string)
    ensures EqualFold(ToLower(s), s)
  {
    assert forall i | 0 <= i < |s| :: LowerChar(LowerChar(s[i])) == LowerChar(s[i]);
  }

  /** A section written in lower case is found for a pool that reports its name otherwise. */
  lemma LoneSpellingIsFound(name: string, values: Values, r: Option<Values>)
    requires Chosen(map[ToLower(name) := values], name, r)
    ensures r == Some(values)
  {
    LowerCaseMatches(name);
    var pools := map[ToLower(name) := values];
    assert name !in pools ==> OnlyFit(pools, name, ToLower(name));
  }
}
