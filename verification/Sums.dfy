/** Sums of natural weights over finite sets. */
module Sums {

  lemma NonEmpty(s: set<int>)
    requires s != {}
    ensures exists x :: x in s
  {
    assert (forall x :: x !in s) ==> s == {};
  }

  ghost function Pick(s: set<int>): (x: int)
    requires s != {}
    ensures x in s
  {
    NonEmpty(s);
    var x :| x in s;
    x
  }

  ghost function Sum(weight: int -> nat, s: set<int>): nat {
    if s == {} then 0 else weight(Pick(s)) + Sum(weight, s - {Pick(s)})
  }

  lemma {:induction false} SumRemove(weight: int -> nat, s: set<int>, x: int)
    requires x in s
    ensures Sum(weight, s) == weight(x) + Sum(weight, s - {x})
    decreases s
  {
    var y := Pick(s);
    if y != x {
      SumRemove(weight, s - {y}, x);
      SumRemove(weight, s - {x}, y);
      assert s - {y} - {x} == s - {x} - {y};
    }
  }

  lemma {:induction false} SumUnion(weight: int -> nat, s: set<int>, t: set<int>)
    requires s !! t
    ensures Sum(weight, s + t) == Sum(weight, s) + Sum(weight, t)
    decreases s
  {
    if s == {} {
      assert s + t == t;
    } else {
      var x := Pick(s);
      SumRemove(weight, s, x);
      SumRemove(weight, s + t, x);
      assert s + t - {x} == (s - {x}) + t;
      SumUnion(weight, s - {x}, t);
    }
  }

  lemma SumInsert(weight: int -> nat, s: set<int>, x: int)
    requires x !in s
    ensures Sum(weight, {x} + s) == weight(x) + Sum(weight, s)
  {
    SumRemove(weight, {x} + s, x);
    assert {x} + s - {x} == s;
  }

  lemma SumSubset(weight: int -> nat, s: set<int>, t: set<int>)
    requires s <= t
    ensures Sum(weight, s) <= Sum(weight, t)
  {
    assert t == s + (t - s);
    SumUnion(weight, s, t - s);
  }

  /** Elements of weight zero do not matter. */
  lemma {:induction false} SumZero(weight: int -> nat, s: set<int>)
    requires forall x | x in s :: weight(x) == 0
    ensures Sum(weight, s) == 0
    decreases s
  {
    if s != {} {
      var x := Pick(s);
      SumRemove(weight, s, x);
      SumZero(weight, s - {x});
    }
  }
}
