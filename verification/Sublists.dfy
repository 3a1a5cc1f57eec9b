/** The elements of a list that pass a filter, in their order. */
module Sublists {
  function Filter<T>(s: seq<T>, keeps: T -> bool): seq<T> {
    if s == [] then [] else (if keeps(s[0]) then [s[0]] else []) + Filter(s[1..], keeps)
  }

  lemma FilterStep<T>(s: seq<T>, keeps: T -> bool)
    requires s != []
    ensures Filter(s, keeps) == (if keeps(s[0]) then [s[0]] else []) + Filter(s[1..], keeps)
  {
  }

  /** It has exactly the passing elements, each as often as the list. */
  lemma {:induction false} FilterHas<T(!new)>(s: seq<T>, keeps: T -> bool)
    ensures forall x :: multiset(Filter(s, keeps))[x] == if keeps(x) then multiset(s)[x] else 0
    ensures forall x :: x in Filter(s, keeps) <==> x in s && keeps(x)
  {
    if s != [] {
      FilterHas(s[1..], keeps);
      assert s == [s[0]] + s[1..];
    }
  }

  /** What comes from an earlier stretch comes first. */
  lemma {:induction false} FilterConcat<T>(a: seq<T>, b: seq<T>, keeps: T -> bool)
    ensures Filter(a + b, keeps) == Filter(a, keeps) + Filter(b, keeps)
  {
    if a == [] {
      assert a + b == b;
    } else {
      FilterStep(a + b, keeps);
      FilterStep(a, keeps);
      hide Filter;
      FilterConcat(a[1..], b, keeps);
      assert (a + b)[1..] == a[1..] + b && (a + b)[0] == a[0];
    }
  }

  lemma {:induction false} FilterAll<T>(s: seq<T>, keeps: T -> bool)
    requires forall x <- s :: keeps(x)
    ensures Filter(s, keeps) == s
  {
    if s != [] {
      assert s[0] in s;
      FilterAll(s[1..], keeps);
    }
  }
}
