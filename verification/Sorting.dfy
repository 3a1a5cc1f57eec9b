/** Sorted listings of finite sets, by a total order: what Python's `sorted` gives for distinct keys. */
module Sorting {

  ghost predicate TotalOrder<T(!new)>(le: (T, T) -> bool) {
    && (forall a :: le(a, a))
    && (forall a, b :: le(a, b) || le(b, a))
    && (forall a, b :: le(a, b) && le(b, a) ==> a == b)
    && (forall a, b, c :: le(a, b) && le(b, c) ==> le(a, c))
  }

  ghost predicate Sorted<T>(s: seq<T>, le: (T, T) -> bool) {
    forall i, j | 0 <= i < j < |s| :: le(s[i], s[j])
  }

  ghost predicate NoDuplicates<T>(s: seq<T>) {
    forall i, j | 0 <= i < j < |s| :: s[i] != s[j]
  }

  function Elements<T>(s: seq<T>): set<T> {
    set x <- s
  }

  /** `s` is the sorted listing of the set. */
  ghost predicate Lists<T>(s: seq<T>, elements: set<T>, le: (T, T) -> bool) {
    Sorted(s, le) && NoDuplicates(s) && Elements(s) == elements
  }

  lemma TailLists<T(!new)>(s: seq<T>, elements: set<T>, le: (T, T) -> bool)
    requires s != [] && Lists(s, elements, le)
    ensures Lists(s[1..], elements - {s[0]}, le)
  {
    assert s == [s[0]] + s[1..];
    forall x | x in s[1..] ensures x != s[0] {
      var i :| 0 <= i < |s[1..]| && s[1..][i] == x;
      assert s[i + 1] == x;
    }
  }

  /** A set has one sorted listing. */
  lemma {:induction false} ListingIsUnique<T(!new)>(s: seq<T>, t: seq<T>, elements: set<T>, le: (T, T) -> bool)
    requires TotalOrder(le) && Lists(s, elements, le) && Lists(t, elements, le)
    ensures s == t
    decreases |s|
  {
    assert s != [] ==> s[0] in Elements(s);
    assert t != [] ==> t[0] in Elements(t);
    if s != [] && t != [] {
      assert s[0] in t && t[0] in s;
      FirstIsLeast(s, elements, le, t[0]);
      FirstIsLeast(t, elements, le, s[0]);
      TailLists(s, elements, le);
      TailLists(t, elements, le);
      ListingIsUnique(s[1..], t[1..], elements - {s[0]}, le);
    }
  }

  lemma FirstIsLeast<T(!new)>(s: seq<T>, elements: set<T>, le: (T, T) -> bool, x: T)
    requires TotalOrder(le) && s != [] && Lists(s, elements, le) && x in s
    ensures le(s[0], x)
  {
    var i :| 0 <= i < |s| && s[i] == x;
  }

  function Insert<T>(x: T, s: seq<T>, le: (T, T) -> bool): seq<T> {
    if s == [] || le(x, s[0]) then [x] + s else [s[0]] + Insert(x, s[1..], le)
  }

  lemma {:induction false} InsertElements<T(!new)>(x: T, s: seq<T>, le: (T, T) -> bool)
    ensures Elements(Insert(x, s, le)) == Elements(s) + {x}
  {
    if s != [] && !le(x, s[0]) {
      InsertElements(x, s[1..], le);
      assert s == [s[0]] + s[1..];
      assert Elements(s) == {s[0]} + Elements(s[1..]);
      assert Elements(Insert(x, s, le)) == {s[0]} + Elements(Insert(x, s[1..], le));
    } else {
      assert Elements([x] + s) == {x} + Elements(s);
    }
  }

  lemma {:induction false} InsertLists<T(!new)>(x: T, s: seq<T>, elements: set<T>, le: (T, T) -> bool)
    requires TotalOrder(le) && Lists(s, elements, le) && x !in elements
    ensures Lists(Insert(x, s, le), elements + {x}, le)
    decreases |s|
  {
    InsertElements(x, s, le);
    if s != [] && !le(x, s[0]) {
      TailLists(s, elements, le);
      InsertLists(x, s[1..], elements - {s[0]}, le);
      var rest := Insert(x, s[1..], le);
      InsertElements(x, s[1..], le);
      forall i | 0 <= i < |rest| ensures le(s[0], rest[i]) && s[0] != rest[i] {
        assert rest[i] in Elements(rest);
        if rest[i] != x {
          assert rest[i] in s[1..] && rest[i] in s;
          FirstIsLeast(s, elements, le, rest[i]);
          assert rest[i] in elements - {s[0]};
        } else {
          assert s[0] in Elements(s);
        }
      }
      assert Insert(x, s, le) == [s[0]] + rest;
    } else {
      forall i | 0 <= i < |s| ensures le(x, s[i]) && x != s[i] {
        assert s[i] in Elements(s);
      }
    }
  }

  /** `sorted` over a set. */
  method SortSet<T(!new, ==)>(elements: set<T>, le: (T, T) -> bool) returns (s: seq<T>)
    requires TotalOrder(le)
    ensures Lists(s, elements, le)
  {
    s := [];
    var todo := elements;
    while todo != {}
      invariant todo <= elements && Lists(s, elements - todo, le)
      decreases |todo|
    {
      var x :| x in todo;
      InsertLists(x, s, elements - todo, le);
      assert elements - todo + {x} == elements - (todo - {x});
      s := Insert(x, s, le);
      todo := todo - {x};
    }
    assert elements - todo == elements;
  }

  lemma {:induction false} DistinctCount<T(!new)>(s: seq<T>)
    requires NoDuplicates(s)
    ensures |Elements(s)| == |s|
  {
    if s != [] {
      DistinctCount(s[1..]);
      assert s == [s[0]] + s[1..];
      forall x | x in s[1..] ensures x != s[0] {
        var i :| 0 <= i < |s[1..]| && s[1..][i] == x;
        assert s[i + 1] == x;
      }
      assert Elements(s) == {s[0]} + Elements(s[1..]);
    }
  }

  lemma {:induction false} ElementsAtMost<T(!new)>(s: seq<T>)
    ensures |Elements(s)| <= |s|
    ensures |Elements(s)| == |s| ==> NoDuplicates(s)
  {
    if s != [] {
      var rest := s[1..];
      ElementsAtMost(rest);
      assert s == [s[0]] + rest;
      assert Elements(s) == {s[0]} + Elements(rest);
      if |Elements(s)| == |s| {
        assert s[0] !in Elements(rest);
        forall i, j | 0 <= i < j < |s| ensures s[i] != s[j] {
          if i == 0 {
            assert rest[j - 1] in Elements(rest);
          } else {
            assert rest[i - 1] != rest[j - 1];
          }
        }
      }
    }
  }

  /** Another order of a list without repetition has no repetition. */
  lemma ReorderedIsDistinct<T(!new)>(s: seq<T>, t: seq<T>)
    requires multiset(s) == multiset(t) && NoDuplicates(t)
    ensures NoDuplicates(s) && Elements(s) == Elements(t)
  {
    assert forall x :: x in s <==> x in multiset(s);
    assert forall x :: x in t <==> x in multiset(t);
    assert Elements(s) == Elements(t);
    assert |s| == |multiset(s)| == |multiset(t)| == |t|;
    hide NoDuplicates, Elements;
    DistinctCount(t);
    ElementsAtMost(s);
  }

  /** No two places of the sequence share a key. */
  ghost predicate UniqueBy<T(!new), K(!new)>(s: seq<T>, keyOf: T -> K) {
    forall i, j | 0 <= i < j < |s| :: keyOf(s[i]) != keyOf(s[j])
  }

  lemma KeyedAlike<T(!new), K(!new)>(s: seq<T>, keyOf: T -> K, a: T, b: T)
    requires UniqueBy(s, keyOf) && a in s && b in s && keyOf(a) == keyOf(b)
    ensures a == b
  {
    var i :| 0 <= i < |s| && s[i] == a;
    var j :| 0 <= j < |s| && s[j] == b;
    assert forall k, l | 0 <= k < |s| && 0 <= l < |s| && k != l :: keyOf(s[k]) != keyOf(s[l]);
  }

  lemma UniqueFromDistinct<T(!new), K(!new)>(s: seq<T>, keyOf: T -> K)
    requires NoDuplicates(s)
    requires forall a, b | a in s && b in s && keyOf(a) == keyOf(b) :: a == b
    ensures UniqueBy(s, keyOf)
  {
    forall i, j | 0 <= i < j < |s| ensures keyOf(s[i]) != keyOf(s[j]) {
      assert s[i] in s && s[j] in s && s[i] != s[j];
    }
  }

  function KeySet<T(!new, ==), K>(s: seq<T>, keyOf: T -> K): set<K> {
    set x <- s :: keyOf(x)
  }

  lemma ReorderedKeys<T(!new), K(!new)>(s: seq<T>, t: seq<T>, keyOf: T -> K)
    requires multiset(s) == multiset(t) && UniqueBy(t, keyOf)
    ensures UniqueBy(s, keyOf) && NoDuplicates(s) && Elements(s) == Elements(t) && KeySet(s, keyOf) == KeySet(t, keyOf) && |s| == |t|
  {
    assert NoDuplicates(t) by {
      forall i, j | 0 <= i < j < |t| ensures t[i] != t[j] {
        assert keyOf(t[i]) != keyOf(t[j]);
      }
    }
    ReorderedIsDistinct(s, t);
    assert |multiset(s)| == |multiset(t)|;
    assert forall x :: x in s <==> x in Elements(s);
    assert forall x :: x in t <==> x in Elements(t);
    forall a, b | a in s && b in s && keyOf(a) == keyOf(b) ensures a == b {
      KeyedAlike(t, keyOf, a, b);
    }
    UniqueFromDistinct(s, keyOf);
  }

  lemma {:induction false} UniqueCount<T(!new), K(!new)>(s: seq<T>, keyOf: T -> K)
    requires UniqueBy(s, keyOf)
    ensures |KeySet(s, keyOf)| == |s|
  {
    if s != [] {
      var first, rest := s[0], s[1..];
      UniqueCount(rest, keyOf);
      assert s == [first] + rest;
      assert KeySet(s, keyOf) == {keyOf(first)} + KeySet(rest, keyOf);
      forall x | x in rest ensures keyOf(x) != keyOf(first) {
        var i :| 0 <= i < |rest| && rest[i] == x;
        assert s[i + 1] == x;
      }
    }
  }

  /** The check that keys do not repeat, as a loop with the keys seen so far. */
  method AllDistinct<T(!new), K(!new, ==)>(s: seq<T>, keyOf: T -> K) returns (distinct: bool)
    ensures distinct <==> UniqueBy(s, keyOf)
  {
    var seen: set<K> := {};
    for i := 0 to |s|
      invariant forall k :: k in seen <==> exists j :: 0 <= j < i && keyOf(s[j]) == k
      invariant UniqueBy(s[..i], keyOf)
    {
      if keyOf(s[i]) in seen {
        return false;
      }
      assert forall j | 0 <= j < i :: s[..i + 1][j] == s[..i][j] == s[j];
      seen := seen + {keyOf(s[i])};
    }
    assert s[..|s|] == s;
    return true;
  }

  /** The order of tuples and of strings: the first difference decides. */
  function Lexicographic<T(==)>(a: seq<T>, b: seq<T>, le: (T, T) -> bool): bool {
    a == [] || (b != [] && if a[0] == b[0] then Lexicographic(a[1..], b[1..], le) else le(a[0], b[0]))
  }

  lemma {:induction false} LexicographicPair<T(!new)>(a: seq<T>, b: seq<T>, le: (T, T) -> bool)
    requires TotalOrder(le)
    ensures Lexicographic(a, b, le) || Lexicographic(b, a, le)
    ensures Lexicographic(a, b, le) && Lexicographic(b, a, le) ==> a == b
  {
    if a != [] && b != [] && a[0] == b[0] {
      LexicographicPair(a[1..], b[1..], le);
      assert a == [a[0]] + a[1..] && b == [b[0]] + b[1..];
    }
  }

  lemma {:induction false} LexicographicTransitive<T(!new)>(a: seq<T>, b: seq<T>, c: seq<T>, le: (T, T) -> bool)
    requires TotalOrder(le) && Lexicographic(a, b, le) && Lexicographic(b, c, le)
    ensures Lexicographic(a, c, le)
  {
    if a != [] && b != [] && c != [] && a[0] == b[0] == c[0] {
      LexicographicTransitive(a[1..], b[1..], c[1..], le);
    }
  }

  lemma LexicographicIsTotal<T(!new)>(le: (T, T) -> bool)
    requires TotalOrder(le)
    ensures TotalOrder((a: seq<T>, b: seq<T>) => Lexicographic(a, b, le))
  {
    forall a: seq<T>, b: seq<T>
      ensures Lexicographic(a, b, le) || Lexicographic(b, a, le)
      ensures Lexicographic(a, b, le) && Lexicographic(b, a, le) ==> a == b
    {
      LexicographicPair(a, b, le);
    }
    forall a: seq<T>, b: seq<T>, c: seq<T> | Lexicographic(a, b, le) && Lexicographic(b, c, le)
      ensures Lexicographic(a, c, le)
    {
      LexicographicTransitive(a, b, c, le);
    }
  }

  const CharOrder: (char, char) -> bool := (a: char, b: char) => a <= b

  /** The order of strings. */
  const StringOrder: (string, string) -> bool := (a: string, b: string) => Lexicographic(a, b, CharOrder)

  lemma StringOrderIsTotal()
    ensures TotalOrder(StringOrder)
  {
    LexicographicIsTotal(CharOrder);
    assert forall a, b :: StringOrder(a, b) == ((a: string, b: string) => Lexicographic(a, b, CharOrder))(a, b);
  }

  lemma {:induction false} FirstDifferenceDecides<T>(common: seq<T>, a: seq<T>, b: seq<T>, le: (T, T) -> bool)
    requires a == [] || b == [] || a[0] != b[0]
    ensures Lexicographic(common + a, common + b, le) <==> a == [] || (b != [] && le(a[0], b[0]))
  {
    if common == [] {
      assert common + a == a && common + b == b;
    } else {
      FirstDifferenceDecides(common[1..], a, b, le);
      assert (common + a)[1..] == common[1..] + a && (common + b)[1..] == common[1..] + b;
    }
  }

  /** Strings are ordered by the codes of the first characters in which they differ; a prefix goes first. */
  lemma StringOrderIs(common: string, a: string, b: string)
    requires a == [] || b == [] || a[0] != b[0]
    ensures StringOrder(common + a, common + b) <==> a == [] || (b != [] && a[0] as int < b[0] as int)
  {
    FirstDifferenceDecides(common, a, b, CharOrder);
  }

  // ---- sorting by a key ----

  ghost predicate SortedBy<T(!new), K(!new)>(s: seq<T>, keyOf: T -> K, le: (K, K) -> bool) {
    forall i, j | 0 <= i < j < |s| :: le(keyOf(s[i]), keyOf(s[j]))
  }

  /** Elements with distinct keys have one listing in the order of their keys. */
  lemma KeyedListingIsUnique<T(!new), K(!new)>(s: seq<T>, t: seq<T>, keyOf: T -> K, le: (K, K) -> bool)
    requires TotalOrder(le) && UniqueBy(s, keyOf) && UniqueBy(t, keyOf)
    requires SortedBy(s, keyOf, le) && SortedBy(t, keyOf, le) && Elements(s) == Elements(t)
    ensures s == t
  {
    hide TotalOrder;
    var a := seq(|s|, i requires 0 <= i < |s| => keyOf(s[i]));
    var b := seq(|t|, i requires 0 <= i < |t| => keyOf(t[i]));
    assert forall x :: x in s <==> x in Elements(s);
    assert forall x :: x in t <==> x in Elements(t);
    forall k ensures k in a <==> k in b {
      if k in a {
        var i :| 0 <= i < |a| && a[i] == k;
        assert s[i] in t;
        var j :| 0 <= j < |t| && t[j] == s[i];
        assert b[j] == k;
      }
      if k in b {
        var j :| 0 <= j < |b| && b[j] == k;
        assert t[j] in s;
        var i :| 0 <= i < |s| && s[i] == t[j];
        assert a[i] == k;
      }
    }
    assert Lists(a, Elements(a), le) && Lists(b, Elements(a), le);
    ListingIsUnique(a, b, Elements(a), le);
    forall i | 0 <= i < |s| ensures s[i] == t[i] {
      assert a[i] == b[i] && s[i] in t;
      KeyedAlike(t, keyOf, s[i], t[i]);
    }
  }

  /** Sorting by one key keeps another key distinct. */
  lemma StaysDistinct<T(!new), K(!new), I(!new)>(s: seq<T>, t: seq<T>, keyOf: T -> K, idOf: T -> I)
    requires UniqueBy(s, idOf) && UniqueBy(t, keyOf) && Elements(s) == Elements(t)
    ensures UniqueBy(t, idOf)
  {
    assert forall x :: x in s <==> x in Elements(s);
    forall i, j | 0 <= i < j < |t| ensures idOf(t[i]) != idOf(t[j]) {
      assert keyOf(t[i]) != keyOf(t[j]) && t[i] in Elements(t) && t[j] in Elements(t);
      var k :| 0 <= k < |s| && s[k] == t[i];
      var l :| 0 <= l < |s| && s[l] == t[j];
      assert k != l;
      assert idOf(s[if k < l then k else l]) != idOf(s[if k < l then l else k]);
    }
  }

  /** `sorted` with a key, over elements whose keys differ. */
  method SortByKey<T(!new, ==), K(!new, ==)>(s: seq<T>, keyOf: T -> K, le: (K, K) -> bool) returns (sorted: seq<T>)
    requires TotalOrder(le) && UniqueBy(s, keyOf)
    ensures SortedBy(sorted, keyOf, le) && UniqueBy(sorted, keyOf) && Elements(sorted) == Elements(s)
  {
    hide TotalOrder;
    var keys := SortSet(KeySet(s, keyOf), le);
    sorted := [];
    for i := 0 to |keys|
      invariant |sorted| == i && forall j | 0 <= j < i :: sorted[j] in s && keyOf(sorted[j]) == keys[j]
    {
      assert keys[i] in Elements(keys);
      var x :| x in s && keyOf(x) == keys[i];
      sorted := sorted + [x];
    }
    forall x | x in s ensures x in sorted {
      assert keyOf(x) in Elements(keys);
      var i :| 0 <= i < |keys| && keys[i] == keyOf(x);
      KeyedAlike(s, keyOf, x, sorted[i]);
    }
  }
}
