// Python's stable `sorted`, as an insertion sort over a "must precede" order.
module Sorting {
  import opened Prelude

  /** `before` is a strict weak order: irreflexive, and "not before" is transitive. */
  ghost predicate WeakOrder<T(!new)>(before: (T, T) -> bool) {
    && (forall x :: !before(x, x))
    && (forall x, y :: before(x, y) ==> !before(y, x))
    && (forall x, y, z :: !before(x, y) && !before(y, z) ==> !before(x, z))
  }

  function Insert<T>(before: (T, T) -> bool, x: T, s: seq<T>): seq<T> {
    if s == [] || !before(s[0], x) then [x] + s else [s[0]] + Insert(before, x, s[1..])
  }

  function StableSort<T>(before: (T, T) -> bool, s: seq<T>): seq<T> {
    if s == [] then [] else Insert(before, s[0], StableSort(before, s[1..]))
  }

  ghost predicate Ordered<T>(before: (T, T) -> bool, s: seq<T>) {
    forall i, j :: 0 <= i < j < |s| ==> !before(s[j], s[i])
  }

  lemma {:induction false} InsertKeepsElements<T>(before: (T, T) -> bool, x: T, s: seq<T>)
    ensures multiset(Insert(before, x, s)) == multiset{x} + multiset(s)
  {
    if s == [] || !before(s[0], x) {
    } else {
      InsertKeepsElements(before, x, s[1..]);
      assert s == [s[0]] + s[1..];
    }
  }

  lemma {:induction false} SortIsPermutation<T>(before: (T, T) -> bool, s: seq<T>)
    ensures multiset(StableSort(before, s)) == multiset(s)
    ensures |StableSort(before, s)| == |s|
  {
    if s != [] {
      SortIsPermutation(before, s[1..]);
      InsertKeepsElements(before, s[0], StableSort(before, s[1..]));
      assert s == [s[0]] + s[1..];
    }
    assert |multiset(StableSort(before, s))| == |multiset(s)|;
  }

  lemma SortMembers<T>(before: (T, T) -> bool, s: seq<T>, x: T)
    ensures x in StableSort(before, s) <==> x in s
  {
    SortIsPermutation(before, s);
    assert x in multiset(StableSort(before, s)) <==> x in multiset(s);
  }

  lemma SortKeepsMembers<T(!new)>(before: (T, T) -> bool, s: seq<T>)
    ensures forall x :: x in StableSort(before, s) <==> x in s
  {
    forall x ensures x in StableSort(before, s) <==> x in s {
      SortMembers(before, s, x);
    }
  }

  lemma {:induction false} InsertKeepsOrder<T(!new)>(before: (T, T) -> bool, x: T, s: seq<T>)
    requires WeakOrder(before) && Ordered(before, s)
    ensures Ordered(before, Insert(before, x, s))
  {
    if s == [] || !before(s[0], x) {
      var r := [x] + s;
      forall i, j | 0 <= i < j < |r| ensures !before(r[j], r[i]) {
        if i == 0 && j > 1 {
          assert !before(s[j - 1], s[0]);
        } else if i > 0 {
          assert r[j] == s[j - 1] && r[i] == s[i - 1];
        }
      }
    } else {
      InsertKeepsOrder(before, x, s[1..]);
      InsertKeepsElements(before, x, s[1..]);
      var tail := Insert(before, x, s[1..]);
      forall k | 0 <= k < |tail| ensures !before(tail[k], s[0]) {
        assert tail[k] in multiset(tail);
        assert tail[k] == x || tail[k] in s[1..];
      }
    }
  }

  /** The result is ordered by `before`. */
  lemma {:induction false} SortIsOrdered<T(!new)>(before: (T, T) -> bool, s: seq<T>)
    requires WeakOrder(before)
    ensures Ordered(before, StableSort(before, s))
  {
    if s != [] {
      SortIsOrdered(before, s[1..]);
      InsertKeepsOrder(before, s[0], StableSort(before, s[1..]));
    }
  }

  lemma {:induction false} InsertKeepsTies<T(!new)>(before: (T, T) -> bool, x: T, s: seq<T>, tied: T -> bool)
    requires forall a, b :: tied(a) && tied(b) ==> !before(a, b)
    ensures Filter(tied, Insert(before, x, s)) == Filter(tied, [x] + s)
  {
    if s == [] || !before(s[0], x) {
    } else {
      InsertKeepsTies(before, x, s[1..], tied);
      assert ([x] + s)[1..] == s;
      assert ([x] + s[1..])[1..] == s[1..];
      assert ([s[0]] + Insert(before, x, s[1..]))[1..] == Insert(before, x, s[1..]);
    }
  }

  /** Elements that tie keep their original relative order. */
  lemma {:induction false} SortIsStable<T(!new)>(before: (T, T) -> bool, s: seq<T>, tied: T -> bool)
    requires forall a, b :: tied(a) && tied(b) ==> !before(a, b)
    ensures Filter(tied, StableSort(before, s)) == Filter(tied, s)
  {
    if s != [] {
      var sorted := StableSort(before, s[1..]);
      SortIsStable(before, s[1..], tied);
      InsertKeepsTies(before, s[0], sorted, tied);
      assert ([s[0]] + sorted)[1..] == sorted;
    }
  }
}
