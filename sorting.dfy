/** Swift's `sort(by: areInIncreasingOrder)` on arrays, modelled as a stable
    insertion sort over a strict weak ordering `less`. */
module Sorting {
  import opened Seqs

  /** What Swift demands of `areInIncreasingOrder`: asymmetric, and
      "not less" is transitive (negative transitivity). */
  ghost predicate StrictWeakOrder<T(!new)>(less: (T, T) -> bool) {
    && (forall x, y :: less(x, y) ==> !less(y, x))
    && (forall x, y, z :: less(x, z) ==> less(x, y) || less(y, z))
  }

  /** No element is `less` than one before it. */
  predicate Sorted<T>(s: seq<T>, less: (T, T) -> bool) {
    forall i, j :: 0 <= i < j < |s| ==> !less(s[j], s[i])
  }

  /** Places `x` before the first element of `s` that is not less than it. */
  function Insert<T>(x: T, s: seq<T>, less: (T, T) -> bool): (r: seq<T>)
    ensures multiset(r) == multiset(s) + multiset{x}
  {
    if s == [] || !less(s[0], x) then [x] + s
    else
      assert s == [s[0]] + s[1..];
      [s[0]] + Insert(x, s[1..], less)
  }

  function SortBy<T>(s: seq<T>, less: (T, T) -> bool): (r: seq<T>)
    ensures multiset(r) == multiset(s)
  {
    if s == [] then []
    else
      assert s == [s[0]] + s[1..];
      Insert(s[0], SortBy(s[1..], less), less)
  }

  lemma {:induction false} InsertSorted<T(!new)>(x: T, s: seq<T>, less: (T, T) -> bool)
    requires StrictWeakOrder(less) && Sorted(s, less)
    ensures Sorted(Insert(x, s, less), less)
  {
    if s == [] || !less(s[0], x) {
      var r := [x] + s;
      forall i, j | 0 <= i < j < |r| ensures !less(r[j], r[i]) {
        if i == 0 && s != [] {
          assert r[j] == s[j - 1];
          assert !less(s[j - 1], s[0]);
        }
      }
    } else {
      InsertSorted(x, s[1..], less);
      var t := Insert(x, s[1..], less);
      var r := [s[0]] + t;
      forall j | 0 < j < |r| ensures !less(r[j], s[0]) {
        assert r[j] in multiset(t);
        assert r[j] == x || r[j] in multiset(s[1..]);
        if r[j] != x {
          var k :| 0 <= k < |s[1..]| && s[1..][k] == r[j];
          assert s[k + 1] == r[j];
        }
      }
    }
  }

  /** The result of `SortBy` is sorted. */
  lemma {:induction false} SortBySorted<T(!new)>(s: seq<T>, less: (T, T) -> bool)
    requires StrictWeakOrder(less)
    ensures Sorted(SortBy(s, less), less)
  {
    if s != [] {
      SortBySorted(s[1..], less);
      InsertSorted(s[0], SortBy(s[1..], less), less);
    }
  }

  /** Sorting a sorted sequence leaves it as it is; so sorting is idempotent. */
  lemma {:induction false} SortBySortedIdentity<T>(s: seq<T>, less: (T, T) -> bool)
    requires Sorted(s, less)
    ensures SortBy(s, less) == s
  {
    if s != [] {
      SortBySortedIdentity(s[1..], less);
      assert s == [s[0]] + s[1..];
    }
  }

  lemma SortByIdempotent<T(!new)>(s: seq<T>, less: (T, T) -> bool)
    requires StrictWeakOrder(less)
    ensures SortBy(SortBy(s, less), less) == SortBy(s, less)
  {
    SortBySorted(s, less);
    SortBySortedIdentity(SortBy(s, less), less);
  }

  /** Sorting keeps keys pairwise distinct. */
  lemma {:induction false} SortByDistinct<T, K>(s: seq<T>, less: (T, T) -> bool, key: T -> K)
    requires DistinctBy(s, key)
    ensures DistinctBy(SortBy(s, less), key)
  {
    if s != [] {
      SortByDistinct(s[1..], less, key);
      var t := SortBy(s[1..], less);
      forall y | y in t ensures key(y) != key(s[0]) {
        assert y in multiset(s[1..]);
        var k :| 0 <= k < |s[1..]| && s[1..][k] == y;
        assert s[k + 1] == y;
      }
      InsertDistinct(s[0], t, less, key);
    }
  }

  lemma {:induction false} InsertDistinct<T, K>(x: T, s: seq<T>, less: (T, T) -> bool, key: T -> K)
    requires DistinctBy(s, key)
    requires forall y :: y in s ==> key(y) != key(x)
    ensures DistinctBy(Insert(x, s, less), key)
  {
    if s != [] && less(s[0], x) {
      InsertDistinct(x, s[1..], less, key);
      var t := Insert(x, s[1..], less);
      forall j | 0 <= j < |t| ensures key(t[j]) != key(s[0]) {
        assert t[j] in multiset(t);
        if t[j] != x {
          assert t[j] in multiset(s[1..]);
          var k :| 0 <= k < |s[1..]| && s[1..][k] == t[j];
          assert s[k + 1] == t[j];
        }
      }
    }
  }

  /** Every element of a sorted result comes from the input. */
  lemma SortByMember<T>(s: seq<T>, less: (T, T) -> bool, y: T)
    requires y in SortBy(s, less)
    ensures y in s
  {
    assert y in multiset(SortBy(s, less));
  }
}
