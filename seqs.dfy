/** Generic sequence helpers standing for the Swift standard-library calls the
    view model uses: `firstIndex(where:)`, `map`, and the multiset of all
    leaves of a nested collection. */
module Seqs {
  import opened Wrappers

  /** `s.firstIndex(where: p)`: the position of the first element satisfying `p`. */
  function FirstIndex<T>(s: seq<T>, p: T -> bool): (r: Option<nat>)
    ensures r.Some? ==> r.value < |s| && p(s[r.value])
    ensures r.Some? ==> forall i :: 0 <= i < r.value ==> !p(s[i])
    ensures r.None? <==> forall i :: 0 <= i < |s| ==> !p(s[i])
  {
    if s == [] then None
    else if p(s[0]) then Some(0)
    else
      match FirstIndex(s[1..], p)
      case None => None
      case Some(k) => Some(k + 1)
  }

  /** Element-wise image of a sequence. */
  function Map<T, U>(f: T -> U, s: seq<T>): seq<U> {
    seq(|s|, i requires 0 <= i < |s| => f(s[i]))
  }

  /** No two positions of `s` carry the same key. */
  predicate DistinctBy<T, K(==)>(s: seq<T>, key: T -> K) {
    forall i, j :: 0 <= i < j < |s| ==> key(s[i]) != key(s[j])
  }

  /** The multiset union of `f(x)` over the elements `x` of `s`. */
  function SumOver<T, U>(s: seq<T>, f: T -> multiset<U>): multiset<U> {
    if s == [] then multiset{} else f(s[0]) + SumOver(s[1..], f)
  }

  lemma {:induction false} SumOverAppend<T, U>(s: seq<T>, t: seq<T>, f: T -> multiset<U>)
    ensures SumOver(s + t, f) == SumOver(s, f) + SumOver(t, f)
  {
    if s == [] {
      assert s + t == t;
    } else {
      assert (s + t)[1..] == s[1..] + t;
      SumOverAppend(s[1..], t, f);
    }
  }

  /** Replacing one element changes the sum by exactly that element's part. */
  lemma {:induction false} SumOverUpdate<T, U>(s: seq<T>, i: nat, x: T, f: T -> multiset<U>)
    requires i < |s|
    ensures SumOver(s[i := x], f) + f(s[i]) == SumOver(s, f) + f(x)
  {
    var u := s[i := x];
    assert SumOver(s, f) == f(s[0]) + SumOver(s[1..], f);
    assert SumOver(u, f) == f(u[0]) + SumOver(u[1..], f);
    if i == 0 {
      assert u[1..] == s[1..];
    } else {
      assert u[1..] == s[1..][i - 1 := x];
      assert u[0] == s[0] && s[1..][i - 1] == s[i];
      SumOverUpdate(s[1..], i - 1, x, f);
      calc {
        SumOver(u, f) + f(s[i]);
        f(s[0]) + (SumOver(s[1..][i - 1 := x], f) + f(s[1..][i - 1]));
        f(s[0]) + (SumOver(s[1..], f) + f(x));
      }
    }
  }

  /** Updating past the head of a sequence is updating its tail. */
  lemma ConsUpdate<T>(s: seq<T>, i: nat, x: T)
    requires 0 < i < |s|
    ensures [s[0]] + s[1..][i - 1 := x] == s[i := x]
  {
  }

  /** Appending one element keeps the last element just before it. */
  lemma AppendOne<T>(s: seq<T>, x: T)
    ensures |s + [x]| == |s| + 1 && (s + [x])[|s|] == x
    ensures |s| >= 1 ==> (s + [x])[|s| - 1] == s[|s| - 1]
  {
  }

  lemma ConsAppend<T>(s: seq<T>, t: seq<T>)
    requires s != []
    ensures [s[0]] + (s[1..] + t) == s + t
  {
  }

  /** Taking out the element at `k` takes it out of the multiset. */
  lemma MultisetRemoveAt<T>(t: seq<T>, k: nat)
    requires k < |t|
    ensures multiset(t[..k] + t[k + 1..]) == multiset(t) - multiset{t[k]}
  {
    assert t == t[..k] + [t[k]] + t[k + 1..];
  }

  /** In a permutation `t` of `s`, some position holds `s[0]`, and the rest of
      `t` is a permutation of the rest of `s`. */
  lemma PermutationHead<T>(s: seq<T>, t: seq<T>) returns (k: nat)
    requires s != [] && multiset(s) == multiset(t)
    ensures k < |t| && t[k] == s[0]
    ensures multiset(s[1..]) == multiset(t[..k] + t[k + 1..])
  {
    MultisetTail(s);
    k := IndexIn(t, s[0]);
    MultisetRemoveAt(t, k);
  }

  lemma MultisetTail<T>(s: seq<T>)
    requires s != []
    ensures s[0] in multiset(s)
    ensures multiset(s[1..]) == multiset(s) - multiset{s[0]}
  {
    assert s == [s[0]] + s[1..];
  }

  /** A position of `x` in `t`. */
  lemma IndexIn<T>(t: seq<T>, x: T) returns (k: nat)
    requires x in multiset(t)
    ensures k < |t| && t[k] == x
  {
    assert x in t;
    k :| 0 <= k < |t| && t[k] == x;
  }

  /** The sum does not depend on the order of the elements. */
  lemma {:induction false} SumOverPermutation<T, U>(s: seq<T>, t: seq<T>, f: T -> multiset<U>)
    requires multiset(s) == multiset(t)
    ensures SumOver(s, f) == SumOver(t, f)
    decreases |s|
  {
    if s == [] {
      assert |t| == |multiset(t)| == 0;
    } else {
      var k := PermutationHead(s, t);
      SumOverPermutation(s[1..], t[..k] + t[k + 1..], f);
      SumOverRemoveAt(t, k, f);
    }
  }

  lemma SumOverRemoveAt<T, U>(t: seq<T>, k: nat, f: T -> multiset<U>)
    requires k < |t|
    ensures SumOver(t, f) == SumOver(t[..k] + t[k + 1..], f) + f(t[k])
  {
    assert t == t[..k] + t[k..];
    SumOverAppend(t[..k], t[k..], f);
    assert t[k..][1..] == t[k + 1..];
    SumOverAppend(t[..k], t[k + 1..], f);
  }

  /** Mapping preserves being a permutation. */
  lemma {:induction false} MapPermutation<T, U>(f: T -> U, s: seq<T>, t: seq<T>)
    requires multiset(s) == multiset(t)
    ensures multiset(Map(f, s)) == multiset(Map(f, t))
    decreases |s|
  {
    if s == [] {
      assert |t| == |multiset(t)| == 0;
    } else {
      var k := PermutationHead(s, t);
      var rest := t[..k] + t[k + 1..];
      MapPermutation(f, s[1..], rest);
      MapRemoveAt(f, t, k);
      assert Map(f, s) == [f(s[0])] + Map(f, s[1..]);
    }
  }

  lemma MapRemoveAt<T, U>(f: T -> U, t: seq<T>, k: nat)
    requires k < |t|
    ensures multiset(Map(f, t)) == multiset(Map(f, t[..k] + t[k + 1..])) + multiset{f(t[k])}
  {
    var mt := Map(f, t);
    var rest := mt[..k] + mt[k + 1..];
    MultisetRemoveAt(mt, k);
    assert mt[k] in multiset(mt);
    assert multiset(mt) == multiset(rest) + multiset{mt[k]};
    MapTake(f, t, k);
    MapDrop(f, t, k + 1);
    MapAppend(f, t[..k], t[k + 1..]);
  }

  lemma MapTake<T, U>(f: T -> U, t: seq<T>, k: nat)
    requires k <= |t|
    ensures Map(f, t)[..k] == Map(f, t[..k])
  {
    var l, r := Map(f, t)[..k], Map(f, t[..k]);
    forall m | 0 <= m < k ensures l[m] == r[m] {
      assert l[m] == f(t[m]);
    }
  }

  lemma MapDrop<T, U>(f: T -> U, t: seq<T>, k: nat)
    requires k <= |t|
    ensures Map(f, t)[k..] == Map(f, t[k..])
  {
    var l, r := Map(f, t)[k..], Map(f, t[k..]);
    forall m | 0 <= m < |t| - k ensures l[m] == r[m] {
      assert l[m] == f(t[k + m]);
    }
  }

  lemma MapAppend<T, U>(f: T -> U, s: seq<T>, t: seq<T>)
    ensures Map(f, s + t) == Map(f, s) + Map(f, t)
  {
  }

  /** Mapping with a function that `f` cannot tell from the identity leaves
      the sum unchanged. */
  lemma {:induction false} SumOverMap<T, U>(s: seq<T>, g: T -> T, f: T -> multiset<U>)
    requires forall x :: f(g(x)) == f(x)
    ensures SumOver(Map(g, s), f) == SumOver(s, f)
  {
    if s != [] {
      SumOverMap(s[1..], g, f);
      assert Map(g, s)[1..] == Map(g, s[1..]);
    }
  }
}
