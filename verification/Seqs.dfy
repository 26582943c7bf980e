/**
  Sums, filters and slices of sequences, shared by every ledger and log of the model. Filters and sums
  recurse from the end, because every log of the model grows there; the lemmas say how they take an
  appended, replaced or removed element, a concatenation, and pointwise smaller or larger weights.
*/
module Seqs {

  datatype Option<+T> = None | Some(value: T)

  /** The elements satisfying `p`, in order. */
  function Filter<T>(s: seq<T>, p: T -> bool): (r: seq<T>)
    ensures forall x | x in r :: x in s && p(x)
    ensures forall x | x in s && p(x) :: x in r
    ensures |r| <= |s|
  {
    if s == [] then []
    else
      var front := Filter(s[..|s| - 1], p);
      if p(s[|s| - 1]) then front + [s[|s| - 1]] else front
  }

  /** The sum of the weights of the elements. */
  function SumBy<T>(s: seq<T>, w: T -> int): int {
    if s == [] then 0 else SumBy(s[..|s| - 1], w) + w(s[|s| - 1])
  }

  lemma FilterSnoc<T>(s: seq<T>, x: T, p: T -> bool)
    ensures Filter(s + [x], p) == Filter(s, p) + (if p(x) then [x] else [])
  {
    assert (s + [x])[..|s|] == s;
  }

  lemma {:induction false} FilterAll<T>(s: seq<T>, p: T -> bool)
    requires forall i :: 0 <= i < |s| ==> p(s[i])
    ensures Filter(s, p) == s
  {
    if s != [] {
      var init := s[..|s| - 1];
      FilterAll(init, p);
      assert s == init + [s[|s| - 1]];
    }
  }

  lemma SumSnoc<T>(s: seq<T>, x: T, w: T -> int)
    ensures SumBy(s + [x], w) == SumBy(s, w) + w(x)
  {
    assert (s + [x])[..|s|] == s;
  }

  lemma {:induction false} SumConcat<T>(s: seq<T>, t: seq<T>, w: T -> int)
    ensures SumBy(s + t, w) == SumBy(s, w) + SumBy(t, w)
  {
    if t == [] {
      assert s + t == s;
    } else {
      var init, last := t[..|t| - 1], t[|t| - 1];
      assert s + t == (s + init) + [last];
      SumSnoc(s + init, last, w);
      SumConcat(s, init, w);
    }
  }

  lemma SumSplit<T>(s: seq<T>, i: nat, w: T -> int)
    requires i < |s|
    ensures SumBy(s, w) == SumBy(s[..i], w) + w(s[i]) + SumBy(s[i + 1..], w)
  {
    assert s == (s[..i] + [s[i]]) + s[i + 1..];
    SumConcat(s[..i] + [s[i]], s[i + 1..], w);
    SumSnoc(s[..i], s[i], w);
  }

  /** Replacing one element shifts a sum by the difference of the two weights. */
  lemma SumUpdate<T>(s: seq<T>, i: nat, x: T, w: T -> int)
    requires i < |s|
    ensures SumBy(s[i := x], w) == SumBy(s, w) - w(s[i]) + w(x)
  {
    SumSplit(s, i, w);
    SumSplit(s[i := x], i, w);
    assert s[i := x][..i] == s[..i] && s[i := x][i + 1..] == s[i + 1..];
  }

  lemma {:induction false} SumLe<T>(s: seq<T>, w: T -> int, v: T -> int)
    requires forall x :: x in s ==> w(x) <= v(x)
    ensures SumBy(s, w) <= SumBy(s, v)
  {
    if s != [] {
      SumLe(s[..|s| - 1], w, v);
    }
  }

  lemma {:induction false} SumZero<T>(s: seq<T>, w: T -> int)
    requires forall x :: x in s ==> w(x) == 0
    ensures SumBy(s, w) == 0
  {
    if s != [] {
      SumZero(s[..|s| - 1], w);
    }
  }

  lemma {:induction false} SumNonNegative<T>(s: seq<T>, w: T -> int)
    requires forall x :: x in s ==> 0 <= w(x)
    ensures 0 <= SumBy(s, w)
  {
    if s != [] {
      SumNonNegative(s[..|s| - 1], w);
    }
  }

  /** Filtering never raises a sum of non-negative weights, and keeps it when only weightless elements go. */
  lemma {:induction false} SumFilter<T>(s: seq<T>, p: T -> bool, w: T -> int)
    requires forall x :: x in s ==> 0 <= w(x)
    ensures SumBy(Filter(s, p), w) <= SumBy(s, w)
    ensures (forall x :: x in s && !p(x) ==> w(x) == 0) ==> SumBy(Filter(s, p), w) == SumBy(s, w)
  {
    if s != [] {
      var init, last := s[..|s| - 1], s[|s| - 1];
      SumFilter(init, p, w);
      if p(last) {
        SumSnoc(Filter(init, p), last, w);
      }
    }
  }

  /** A sum of two weights is the sum of their pointwise total. */
  lemma {:induction false} SumAdd<T>(s: seq<T>, u: T -> int, v: T -> int, w: T -> int)
    requires forall x :: x in s ==> w(x) == u(x) + v(x)
    ensures SumBy(s, w) == SumBy(s, u) + SumBy(s, v)
  {
    if s != [] {
      SumAdd(s[..|s| - 1], u, v, w);
    }
  }

  lemma {:induction false} SumPositive<T>(s: seq<T>, i: nat, w: T -> int)
    requires i < |s| && forall x :: x in s ==> 0 <= w(x)
    ensures w(s[i]) <= SumBy(s, w)
  {
    SumSplit(s, i, w);
    SumNonNegative(s[..i], w);
    SumNonNegative(s[i + 1..], w);
  }

  lemma Inhabited<T>(s: set<T>) returns (x: T)
    requires s != {}
    ensures x in s
  {
    x :| x in s;
  }

  lemma {:induction false} SubsetSize<T>(a: set<T>, b: set<T>)
    requires a <= b
    ensures |a| <= |b|
    ensures |a| == |b| ==> a == b
    decreases b
  {
    if a != {} {
      var x :| x in a;
      SubsetSize(a - {x}, b - {x});
      assert a == (a - {x}) + {x} && b == (b - {x}) + {x};
    } else if b != {} {
      var y :| y in b;
      assert b == (b - {y}) + {y};
    }
  }

  lemma KeysSize<K, V>(m: map<K, V>)
    ensures |m| == |m.Keys|
  {}
}
