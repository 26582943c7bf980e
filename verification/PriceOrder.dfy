/**
  How far the price ranking of `routing/price_compare.go` keeps its documented order: cheaper first,
  then site name without regard to case, then account, then model. Every list keeps it up to rows whose
  sites differ in case alone.
*/
module PriceOrder {
  import opened Seqs
  import opened Text
  import opened PriceRanking

  /** The documented order; unlike the comparator it goes on to the account when only the case of the site differs. */
  predicate DocumentedLess(a: Row, b: Row, lower: Lowering) {
    if a.missingPrice != b.missingPrice then !a.missingPrice && b.missingPrice
    else if a.cost != b.cost then a.cost < b.cost
    else if lower(a.siteName) != lower(b.siteName) then Text.Less(lower(a.siteName), lower(b.siteName))
    else if a.accountID != b.accountID then a.accountID < b.accountID
    else Text.Less(a.model, b.model)
  }

  ghost predicate InDocumentedOrder(s: seq<Row>, lower: Lowering) {
    forall i, j :: 0 <= i < j < |s| ==> !DocumentedLess(s[j], s[i], lower)
  }

  /** Tied on price, same site but for the case, and different in account or model. */
  predicate CaseTwins(x: Row, y: Row, lower: Lowering) {
    && x.missingPrice == y.missingPrice && x.cost == y.cost
    && x.siteName != y.siteName && lower(x.siteName) == lower(y.siteName)
    && (x.accountID != y.accountID || x.model != y.model)
  }

  ghost predicate HasCaseTwins(rows: seq<Row>, lower: Lowering) {
    exists x, y :: x in rows && y in rows && CaseTwins(x, y, lower)
  }

  // ---------- every list ----------

  /**
    Every list comes out sorted by missing price, cost and lowered site name, and within one spelling
    of a site by account and then model.
  */
  lemma SortedThroughSiteAndAccount(rows: seq<Row>, lower: Lowering, i: nat, j: nat)
    requires Unflagged(rows) && i < j < |rows|
    ensures var a, b := Aggregated(rows, lower)[i], Aggregated(rows, lower)[j];
            && (a.missingPrice ==> b.missingPrice)
            && (a.missingPrice == b.missingPrice ==> a.cost <= b.cost)
            && (a.missingPrice == b.missingPrice && a.cost == b.cost ==> !Text.Less(lower(b.siteName), lower(a.siteName)))
    ensures var a, b := Aggregated(rows, lower)[i], Aggregated(rows, lower)[j];
            a.missingPrice == b.missingPrice && a.cost == b.cost && a.siteName == b.siteName ==>
              a.accountID <= b.accountID && (a.accountID == b.accountID ==> !Text.Less(b.model, a.model))
  {
    AggregateIsSortedPermutation(rows, lower);
    var a, b := Aggregated(rows, lower)[i], Aggregated(rows, lower)[j];
    assert !PriceCompareLess(b, a, lower);
    LessTotal(lower(a.siteName), lower(b.siteName));
  }

  // ---------- lists without case twins ----------

  lemma WithoutTwinsOrdersAgree(a: Row, b: Row, lower: Lowering)
    requires !CaseTwins(a, b, lower) && DocumentedLess(b, a, lower)
    ensures PriceCompareLess(b, a, lower)
  {
    LessTotal(a.model, b.model);
  }

  /** The rows of the answer are the input's, flags aside. */
  lemma AnswersAreRows(rows: seq<Row>, lower: Lowering, i: nat)
    requires Unflagged(rows) && i < |rows|
    ensures |Aggregated(rows, lower)| == |rows|
    ensures Aggregated(rows, lower)[i].(recommended := false) in rows
  {
    AggregateIsSortedPermutation(rows, lower);
    var plain := Unmarked(Aggregated(rows, lower));
    assert plain[i] in multiset(plain);
    assert plain[i] in rows;
  }

  lemma UntwinnedIsInOrder(rows: seq<Row>, lower: Lowering)
    requires Unflagged(rows) && !HasCaseTwins(rows, lower)
    ensures InDocumentedOrder(Aggregated(rows, lower), lower)
  {
    var out := Aggregated(rows, lower);
    AggregateIsSortedPermutation(rows, lower);
    forall i, j | 0 <= i < j < |out| ensures !DocumentedLess(out[j], out[i], lower) {
      AnswersAreRows(rows, lower, i);
      AnswersAreRows(rows, lower, j);
      var a, b := out[i].(recommended := false), out[j].(recommended := false);
      assert !CaseTwins(a, b, lower);
      if DocumentedLess(out[j], out[i], lower) {
        WithoutTwinsOrdersAgree(out[i], out[j], lower);
      }
    }
  }

  // ---------- lists with case twins ----------

  lemma {:induction false} PassKeepsSorted(s: seq<Row>, i: nat, j: nat, lower: Lowering)
    requires NoInversion(s, lower) && i < j <= |s|
    ensures InnerPass(s, i, j, lower) == s
    decreases |s| - j
  {
    if j < |s| {
      PassKeepsSorted(s, i, j + 1, lower);
    }
  }

  /** The sort moves nothing in a list without inversions. */
  lemma {:induction false} SortKeepsSorted(s: seq<Row>, i: nat, lower: Lowering)
    requires NoInversion(s, lower) && i <= |s|
    ensures SortedFrom(s, i, lower) == s
    decreases |s| - i
  {
    if i < |s| {
      PassKeepsSorted(s, i, i + 1, lower);
      SortKeepsSorted(s, i + 1, lower);
    }
  }

  function Below(x: Row, lower: Lowering): Row -> bool { (z: Row) => PriceCompareLess(z, x, lower) }
  function NotBelow(x: Row, lower: Lowering): Row -> bool { (z: Row) => !PriceCompareLess(z, x, lower) }

  lemma {:induction false} FilterSplits(s: seq<Row>, x: Row, lower: Lowering)
    ensures multiset(Filter(s, Below(x, lower))) + multiset(Filter(s, NotBelow(x, lower))) == multiset(s)
  {
    if s != [] {
      var init, last := s[..|s| - 1], s[|s| - 1];
      FilterSplits(init, x, lower);
      assert s == init + [last];
    }
  }

  /** First what must come before `x`, then `x`, then all the others. */
  lemma AroundHasNoInversion(a: seq<Row>, x: Row, b: seq<Row>, lower: Lowering)
    requires NoInversion(a, lower) && NoInversion(b, lower)
    requires forall i :: 0 <= i < |a| ==> PriceCompareLess(a[i], x, lower)
    requires forall i :: 0 <= i < |b| ==> !PriceCompareLess(b[i], x, lower)
    ensures NoInversion(a + [x] + b, lower)
  {
    var s, n := a + [x] + b, |a|;
    forall i, j | 0 <= i < j < |s| ensures !PriceCompareLess(s[j], s[i], lower) {
      if i < n && j == n {
        if PriceCompareLess(x, a[i], lower) {
          CompareAsymmetric(x, a[i], lower);
        }
      } else if i < n < j {
        assert s[j] == b[j - n - 1];
        if PriceCompareLess(s[j], a[i], lower) {
          CompareTransitive(s[j], a[i], x, lower);
        }
      } else if i >= n {
        assert s[j] == b[j - n - 1] && (i > n ==> s[i] == b[i - n - 1]);
      }
    }
  }

  lemma SortedMembers(s: seq<Row>, lower: Lowering)
    ensures NoInversion(SortedFrom(s, 0, lower), lower)
    ensures multiset(SortedFrom(s, 0, lower)) == multiset(s)
    ensures forall z :: z in SortedFrom(s, 0, lower) <==> z in s
  {
    SortHasNoInversion(s, lower);
    forall z ensures z in SortedFrom(s, 0, lower) <==> z in s {
      assert z in multiset(SortedFrom(s, 0, lower)) <==> z in multiset(s);
    }
  }

  lemma RemoveAt(s: seq<Row>, i: nat)
    requires i < |s|
    ensures multiset(s[..i] + s[i + 1..]) + multiset{s[i]} == multiset(s)
  {
    assert s == s[..i] + [s[i]] + s[i + 1..];
  }

  /** The rows that must precede `x`, and all others but one copy of `x`. */
  lemma SplitAround(rows: seq<Row>, x: Row, y: Row, lower: Lowering) returns (below: seq<Row>, rest: seq<Row>)
    requires x in rows && y in rows && x != y && !PriceCompareLess(y, x, lower)
    ensures multiset(below) + multiset{x} + multiset(rest) == multiset(rows) && y in rest
    ensures forall z :: z in below ==> PriceCompareLess(z, x, lower)
    ensures forall z :: z in rest ==> !PriceCompareLess(z, x, lower)
  {
    var others := Filter(rows, NotBelow(x, lower));
    below := Filter(rows, Below(x, lower));
    FilterSplits(rows, x, lower);
    if PriceCompareLess(x, x, lower) {
      CompareAsymmetric(x, x, lower);
    }
    assert NotBelow(x, lower)(x) && NotBelow(x, lower)(y);
    var k :| 0 <= k < |others| && others[k] == x;
    rest := others[..k] + others[k + 1..];
    RemoveAt(others, k);
    assert y in multiset(others) && y in multiset(rest);
    forall z | z in rest ensures !PriceCompareLess(z, x, lower) {
      assert z in others && NotBelow(x, lower)(z);
    }
    forall z | z in below ensures PriceCompareLess(z, x, lower) {
      assert Below(x, lower)(z);
    }
  }

  lemma SortAround(below: seq<Row>, x: Row, rest: seq<Row>, lower: Lowering) returns (s: seq<Row>)
    requires forall z :: z in below ==> PriceCompareLess(z, x, lower)
    requires forall z :: z in rest ==> !PriceCompareLess(z, x, lower)
    ensures s == SortedFrom(below, 0, lower) + [x] + SortedFrom(rest, 0, lower)
    ensures NoInversion(s, lower) && multiset(s) == multiset(below) + multiset{x} + multiset(rest)
  {
    SortedMembers(below, lower);
    SortedMembers(rest, lower);
    var a, b := SortedFrom(below, 0, lower), SortedFrom(rest, 0, lower);
    forall m | 0 <= m < |a| ensures PriceCompareLess(a[m], x, lower) {
      assert a[m] in below;
    }
    forall m | 0 <= m < |b| ensures !PriceCompareLess(b[m], x, lower) {
      assert b[m] in rest;
    }
    AroundHasNoInversion(a, x, b, lower);
    s := a + [x] + b;
  }

  /** An arrangement of the rows that has no inversion and `x` before `y`, when `y` need not precede `x`. */
  lemma ArrangedBefore(rows: seq<Row>, x: Row, y: Row, lower: Lowering) returns (s: seq<Row>, i: nat, j: nat)
    requires x in rows && y in rows && x != y && !PriceCompareLess(y, x, lower)
    ensures multiset(s) == multiset(rows) && NoInversion(s, lower)
    ensures i < j < |s| && s[i] == x && s[j] == y
  {
    var below, rest := SplitAround(rows, x, y, lower);
    s := SortAround(below, x, rest, lower);
    SortedMembers(rest, lower);
    var b := SortedFrom(rest, 0, lower);
    var m :| 0 <= m < |b| && b[m] == y;
    i := |SortedFrom(below, 0, lower)|;
    j := i + 1 + m;
  }

  /** Of two case twins one precedes the other in the documented order, while the comparator ties them. */
  lemma TwinsAreTied(x: Row, y: Row, lower: Lowering)
    requires CaseTwins(x, y, lower)
    ensures !PriceCompareLess(x, y, lower) && !PriceCompareLess(y, x, lower)
    ensures DocumentedLess(x, y, lower) || DocumentedLess(y, x, lower)
  {
    LessTotal(lower(x.siteName), lower(y.siteName));
    LessTotal(x.model, y.model);
  }

  /** An arrangement that comes out with the later twin first. */
  lemma TwinsComeOutOfOrder(rows: seq<Row>, x: Row, y: Row, lower: Lowering) returns (s: seq<Row>)
    requires Unflagged(rows) && x in rows && y in rows && CaseTwins(x, y, lower) && DocumentedLess(y, x, lower)
    ensures multiset(s) == multiset(rows) && !InDocumentedOrder(Aggregated(s, lower), lower)
  {
    TwinsAreTied(x, y, lower);
    var i, j;
    s, i, j := ArrangedBefore(rows, x, y, lower);
    SortKeepsSorted(s, 0, lower);
    var out := Aggregated(s, lower);
    assert out[i] == MarkedAt(s, i, PricedKey(lower)) && out[j] == MarkedAt(s, j, PricedKey(lower));
    FlagsDoNotOrder(y, x, out[j], out[i], lower);
  }

  lemma FlagsDoNotOrder(y: Row, x: Row, y': Row, x': Row, lower: Lowering)
    requires DocumentedLess(y, x, lower)
    requires (y' == y || y' == y.(recommended := true)) && (x' == x || x' == x.(recommended := true))
    ensures DocumentedLess(y', x', lower)
  {}

  /**
    Rows come out in the documented order however they are arranged if and only if no two of them
    are tied on price, differ only in the case of the site, and differ in account or model.
  */
  lemma DocumentedOrderGuaranteedIff(rows: seq<Row>, lower: Lowering)
    requires Unflagged(rows)
    ensures (forall s :: multiset(s) == multiset(rows) ==> InDocumentedOrder(Aggregated(s, lower), lower))
            <==> !HasCaseTwins(rows, lower)
  {
    if HasCaseTwins(rows, lower) {
      var x, y :| x in rows && y in rows && CaseTwins(x, y, lower);
      TwinsAreTied(x, y, lower);
      var s;
      if DocumentedLess(y, x, lower) {
        s := TwinsComeOutOfOrder(rows, x, y, lower);
      } else {
        s := TwinsComeOutOfOrder(rows, y, x, lower);
      }
    } else {
      forall s | multiset(s) == multiset(rows) ensures InDocumentedOrder(Aggregated(s, lower), lower) {
        SameRows(s, rows, lower);
        UntwinnedIsInOrder(s, lower);
      }
    }
  }

  lemma SameRows(s: seq<Row>, rows: seq<Row>, lower: Lowering)
    requires multiset(s) == multiset(rows) && Unflagged(rows)
    ensures Unflagged(s) && (HasCaseTwins(s, lower) ==> HasCaseTwins(rows, lower))
  {
    forall z | z in s ensures z in rows {
      assert z in multiset(s);
    }
    forall i | 0 <= i < |s| ensures !s[i].recommended {
      assert s[i] in s;
    }
  }

  /** The shortest failing list: one price, two spellings of a site, accounts descending. */
  lemma DescendingAccountsStay(lower: Lowering) returns (rows: seq<Row>)
    requires lower("a") == lower("A")
    ensures |rows| == 2 && Unflagged(rows) && !InDocumentedOrder(Aggregated(rows, lower), lower)
  {
    var x := Row(1, "A", "m", 2, 1.0, false, false);
    var y := x.(siteName := "a", accountID := 1);
    rows := [x, y];
    TwinsAreTied(x, y, lower);
    assert NoInversion(rows, lower);
    SortKeepsSorted(rows, 0, lower);
    var out := Aggregated(rows, lower);
    assert out[0] == MarkedAt(rows, 0, PricedKey(lower)) && out[1] == MarkedAt(rows, 1, PricedKey(lower));
    FlagsDoNotOrder(y, x, out[1], out[0], lower);
  }
}
