/**
  Cross-site price ranking (`routing/price_compare.go`): the in-place exchange sort over a
  comparator that is not a strict weak order, and the marking of one recommended row per model,
  which must be a cheapest one.
*/
module PriceRanking {
  import opened Seqs
  import opened Text

  datatype Row = Row(siteID: int, siteName: string, model: string, accountID: int, cost: real, missingPrice: bool, recommended: bool)

  /** `strings.ToLower`. */
  type Lowering = string -> string

  // ---------------------------------------------------------------- the comparator

  predicate PriceCompareLess(a: Row, b: Row, lower: Lowering) {
    if a.missingPrice != b.missingPrice then !a.missingPrice && b.missingPrice
    else if a.cost != b.cost then a.cost < b.cost
    else if a.siteName != b.siteName then Text.Less(lower(a.siteName), lower(b.siteName))
    else if a.accountID != b.accountID then a.accountID < b.accountID
    else Text.Less(a.model, b.model)
  }

  lemma CompareTransitive(a: Row, b: Row, c: Row, lower: Lowering)
    requires PriceCompareLess(a, b, lower) && PriceCompareLess(b, c, lower)
    ensures PriceCompareLess(a, c, lower)
  {
    var x, y, z := lower(a.siteName), lower(b.siteName), lower(c.siteName);
    LessTotal(x, y);
    LessTotal(y, z);
    if Text.Less(x, y) && Text.Less(y, z) {
      LessTransitive(x, y, z);
      LessTotal(x, z);
    }
    if Text.Less(a.model, b.model) && Text.Less(b.model, c.model) {
      LessTransitive(a.model, b.model, c.model);
    }
  }

  lemma CompareAsymmetric(a: Row, b: Row, lower: Lowering)
    requires PriceCompareLess(a, b, lower)
    ensures !PriceCompareLess(b, a, lower)
  {
    LessTotal(lower(a.siteName), lower(b.siteName));
    LessTotal(a.model, b.model);
  }

  /** Incomparability is not transitive: two rows of one site, and one of a site differing only in case. */
  lemma NotAStrictWeakOrder(lower: Lowering) returns (x: Row, y: Row, z: Row)
    requires lower("a") == lower("A")
    ensures !PriceCompareLess(x, y, lower) && !PriceCompareLess(y, x, lower)
    ensures !PriceCompareLess(y, z, lower) && !PriceCompareLess(z, y, lower)
    ensures PriceCompareLess(x, z, lower)
  {
    x := Row(1, "A", "m", 1, 1.0, false, false);
    y := x.(siteName := "a");
    z := x.(accountID := 2);
    LessTotal(lower("a"), lower("A"));
  }

  // ---------------------------------------------------------------- the sort

  function Swapped(s: seq<Row>, i: nat, j: nat): (r: seq<Row>)
    requires i < j < |s|
    ensures |r| == |s|
  {
    s[i := s[j]][j := s[i]]
  }

  /** One pass of the inner loop from `j` on: position `i` collects a minimal row. */
  function InnerPass(s: seq<Row>, i: nat, j: nat, lower: Lowering): (r: seq<Row>)
    requires i < j <= |s|
    ensures |r| == |s|
    decreases |s| - j
  {
    if j == |s| then s
    else InnerPass(if PriceCompareLess(s[j], s[i], lower) then Swapped(s, i, j) else s, i, j + 1, lower)
  }

  function SortedFrom(s: seq<Row>, i: nat, lower: Lowering): (r: seq<Row>)
    requires i <= |s|
    ensures |r| == |s|
    decreases |s| - i
  {
    if i == |s| then s else SortedFrom(InnerPass(s, i, i + 1, lower), i + 1, lower)
  }

  method SortInPlace(a: array<Row>, lower: Lowering)
    modifies a
    ensures a[..] == SortedFrom(old(a[..]), 0, lower)
  {
    for i := 0 to a.Length
      invariant SortedFrom(a[..], i, lower) == SortedFrom(old(a[..]), 0, lower)
    {
      ghost var before := a[..];
      for j := i + 1 to a.Length
        invariant InnerPass(a[..], i, j, lower) == InnerPass(before, i, i + 1, lower)
      {
        if PriceCompareLess(a[j], a[i], lower) {
          ghost var s := a[..];
          a[i], a[j] := a[j], a[i];
          assert a[..] == Swapped(s, i, j);
        }
      }
    }
  }

  ghost predicate NoInversion(s: seq<Row>, lower: Lowering) {
    forall i, j :: 0 <= i < j < |s| ==> !PriceCompareLess(s[j], s[i], lower)
  }

  /** The rows before `i` are untouched and those from `i` on are rearranged. */
  ghost predicate Rearranged(s: seq<Row>, r: seq<Row>, i: nat) {
    i <= |s| == |r| && r[..i] == s[..i] && multiset(r[i..]) == multiset(s[i..])
  }

  lemma RearrangedAll(s: seq<Row>, r: seq<Row>, i: nat)
    requires Rearranged(s, r, i)
    ensures multiset(r) == multiset(s)
  {
    assert s == s[..i] + s[i..] && r == r[..i] + r[i..];
  }

  lemma RearrangedTwice(s: seq<Row>, t: seq<Row>, r: seq<Row>, i: nat)
    requires Rearranged(s, t, i) && Rearranged(t, r, i)
    ensures Rearranged(s, r, i)
  {}

  lemma SwapFirst(t: seq<Row>, j: nat)
    requires 0 < j < |t|
    ensures multiset(t[0 := t[j]][j := t[0]]) == multiset(t)
  {}

  lemma SwapRearranges(s: seq<Row>, i: nat, j: nat)
    requires i < j < |s|
    ensures Rearranged(s, Swapped(s, i, j), i)
  {
    var t := s[i..];
    assert Swapped(s, i, j)[i..] == t[0 := t[j - i]][j - i := t[0]];
    SwapFirst(t, j - i);
  }

  lemma {:induction false} InnerPassRearranges(s: seq<Row>, i: nat, j: nat, lower: Lowering)
    requires i < j <= |s|
    ensures Rearranged(s, InnerPass(s, i, j, lower), i)
    decreases |s| - j
  {
    if j < |s| {
      if PriceCompareLess(s[j], s[i], lower) {
        var t := Swapped(s, i, j);
        SwapRearranges(s, i, j);
        InnerPassRearranges(t, i, j + 1, lower);
        RearrangedTwice(s, t, InnerPass(t, i, j + 1, lower), i);
      } else {
        InnerPassRearranges(s, i, j + 1, lower);
      }
    }
  }

  /** No row strictly between `i` and `j` is less than the one at `i`. */
  ghost predicate MinimalUpTo(s: seq<Row>, i: nat, j: nat, lower: Lowering)
    requires i < j <= |s|
  {
    forall k :: i < k < j ==> !PriceCompareLess(s[k], s[i], lower)
  }

  lemma SwapStaysMinimal(s: seq<Row>, i: nat, j: nat, lower: Lowering)
    requires i < j < |s| && MinimalUpTo(s, i, j, lower) && PriceCompareLess(s[j], s[i], lower)
    ensures MinimalUpTo(Swapped(s, i, j), i, j + 1, lower)
  {
    CompareAsymmetric(s[j], s[i], lower);
    forall k | i < k < j ensures !PriceCompareLess(s[k], s[j], lower) {
      if PriceCompareLess(s[k], s[j], lower) {
        CompareTransitive(s[k], s[j], s[i], lower);
      }
    }
  }

  lemma {:induction false} InnerPassCollectsMinimal(s: seq<Row>, i: nat, j: nat, lower: Lowering)
    requires i < j <= |s| && MinimalUpTo(s, i, j, lower)
    ensures MinimalUpTo(InnerPass(s, i, j, lower), i, |s|, lower)
    decreases |s| - j
  {
    if j == |s| {
    } else if PriceCompareLess(s[j], s[i], lower) {
      SwapStaysMinimal(s, i, j, lower);
      InnerPassCollectsMinimal(Swapped(s, i, j), i, j + 1, lower);
    } else {
      InnerPassCollectsMinimal(s, i, j + 1, lower);
    }
  }

  lemma SameRowsSameMembers(s: seq<Row>, t: seq<Row>, x: Row)
    requires multiset(s) == multiset(t) && x in s
    ensures x in t
  {
    assert x in multiset(s);
  }

  /** Positions before `i` hold their final rows. */
  ghost predicate SettledBefore(s: seq<Row>, i: nat, lower: Lowering)
    requires i <= |s|
  {
    forall a, b :: 0 <= a < i && a < b < |s| ==> !PriceCompareLess(s[b], s[a], lower)
  }

  lemma PassSettlesOneMore(s: seq<Row>, i: nat, lower: Lowering)
    requires i < |s| && SettledBefore(s, i, lower)
    ensures SettledBefore(InnerPass(s, i, i + 1, lower), i + 1, lower)
  {
    var r := InnerPass(s, i, i + 1, lower);
    InnerPassCollectsMinimal(s, i, i + 1, lower);
    InnerPassRearranges(s, i, i + 1, lower);
    forall a, b | 0 <= a < i + 1 && a < b < |s| ensures !PriceCompareLess(r[b], r[a], lower) {
      if a < i {
        assert r[a] == r[..i][a] == s[a];
        if b < i {
          assert r[b] == r[..i][b] == s[b];
        } else {
          assert r[b] == r[i..][b - i];
          SameRowsSameMembers(r[i..], s[i..], r[b]);
        }
      }
    }
  }

  lemma {:induction false} SortSettles(s: seq<Row>, i: nat, lower: Lowering)
    requires i <= |s| && SettledBefore(s, i, lower)
    ensures NoInversion(SortedFrom(s, i, lower), lower)
    ensures multiset(SortedFrom(s, i, lower)) == multiset(s)
    decreases |s| - i
  {
    if i < |s| {
      InnerPassRearranges(s, i, i + 1, lower);
      RearrangedAll(s, InnerPass(s, i, i + 1, lower), i);
      PassSettlesOneMore(s, i, lower);
      SortSettles(InnerPass(s, i, i + 1, lower), i + 1, lower);
    }
  }

  /** The result is a permutation in which no row is preceded by one it is less than. */
  lemma SortHasNoInversion(s: seq<Row>, lower: Lowering)
    ensures NoInversion(SortedFrom(s, 0, lower), lower)
    ensures multiset(SortedFrom(s, 0, lower)) == multiset(s)
  {
    SortSettles(s, 0, lower);
  }

  // ---------------------------------------------------------------- recommendations

  /** The model a row can be recommended for: none without a price or a name. */
  type Keying = Row -> Option<string>

  function PricedKey(lower: Lowering): Keying {
    (r: Row) => if lower(Trim(r.model)) == "" || r.missingPrice then None else Some(lower(Trim(r.model)))
  }

  predicate FirstPriced(s: seq<Row>, i: nat, keyOf: Keying)
    requires i < |s|
  {
    keyOf(s[i]).Some? && forall j :: 0 <= j < i ==> keyOf(s[j]) != keyOf(s[i])
  }

  function MarkedAt(s: seq<Row>, i: nat, keyOf: Keying): Row
    requires i < |s|
  {
    if FirstPriced(s, i, keyOf) then s[i].(recommended := true) else s[i]
  }

  function Marked(s: seq<Row>, keyOf: Keying): (r: seq<Row>)
    ensures |r| == |s|
  {
    seq(|s|, i requires 0 <= i < |s| => MarkedAt(s, i, keyOf))
  }

  method MarkRecommendations(a: array<Row>, keyOf: Keying)
    modifies a
    ensures a[..] == Marked(old(a[..]), keyOf)
  {
    var seen: set<string> := {};
    ghost var s := a[..];
    for i := 0 to a.Length
      invariant forall j :: 0 <= j < i ==> a[j] == MarkedAt(s, j, keyOf)
      invariant forall j :: i <= j < a.Length ==> a[j] == s[j]
      invariant forall j :: 0 <= j < i && keyOf(s[j]).Some? ==> keyOf(s[j]).value in seen
      invariant forall key :: key in seen ==> exists j :: 0 <= j < i && keyOf(s[j]) == Some(key)
    {
      var key := keyOf(a[i]);
      if key.None? || key.value in seen {
        continue;
      }
      seen := seen + {key.value};
      a[i] := a[i].(recommended := true);
    }
  }

  method AggregatePriceCompareRows(rows: seq<Row>, lower: Lowering) returns (out: seq<Row>)
    ensures out == Aggregated(rows, lower)
  {
    if |rows| == 0 {
      return [];
    }
    var a := new Row[|rows|](i requires 0 <= i < |rows| => rows[i]);
    assert a[..] == rows;
    SortInPlace(a, lower);
    MarkRecommendations(a, PricedKey(lower));
    out := a[..];
  }

  // ---------------------------------------------------------------- theorems

  function Unmarked(s: seq<Row>): seq<Row> {
    seq(|s|, i requires 0 <= i < |s| => s[i].(recommended := false))
  }

  ghost predicate Unflagged(s: seq<Row>) {
    forall i :: 0 <= i < |s| ==> !s[i].recommended
  }

  function Aggregated(rows: seq<Row>, lower: Lowering): seq<Row> {
    Marked(SortedFrom(rows, 0, lower), PricedKey(lower))
  }

  lemma SortedUnflagged(rows: seq<Row>, lower: Lowering)
    requires Unflagged(rows)
    ensures Unflagged(SortedFrom(rows, 0, lower))
  {
    var s := SortedFrom(rows, 0, lower);
    SortHasNoInversion(rows, lower);
    forall i | 0 <= i < |s| ensures !s[i].recommended {
      SameRowsSameMembers(s, rows, s[i]);
    }
  }

  /** For unflagged input the answer is a permutation of it, flags aside, without inversions. */
  lemma AggregateIsSortedPermutation(rows: seq<Row>, lower: Lowering)
    requires Unflagged(rows)
    ensures multiset(Unmarked(Aggregated(rows, lower))) == multiset(rows)
    ensures NoInversion(Aggregated(rows, lower), lower)
    ensures forall i, j :: 0 <= i < j < |rows| ==>
      var a, b := Aggregated(rows, lower)[i], Aggregated(rows, lower)[j];
      (a.missingPrice ==> b.missingPrice) && (a.missingPrice == b.missingPrice ==> a.cost <= b.cost)
  {
    var s := SortedFrom(rows, 0, lower);
    SortHasNoInversion(rows, lower);
    SortedUnflagged(rows, lower);
    assert Unmarked(Aggregated(rows, lower)) == s;
    forall i, j | 0 <= i < j < |rows|
      ensures !PriceCompareLess(Aggregated(rows, lower)[j], Aggregated(rows, lower)[i], lower)
    {
      assert !PriceCompareLess(s[j], s[i], lower);
    }
  }

  lemma {:induction false} FirstPricedExists(s: seq<Row>, i: nat, keyOf: Keying) returns (f: nat)
    requires i < |s| && keyOf(s[i]).Some?
    ensures f <= i && keyOf(s[f]) == keyOf(s[i]) && FirstPriced(s, f, keyOf)
  {
    if FirstPriced(s, i, keyOf) {
      f := i;
    } else {
      var j :| 0 <= j < i && keyOf(s[j]) == keyOf(s[i]);
      f := FirstPricedExists(s, j, keyOf);
    }
  }

  ghost predicate IsRecommendedFor(out: seq<Row>, f: nat, key: Option<string>, keyOf: Keying) {
    f < |out| && out[f].recommended && keyOf(out[f]) == key
  }

  /** Marking an unflagged list gives every priced row exactly one recommended row of its model, not after it. */
  lemma MarkedExactlyOne(s: seq<Row>, i: nat, keyOf: Keying)
    requires Unflagged(s) && i < |s| && forall r: Row, b: bool :: keyOf(r.(recommended := b)) == keyOf(r)
    ensures var out := Marked(s, keyOf);
            && keyOf(out[i]) == keyOf(s[i])
            && (out[i].recommended ==> keyOf(s[i]).Some?)
            && (keyOf(s[i]).Some? ==>
                  exists f :: 0 <= f <= i && IsRecommendedFor(out, f, keyOf(s[i]), keyOf) &&
                    forall g :: IsRecommendedFor(out, g, keyOf(s[i]), keyOf) ==> g == f)
  {
    var out, key := Marked(s, keyOf), keyOf(s[i]);
    assert forall j :: 0 <= j < |s| ==> out[j] == MarkedAt(s, j, keyOf) && keyOf(out[j]) == keyOf(s[j]);
    if key.Some? {
      var f := FirstPricedExists(s, i, keyOf);
      assert IsRecommendedFor(out, f, key, keyOf);
      forall g: nat | IsRecommendedFor(out, g, key, keyOf) ensures g == f {
        assert FirstPriced(s, g, keyOf) && keyOf(s[g]) == keyOf(s[f]);
      }
    }
  }

  /**
    For unflagged input, every priced row of a named model has exactly one recommended row of its
    model, which is priced and at least as cheap; rows without a price or name are never recommended.
  */
  lemma ExactlyOneCheapestRecommended(rows: seq<Row>, lower: Lowering, i: nat)
    requires Unflagged(rows) && i < |rows|
    ensures var out, keyOf := Aggregated(rows, lower), PricedKey(lower);
            && (out[i].recommended ==> keyOf(out[i]).Some?)
            && (keyOf(out[i]).Some? ==>
                  exists f :: 0 <= f <= i && IsRecommendedFor(out, f, keyOf(out[i]), keyOf) && out[f].cost <= out[i].cost &&
                    forall g :: IsRecommendedFor(out, g, keyOf(out[i]), keyOf) ==> g == f)
  {
    var s, out, keyOf := SortedFrom(rows, 0, lower), Aggregated(rows, lower), PricedKey(lower);
    SortedUnflagged(rows, lower);
    AggregateIsSortedPermutation(rows, lower);
    MarkedExactlyOne(s, i, keyOf);
    if keyOf(s[i]).Some? {
      var f :| 0 <= f <= i && IsRecommendedFor(out, f, keyOf(s[i]), keyOf) &&
        forall g :: IsRecommendedFor(out, g, keyOf(s[i]), keyOf) ==> g == f;
      assert !out[i].missingPrice && !out[f].missingPrice;
      assert out[f].cost <= out[i].cost;
    }
  }

  /** A model goes by its trimmed name whatever its case. */
  ghost function ModelName(r: Row, lower: Lowering): string { lower(Trim(r.model)) }

  ghost predicate Recommends(out: seq<Row>, f: int, name: string, lower: Lowering) {
    0 <= f < |out| && out[f].recommended && !out[f].missingPrice && ModelName(out[f], lower) == name
  }

  lemma KeyedByName(r: Row, lower: Lowering)
    ensures PricedKey(lower)(r) == if r.missingPrice || ModelName(r, lower) == "" then None else Some(ModelName(r, lower))
  {}

  /** The same in model names: of all priced rows of a name exactly one is recommended, and none is cheaper. */
  lemma EveryPricedModelHasItsCheapest(rows: seq<Row>, lower: Lowering, i: nat)
    requires Unflagged(rows) && i < |rows|
    ensures var out := Aggregated(rows, lower); var row := out[i];
            && (row.recommended ==> !row.missingPrice && ModelName(row, lower) != "")
            && (!row.missingPrice && ModelName(row, lower) != "" ==>
                  exists f :: Recommends(out, f, ModelName(row, lower), lower) && out[f].cost <= row.cost &&
                    forall g :: Recommends(out, g, ModelName(row, lower), lower) ==> g == f)
  {
    var out, keyOf := Aggregated(rows, lower), PricedKey(lower);
    ExactlyOneCheapestRecommended(rows, lower, i);
    NamedRecommendation(out, i, lower);
  }

  lemma RecommendedByName(out: seq<Row>, f: nat, name: string, lower: Lowering)
    requires name != ""
    ensures IsRecommendedFor(out, f, Some(name), PricedKey(lower)) <==> Recommends(out, f, name, lower)
  {
    if f < |out| {
      KeyedByName(out[f], lower);
    }
  }

  lemma NamedRecommendation(out: seq<Row>, i: nat, lower: Lowering)
    requires i < |out|
    requires var keyOf := PricedKey(lower);
             && (out[i].recommended ==> keyOf(out[i]).Some?)
             && (keyOf(out[i]).Some? ==>
                   exists f :: 0 <= f <= i && IsRecommendedFor(out, f, keyOf(out[i]), keyOf) && out[f].cost <= out[i].cost &&
                     forall g :: IsRecommendedFor(out, g, keyOf(out[i]), keyOf) ==> g == f)
    ensures out[i].recommended ==> !out[i].missingPrice && ModelName(out[i], lower) != ""
    ensures !out[i].missingPrice && ModelName(out[i], lower) != "" ==>
              exists f :: Recommends(out, f, ModelName(out[i], lower), lower) && out[f].cost <= out[i].cost &&
                forall g :: Recommends(out, g, ModelName(out[i], lower), lower) ==> g == f
  {
    var keyOf, name := PricedKey(lower), ModelName(out[i], lower);
    KeyedByName(out[i], lower);
    if !out[i].missingPrice && name != "" {
      var f :| 0 <= f <= i && IsRecommendedFor(out, f, Some(name), keyOf) && out[f].cost <= out[i].cost &&
        forall g :: IsRecommendedFor(out, g, Some(name), keyOf) ==> g == f;
      RecommendedByName(out, f, name, lower);
      forall g: nat | Recommends(out, g, name, lower) ensures g == f {
        RecommendedByName(out, g, name, lower);
      }
    }
  }
}
