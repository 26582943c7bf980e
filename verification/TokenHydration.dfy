/** Unmasking listed token keys (`platform/newapi_tokens.go`). */
module TokenHydration {
  // Masked display keys are replaced by the real ones in place and batch by batch; then all keys are checked.
  import opened Seqs
  import opened Text
  import opened TokenListing

  /** The batch lookup: no usable answer, or the keys by id (a missing key is the empty string). */
  datatype KeysAnswer = NoKeys | Keys(keys: map<int, string>)

  type Lookup = seq<int> -> KeysAnswer

  predicate Starred(key: string) { '*' in key }
  predicate Masked(i: Item) { i.key.Some? && Starred(i.key.value) }

  function FullKey(keys: map<int, string>, id: int): string { if id in keys then Trim(keys[id]) else "" }
  predicate Proper(key: string) { key != "" && !Starred(key) }

  /** The id an item compares under: 0 when it has none. */
  function IDValue(i: Item): int {
    match i.id
    case Absent => 0
    case Unusable(t) => t
    case Whole(n) => n
  }

  /** The ids of the masked items in order; none when one is unusable or repeated. */
  function MaskedIDs(items: seq<Item>): Option<seq<int>> {
    if items == [] then Some([])
    else
      var before, item := MaskedIDs(items[..|items| - 1]), items[|items| - 1];
      if before.None? || !Masked(item) then before
      else if !item.id.Whole? || item.id.n <= 0 || item.id.n in before.value then None
      else Some(before.value + [item.id.n])
  }

  predicate IsAt(items: seq<Item>, i: nat, id: int)
    requires i < |items|
  {
    IDValue(items[i]) == id
  }

  function FirstAt(items: seq<Item>, id: int, from: nat): (i: nat)
    requires from <= |items|
    ensures from <= i <= |items| && (i < |items| ==> IsAt(items, i, id))
    ensures forall j :: from <= j < i ==> !IsAt(items, j, id)
    decreases |items| - from
  {
    if from == |items| || IsAt(items, from, id) then from else FirstAt(items, id, from + 1)
  }

  /** Overwrites the key of the first item with this id. */
  function SetKey(items: seq<Item>, id: int, key: string): seq<Item> {
    var i := FirstAt(items, id, 0);
    if i == |items| then items else items[i := items[i].(key := Some(key))]
  }

  function FillBatch(items: seq<Item>, ids: seq<int>, keys: map<int, string>): (seq<Item>, bool) {
    if ids == [] then (items, true)
    else
      var (t, ok) := FillBatch(items, ids[..|ids| - 1], keys);
      var id := ids[|ids| - 1];
      if !ok || !Proper(FullKey(keys, id)) then (t, false) else (SetKey(t, id, FullKey(keys, id)), true)
  }

  function BatchEnd(start: nat, n: nat): nat { if start + PAGE_LIMIT > n then n else start + PAGE_LIMIT }

  /** The batch of at most one hundred ids that starts at `start`. */
  function Batch(ids: seq<int>, start: nat): seq<int>
    requires start <= |ids|
  {
    ids[start..BatchEnd(start, |ids|)]
  }

  function FillFrom(items: seq<Item>, ids: seq<int>, start: nat, lookup: Lookup): (seq<Item>, bool)
    decreases |ids| - start
  {
    if start >= |ids| then (items, true)
    else
      match lookup(Batch(ids, start))
      case NoKeys => (items, false)
      case Keys(keys) =>
        var (t, ok) := FillBatch(items, Batch(ids, start), keys);
        if !ok then (t, false) else FillFrom(t, ids, BatchEnd(start, |ids|), lookup)
  }

  function Hydrate(items: seq<Item>, lookup: Lookup): (seq<Item>, bool) {
    match MaskedIDs(items)
    case None => (items, false)
    case Some(ids) => FillFrom(items, ids, 0, lookup)
  }

  // ---------- in place ----------

  method CollectMaskedIDs(items: array<Item>) returns (ids: Option<seq<int>>)
    ensures ids == MaskedIDs(items[..])
  {
    var maskedIDs, seen := [], {};
    for n := 0 to items.Length
      invariant MaskedIDs(items[..n]) == Some(maskedIDs)
      invariant forall id :: id in seen <==> id in maskedIDs
    {
      var item := items[n];
      assert items[..n + 1][..n] == items[..n];
      if item.key.Some? && '*' in item.key.value {
        if !item.id.Whole? || item.id.n <= 0 || item.id.n in seen {
          MaskedIDsStopped(items[..], n + 1);
          return None;
        }
        seen := seen + {item.id.n};
        maskedIDs := maskedIDs + [item.id.n];
      }
    }
    assert items[..items.Length] == items[..];
    ids := Some(maskedIDs);
  }

  lemma {:induction false} MaskedIDsStopped(items: seq<Item>, n: nat)
    requires n <= |items| && MaskedIDs(items[..n]).None?
    ensures MaskedIDs(items).None?
    decreases |items|
  {
    if n == |items| {
      assert items[..n] == items;
    } else {
      assert items[..|items| - 1][..n] == items[..n];
      MaskedIDsStopped(items[..|items| - 1], n);
    }
  }

  method OverwriteKey(items: array<Item>, id: int, key: string)
    modifies items
    ensures items[..] == SetKey(old(items[..]), id, key)
  {
    var i := 0;
    while i < items.Length
      invariant 0 <= i <= items.Length
      invariant items[..] == old(items[..])
      invariant FirstAt(items[..], id, i) == FirstAt(items[..], id, 0)
    {
      if IDValue(items[i]) == id {
        items[i] := items[i].(key := Some(key));
        return;
      }
      i := i + 1;
    }
  }

  method HydrateBatch(items: array<Item>, ids: seq<int>, keys: map<int, string>) returns (ok: bool)
    modifies items
    ensures (items[..], ok) == FillBatch(old(items[..]), ids, keys)
  {
    for n := 0 to |ids|
      invariant (items[..], true) == FillBatch(old(items[..]), ids[..n], keys)
    {
      assert ids[..n + 1][..n] == ids[..n];
      var fullKey := FullKey(keys, ids[n]);
      if fullKey == "" || '*' in fullKey {
        FillStopped(old(items[..]), ids, n + 1, keys);
        return false;
      }
      OverwriteKey(items, ids[n], fullKey);
    }
    assert ids[..|ids|] == ids;
    ok := true;
  }

  lemma {:induction false} FillStopped(items: seq<Item>, ids: seq<int>, n: nat, keys: map<int, string>)
    requires n <= |ids| && !FillBatch(items, ids[..n], keys).1
    ensures FillBatch(items, ids, keys) == FillBatch(items, ids[..n], keys)
    decreases |ids|
  {
    if n == |ids| {
      assert ids[..n] == ids;
    } else {
      assert ids[..|ids| - 1][..n] == ids[..n];
      FillStopped(items, ids[..|ids| - 1], n, keys);
    }
  }

  method HydrateListedTokenKeys(items: array<Item>, lookup: Lookup) returns (ok: bool)
    modifies items
    ensures (items[..], ok) == Hydrate(old(items[..]), lookup)
  {
    var ids := CollectMaskedIDs(items);
    if ids.None? {
      return false;
    }
    var maskedIDs, start := ids.value, 0;
    while start < |maskedIDs|
      invariant 0 <= start <= |maskedIDs|
      invariant FillFrom(items[..], maskedIDs, start, lookup) == Hydrate(old(items[..]), lookup)
    {
      var end := start + PAGE_LIMIT;
      if end > |maskedIDs| {
        end := |maskedIDs|;
      }
      var answer := lookup(maskedIDs[start..end]);
      if answer.NoKeys? {
        return false;
      }
      ok := HydrateBatch(items, maskedIDs[start..end], answer.keys);
      if !ok {
        return;
      }
      start := end;
    }
    ok := true;
  }

  /** Real keys are the identity after hydration: present and pairwise different. */
  method ValidateTokenKeys(items: seq<Item>, trimmed: Item -> string) returns (ok: bool)
    ensures ok <==> DistinctKeys(items, trimmed)
  {
    var seen: set<string> := {};
    for n := 0 to |items|
      invariant DistinctKeys(items[..n], trimmed)
      invariant forall k :: k in seen <==> exists i :: 0 <= i < n && trimmed(items[i]) == k
    {
      var key := trimmed(items[n]);
      if key == "" || key in seen {
        return false;
      }
      seen := seen + {key};
    }
    ok := true;
  }

  function TrimmedKeys(): Item -> string { (i: Item) => TrimmedKey(i) }

  ghost predicate DistinctKeys(items: seq<Item>, key: Item -> string) {
    && (forall i :: 0 <= i < |items| ==> key(items[i]) != "")
    && (forall i, j :: 0 <= i < j < |items| ==> key(items[i]) != key(items[j]))
  }

  // ---------- what hydration does to a listed page ----------

  /** Ids absent or positive and never repeated: what the listing guarantees. */
  ghost predicate DistinctIDs(items: seq<Item>) {
    && (forall i :: 0 <= i < |items| ==> UsableID(items[i]))
    && (forall i, j :: 0 <= i < j < |items| ==> !SameID(items[i], items[j]))
  }

  function Patch(i: Item, keys: map<int, string>): Item {
    if i.id.Whole? && i.id.n in keys then i.(key := Some(keys[i.id.n])) else i
  }

  /** `t` is `items` with the keys in `done` put on the items with those ids. */
  ghost predicate Patched(items: seq<Item>, t: seq<Item>, done: map<int, string>) {
    |t| == |items| && forall i :: 0 <= i < |items| ==> t[i] == Patch(items[i], done)
  }

  ghost predicate AllPositive(ids: seq<int>) { forall k :: 0 <= k < |ids| ==> ids[k] > 0 }

  lemma SetKeyIsPatch(items: seq<Item>, t: seq<Item>, done: map<int, string>, id: int, key: string)
    requires DistinctIDs(items) && Patched(items, t, done) && id > 0
    ensures Patched(items, SetKey(t, id, key), done[id := key])
  {
    var f := FirstAt(t, id, 0);
    forall i | 0 <= i < |items| ensures SetKey(t, id, key)[i] == Patch(items[i], done[id := key]) {
      assert t[i] == Patch(items[i], done) && UsableID(items[i]);
      if f < i {
        assert t[f] == Patch(items[f], done) && UsableID(items[f]) && !SameID(items[f], items[i]);
        assert IsAt(t, f, id);
      } else if i < f {
        assert !IsAt(t, i, id);
      }
    }
  }

  /** Each id's own key from one answer, or nothing when a key is missing or still masked. */
  ghost function ResolveBatch(done: map<int, string>, ids: seq<int>, keys: map<int, string>): Option<map<int, string>> {
    if ids == [] then Some(done)
    else
      var before, id := ResolveBatch(done, ids[..|ids| - 1], keys), ids[|ids| - 1];
      if before.None? || !Proper(FullKey(keys, id)) then None else Some(before.value[id := FullKey(keys, id)])
  }

  lemma {:induction false} FillBatchPatches(items: seq<Item>, t: seq<Item>, done: map<int, string>, ids: seq<int>,
                                            keys: map<int, string>)
    requires DistinctIDs(items) && Patched(items, t, done) && AllPositive(ids)
    ensures FillBatch(t, ids, keys).1 <==> ResolveBatch(done, ids, keys).Some?
    ensures FillBatch(t, ids, keys).1 ==> Patched(items, FillBatch(t, ids, keys).0, ResolveBatch(done, ids, keys).value)
  {
    if ids != [] {
      var init, id := ids[..|ids| - 1], ids[|ids| - 1];
      FillBatchPatches(items, t, done, init, keys);
      if FillBatch(t, init, keys).1 {
        SetKeyIsPatch(items, FillBatch(t, init, keys).0, ResolveBatch(done, init, keys).value, id, FullKey(keys, id));
      }
    }
  }

  /** The upstream's answer to the one batch of `ids` that holds `id` named `key` for it. */
  ghost predicate Answered(lookup: Lookup, ids: seq<int>, id: int, key: string) {
    exists start :: AnsweredIn(lookup, ids, start, id, key)
  }

  ghost predicate AnsweredIn(lookup: Lookup, ids: seq<int>, start: int, id: int, key: string) {
    && 0 <= start < |ids| && start % PAGE_LIMIT == 0 && id in Batch(ids, start)
    && var answer := lookup(Batch(ids, start)); answer.Keys? && id in answer.keys && Trim(answer.keys[id]) == key
  }

  /** Exactly the ids in `part` are resolved, each to its own proper key. */
  ghost predicate ResolvedTo(done: map<int, string>, part: seq<int>, ids: seq<int>, lookup: Lookup) {
    && (forall id :: id in done <==> id in part)
    && (forall id :: id in done ==> Proper(done[id]) && Answered(lookup, ids, id, done[id]))
  }

  lemma ResolvedSnoc(done: map<int, string>, part: seq<int>, ids: seq<int>, start: nat, id: int, key: string, lookup: Lookup)
    requires ResolvedTo(done, part, ids, lookup) && Proper(key) && AnsweredIn(lookup, ids, start, id, key)
    ensures ResolvedTo(done[id := key], part + [id], ids, lookup)
  {
    assert Answered(lookup, ids, id, key);
  }

  lemma PartGrows(before: seq<int>, batch: seq<int>, n: nat)
    requires 0 < n <= |batch|
    ensures before + batch[..n] == (before + batch[..n - 1]) + [batch[n - 1]]
    ensures batch[n - 1] in batch
  {}

  lemma ResolveLast(done: map<int, string>, batch: seq<int>, n: nat, keys: map<int, string>)
    requires 0 < n <= |batch| && ResolveBatch(done, batch[..n], keys).Some?
    ensures var key := FullKey(keys, batch[n - 1]);
            && Proper(key) && ResolveBatch(done, batch[..n - 1], keys).Some?
            && ResolveBatch(done, batch[..n], keys).value == ResolveBatch(done, batch[..n - 1], keys).value[batch[n - 1] := key]
  {
    assert batch[..n][..n - 1] == batch[..n - 1];
  }

  lemma AnsweredHere(ids: seq<int>, start: nat, id: int, keys: map<int, string>, lookup: Lookup)
    requires start < |ids| && start % PAGE_LIMIT == 0 && lookup(Batch(ids, start)) == Keys(keys)
    requires id in Batch(ids, start) && Proper(FullKey(keys, id))
    ensures AnsweredIn(lookup, ids, start, id, FullKey(keys, id))
  {}

  lemma {:induction false} BatchResolves(done: map<int, string>, before: seq<int>, ids: seq<int>, start: nat, n: nat,
                                         keys: map<int, string>, lookup: Lookup)
    requires start < |ids| && start % PAGE_LIMIT == 0 && lookup(Batch(ids, start)) == Keys(keys)
    requires ResolvedTo(done, before, ids, lookup) && n <= |Batch(ids, start)|
    requires ResolveBatch(done, Batch(ids, start)[..n], keys).Some?
    ensures ResolvedTo(ResolveBatch(done, Batch(ids, start)[..n], keys).value, before + Batch(ids, start)[..n], ids, lookup)
    decreases n
  {
    var batch := Batch(ids, start);
    if n == 0 {
      assert before + batch[..0] == before;
    } else {
      var id, key := batch[n - 1], FullKey(keys, batch[n - 1]);
      ResolveLast(done, batch, n, keys);
      PartGrows(before, batch, n);
      AnsweredHere(ids, start, id, keys, lookup);
      BatchResolves(done, before, ids, start, n - 1, keys, lookup);
      var part := before + batch[..n - 1];
      ResolvedSnoc(ResolveBatch(done, batch[..n - 1], keys).value, part, ids, start, id, key, lookup);
    }
  }

  lemma BatchExtends(ids: seq<int>, start: nat)
    requires start < |ids|
    ensures ids[..start] + Batch(ids, start) == ids[..BatchEnd(start, |ids|)]
    ensures Batch(ids, start)[..|Batch(ids, start)|] == Batch(ids, start)
  {}

  predicate Aligned(start: nat, n: nat) { start <= n && (start < n ==> start % PAGE_LIMIT == 0) }

  lemma NextAligned(start: nat, n: nat)
    requires Aligned(start, n) && start < n
    ensures Aligned(BatchEnd(start, n), n)
  {}

  lemma NextBatch(items: seq<Item>, t: seq<Item>, u: seq<Item>, done: map<int, string>, ids: seq<int>, start: nat,
                  keys: map<int, string>, lookup: Lookup)
    returns (more: map<int, string>)
    requires start < |ids| && start % PAGE_LIMIT == 0 && ResolvedTo(done, ids[..start], ids, lookup)
    requires DistinctIDs(items) && Patched(items, t, done) && AllPositive(Batch(ids, start))
    requires lookup(Batch(ids, start)) == Keys(keys) && FillBatch(t, Batch(ids, start), keys) == (u, true)
    ensures Patched(items, u, more) && ResolvedTo(more, ids[..BatchEnd(start, |ids|)], ids, lookup)
  {
    FillBatchPatches(items, t, done, Batch(ids, start), keys);
    BatchExtends(ids, start);
    BatchResolves(done, ids[..start], ids, start, |Batch(ids, start)|, keys, lookup);
    more := ResolveBatch(done, Batch(ids, start), keys).value;
  }

  lemma FillFromStep(t: seq<Item>, ids: seq<int>, start: nat, lookup: Lookup)
    returns (keys: map<int, string>, u: seq<Item>)
    requires start < |ids| && FillFrom(t, ids, start, lookup).1
    ensures lookup(Batch(ids, start)) == Keys(keys) && FillBatch(t, Batch(ids, start), keys) == (u, true)
    ensures FillFrom(u, ids, BatchEnd(start, |ids|), lookup) == FillFrom(t, ids, start, lookup)
  {
    keys := lookup(Batch(ids, start)).keys;
    u := FillBatch(t, Batch(ids, start), keys).0;
  }

  lemma {:induction false} FillFromPatches(items: seq<Item>, t: seq<Item>, done: map<int, string>, ids: seq<int>,
                                           start: nat, lookup: Lookup)
    returns (all: map<int, string>)
    requires DistinctIDs(items) && Patched(items, t, done) && AllPositive(ids)
    requires Aligned(start, |ids|) && ResolvedTo(done, ids[..start], ids, lookup)
    requires FillFrom(t, ids, start, lookup).1
    ensures Patched(items, FillFrom(t, ids, start, lookup).0, all) && ResolvedTo(all, ids, ids, lookup)
    decreases |ids| - start
  {
    if start == |ids| {
      assert ids[..start] == ids;
      all := done;
    } else {
      var keys, u := FillFromStep(t, ids, start, lookup);
      var more := NextBatch(items, t, u, done, ids, start, keys, lookup);
      NextAligned(start, |ids|);
      all := FillFromPatches(items, u, more, ids, BatchEnd(start, |ids|), lookup);
    }
  }

  lemma {:induction false} MaskedIDsAreTheMasked(items: seq<Item>)
    requires MaskedIDs(items).Some?
    ensures AllPositive(MaskedIDs(items).value)
    ensures forall i :: 0 <= i < |items| && Masked(items[i]) ==> items[i].id.Whole? && items[i].id.n in MaskedIDs(items).value
    ensures forall id :: id in MaskedIDs(items).value ==> exists i :: 0 <= i < |items| && Masked(items[i]) && items[i].id == Whole(id)
  {
    if items != [] {
      var init := items[..|items| - 1];
      MaskedIDsAreTheMasked(init);
      forall id | id in MaskedIDs(items).value ensures exists i :: 0 <= i < |items| && Masked(items[i]) && items[i].id == Whole(id) {
        if id in MaskedIDs(init).value {
          var i :| 0 <= i < |init| && Masked(init[i]) && init[i].id == Whole(id);
          assert items[i] == init[i];
        } else {
          assert items[|items| - 1].id == Whole(id);
        }
      }
    }
  }

  /** An unmasked item keeps its key; a masked one gets the key the upstream named for its own id. */
  ghost predicate Unmasked(before: Item, after: Item, ids: seq<int>, lookup: Lookup) {
    if Masked(before) then
      before.id.Whole? && after.key.Some? && after == before.(key := after.key) &&
      Proper(after.key.value) && Answered(lookup, ids, before.id.n, after.key.value)
    else after == before
  }

  /**
    On a list with distinct ids, successful hydration rewrites exactly the masked items, each to
    its own id's key whatever the batches, and leaves no item masked.
  */
  lemma HydrationIsExact(items: seq<Item>, lookup: Lookup)
    requires DistinctIDs(items) && Hydrate(items, lookup).1
    ensures |Hydrate(items, lookup).0| == |items|
    ensures MaskedIDs(items).Some?
    ensures forall i :: 0 <= i < |items| ==>
              Unmasked(items[i], Hydrate(items, lookup).0[i], MaskedIDs(items).value, lookup)
    ensures forall i :: 0 <= i < |items| ==> !Masked(Hydrate(items, lookup).0[i])
  {
    var ids, t := MaskedIDs(items).value, Hydrate(items, lookup).0;
    MaskedIDsAreTheMasked(items);
    var done := FillFromPatches(items, items, map[], ids, 0, lookup);
    forall i | 0 <= i < |items| ensures Unmasked(items[i], t[i], ids, lookup) && !Masked(t[i]) {
      assert t[i] == Patch(items[i], done);
      if !Masked(items[i]) && items[i].id.Whole? && items[i].id.n in ids {
        var j :| 0 <= j < |items| && Masked(items[j]) && items[j].id == Whole(items[i].id.n);
        assert SameID(items[if i < j then i else j], items[if i < j then j else i]);
      }
    }
  }

  /** What the listing hands over is what hydration needs. */
  lemma SoundHasDistinctIDs(items: seq<Item>, keyed: Item -> bool)
    requires Sound(items, keyed)
    ensures DistinctIDs(items)
  {}

  // ---------- when hydration succeeds ----------

  /** The upstream names a key for this id: present, not blank and no longer masked. */
  ghost predicate Named(keys: map<int, string>, id: int) {
    id in keys && !AllSpace(keys[id]) && '*' !in Trim(keys[id])
  }

  lemma ProperIffNamed(keys: map<int, string>, id: int)
    ensures Proper(FullKey(keys, id)) <==> Named(keys, id)
  {
    if id in keys {
      TrimEmptyIff(keys[id]);
    }
  }

  lemma {:induction false} BatchFilledIff(items: seq<Item>, ids: seq<int>, keys: map<int, string>)
    ensures FillBatch(items, ids, keys).1 <==> forall id :: id in ids ==> Named(keys, id)
  {
    if ids != [] {
      var init, id := ids[..|ids| - 1], ids[|ids| - 1];
      BatchFilledIff(items, init, keys);
      ProperIffNamed(keys, id);
      assert forall x :: x in ids <==> x in init || x == id;
    }
  }

  /** The lookup of the ids from `start` on, at most a hundred, names a key for each of them. */
  ghost predicate BatchNamed(ids: seq<int>, start: int, lookup: Lookup)
    requires 0 <= start < |ids|
  {
    var batch := ids[start..if start + 100 < |ids| then start + 100 else |ids|];
    lookup(batch).Keys? && forall id :: id in batch ==> Named(lookup(batch).keys, id)
  }

  ghost predicate NamedFrom(ids: seq<int>, start: nat, lookup: Lookup) {
    forall s :: start <= s < |ids| && s % 100 == 0 ==> BatchNamed(ids, s, lookup)
  }

  lemma FirstBatchFirst(ids: seq<int>, start: nat, next: nat, lookup: Lookup)
    requires start < |ids| && start % 100 == 0 && next == BatchEnd(start, |ids|)
    ensures var batch := Batch(ids, start);
            BatchNamed(ids, start, lookup) <==> lookup(batch).Keys? && forall id :: id in batch ==> Named(lookup(batch).keys, id)
    ensures NamedFrom(ids, start, lookup) <==> BatchNamed(ids, start, lookup) && NamedFrom(ids, next, lookup)
  {
    assert forall s :: start <= s < |ids| && s % 100 == 0 ==> s == start || next <= s;
  }

  lemma {:induction false} FilledFromIff(items: seq<Item>, ids: seq<int>, start: nat, lookup: Lookup)
    requires Aligned(start, |ids|)
    ensures FillFrom(items, ids, start, lookup).1 <==> NamedFrom(ids, start, lookup)
    decreases |ids| - start
  {
    if start < |ids| {
      var batch, next := Batch(ids, start), BatchEnd(start, |ids|);
      NextAligned(start, |ids|);
      FirstBatchFirst(ids, start, next, lookup);
      if lookup(batch).Keys? {
        BatchFilledIff(items, batch, lookup(batch).keys);
        FilledFromIff(FillBatch(items, batch, lookup(batch).keys).0, ids, next, lookup);
      }
    }
  }

  ghost predicate ShowsStar(i: Item) { i.key.Some? && '*' in i.key.value }

  /** On a listed page the masked items can be asked for exactly when each has an id; they are asked for in order. */
  lemma {:induction false} MaskedIDsIff(items: seq<Item>)
    requires DistinctIDs(items)
    ensures MaskedIDs(items).Some? <==> forall i :: 0 <= i < |items| && ShowsStar(items[i]) ==> items[i].id.Whole?
    ensures MaskedIDs(items).Some? ==> MaskedIDs(items).value == StarredIDs(items)
    ensures forall id :: id in StarredIDs(items) ==> exists i :: 0 <= i < |items| && items[i].id == Whole(id)
  {
    if items != [] {
      var init, n := items[..|items| - 1], |items| - 1;
      assert forall i, j :: 0 <= i < j < n ==> !SameID(init[i], init[j]) by {
        forall i, j | 0 <= i < j < n ensures !SameID(init[i], init[j]) {
          assert !SameID(items[i], items[j]);
        }
      }
      MaskedIDsIff(init);
      assert UsableID(items[n]);
      if items[n].id.Whole? && items[n].id.n in StarredIDs(init) {
        var i :| 0 <= i < n && init[i].id == Whole(items[n].id.n);
        assert SameID(items[i], items[n]);
      }
    }
  }

  ghost function StarredIDs(items: seq<Item>): seq<int> {
    if items == [] then []
    else
      var before, item := StarredIDs(items[..|items| - 1]), items[|items| - 1];
      if ShowsStar(item) && item.id.Whole? then before + [item.id.n] else before
  }

  /**
    A listed page is hydrated if and only if every masked item has an id and every lookup of a hundred
    of those ids names a proper key for each.
  */
  lemma HydrationSucceedsIff(items: seq<Item>, lookup: Lookup)
    requires DistinctIDs(items)
    ensures Hydrate(items, lookup).1 <==>
            && (forall i :: 0 <= i < |items| && ShowsStar(items[i]) ==> items[i].id.Whole?)
            && NamedFrom(StarredIDs(items), 0, lookup)
  {
    MaskedIDsIff(items);
    if MaskedIDs(items).Some? {
      FilledFromIff(items, MaskedIDs(items).value, 0, lookup);
    }
  }
}
