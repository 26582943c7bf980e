/** Deleting one upstream token by its key (`platform/newapi_tokens.go`). */
module TokenDelete {
  // A listing authorizes the DELETE, and only a complete one proves that there is nothing to delete.
  import opened Seqs
  import opened Text
  import opened TokenListing
  import opened TokenHydration

  /** One way to present the stored credential: its listing, its key lookup and its DELETE answer. */
  datatype Transport = Transport(up: Upstream, lookup: Lookup, deletes: int -> bool)

  /** `started` tells whether the upstream answered before the failure. */
  datatype Resolution = Found(id: int) | NotListed | Unresolved(started: bool)

  function Normalize(key: string): string { Trim(TrimPrefix(Trim(key), "Bearer ")) }

  /** The credential behind a displayed key: an `sk-` prefix is display only. */
  function Identity(key: string): string { TrimPrefix(Normalize(key), "sk-") }
  function Identities(): Item -> string { (i: Item) => if i.key.None? then "" else Identity(i.key.value) }

  function FirstWith(items: seq<Item>, target: string, from: nat, identity: Item -> string): (i: nat)
    requires from <= |items|
    ensures from <= i <= |items| && (i < |items| ==> identity(items[i]) == target)
    ensures forall j :: from <= j < i ==> identity(items[j]) != target
    decreases |items| - from
  {
    if from == |items| || identity(items[from]) == target then from else FirstWith(items, target, from + 1, identity)
  }

  /** The id of the first item with the target's identity. */
  function Match(items: seq<Item>, complete: bool, target: string, identity: Item -> string): Resolution {
    var i := FirstWith(items, target, 0, identity);
    if i < |items| then
      if IDValue(items[i]) <= 0 then Unresolved(true) else Found(IDValue(items[i]))
    else if complete then NotListed
    else Unresolved(true)
  }

  /** Hydrated items may be searched when every key is present and no two agree. */
  ghost function Search(t: Transport, items: seq<Item>, complete: bool, target: string, trimmed: Item -> string,
                        identity: Item -> string): Resolution {
    var (after, ok) := Hydrate(items, t.lookup);
    if !ok || !DistinctKeys(after, trimmed) then Unresolved(true) else Match(after, complete, target, identity)
  }

  ghost function Resolve(t: Transport, target: string): Resolution {
    var listing := Fetch(t.up);
    if listing.Failed? then Unresolved(listing.started)
    else Search(t, listing.items, listing.Complete?, target, TrimmedKeys(), Identities())
  }

  method FindListed(items: seq<Item>, complete: bool, target: string, identity: Item -> string) returns (r: Resolution)
    ensures r == Match(items, complete, target, identity)
  {
    var i := 0;
    while i < |items|
      invariant 0 <= i <= |items|
      invariant FirstWith(items, target, i, identity) == FirstWith(items, target, 0, identity)
    {
      if identity(items[i]) == target {
        if IDValue(items[i]) <= 0 {
          return Unresolved(true);
        }
        return Found(IDValue(items[i]));
      }
      i := i + 1;
    }
    r := if complete then NotListed else Unresolved(true);
  }

  method ListedTokenIDForDelete(t: Transport, targetKey: string) returns (r: Resolution)
    ensures r == Resolve(t, TrimPrefix(targetKey, "sk-"))
  {
    var listing, requests := FetchItems(t.up);
    if listing.Failed? {
      return Unresolved(listing.started);
    }
    var items := new Item[|listing.items|](i requires 0 <= i < |listing.items| => listing.items[i]);
    assert items[..] == listing.items;
    var hydrated := HydrateListedTokenKeys(items, t.lookup);
    if !hydrated {
      return Unresolved(true);
    }
    var valid := ValidateTokenKeys(items[..], TrimmedKeys());
    if !valid {
      return Unresolved(true);
    }
    r := FindListed(items[..], listing.Complete?, TrimPrefix(targetKey, "sk-"), Identities());
  }

  datatype Sent = Sent(transport: nat, id: int)
  datatype Outcome = Succeeded | FailedWith(listing: bool)

  /** The first transport whose upstream answered, from `from` on. */
  ghost function Answering(ts: seq<Transport>, target: string, from: nat): (k: nat)
    requires from <= |ts|
    ensures from <= k <= |ts|
    ensures k < |ts| ==> Resolve(ts[k], target) != Unresolved(false)
    ensures forall j :: from <= j < k ==> Resolve(ts[j], target) == Unresolved(false)
    decreases |ts| - from
  {
    if from == |ts| || Resolve(ts[from], target) != Unresolved(false) then from else Answering(ts, target, from + 1)
  }

  /** What one deletion sends and answers; `ts` is the bearer transport followed by the cookie ones. */
  ghost function Deletion(ts: seq<Transport>, tokenKey: string): (seq<Sent>, Outcome) {
    if Normalize(tokenKey) == "" then ([], Succeeded)
    else
      var target := Identity(tokenKey);
      var k := Answering(ts, target, 0);
      if k == |ts| then ([], FailedWith(true))
      else
        match Resolve(ts[k], target)
        case Unresolved(_) => ([], FailedWith(true))
        case NotListed => ([], Succeeded)
        case Found(id) => ([Sent(k, id)], if ts[k].deletes(id) then Succeeded else FailedWith(false))
  }

  class Client {
    /** The DELETE requests sent so far, in order. */
    var sent: seq<Sent>

    constructor ()
      ensures sent == []
    {
      sent := [];
    }

    method DeleteAPIToken(ts: seq<Transport>, tokenKey: string) returns (outcome: Outcome)
      modifies this
      ensures var (requests, answer) := Deletion(ts, tokenKey);
              sent == old(sent) + requests && outcome == answer
    {
      var targetKey := Normalize(tokenKey);
      if targetKey == "" {
        return Succeeded;
      }
      ghost var target := TrimPrefix(targetKey, "sk-");
      for k := 0 to |ts|
        invariant sent == old(sent)
        invariant Answering(ts, target, k) == Answering(ts, target, 0)
      {
        var resolution := ListedTokenIDForDelete(ts[k], targetKey);
        match resolution
        case Unresolved(started) =>
          if started {
            return FailedWith(true);
          }
        case NotListed => return Succeeded;
        case Found(id) =>
          sent := sent + [Sent(k, id)];
          var deleted := ts[k].deletes(id);
          return if deleted then Succeeded else FailedWith(false);
      }
      outcome := FailedWith(true);
    }
  }

  // ---------- what a deletion may do ----------

  /** The masked ids that the batches were made of. */
  ghost function MaskedOf(items: seq<Item>): seq<int> {
    var ids := MaskedIDs(items);
    if ids.None? then [] else ids.value
  }

  /** The listed token `id` whose own key, once unmasked, is the target modulo its display prefix. */
  ghost predicate Owns(t: Transport, id: int, target: string, identity: Item -> string) {
    !Fetch(t.up).Failed? && OwnsIn(t, Fetch(t.up).items, id, target, identity)
  }

  ghost predicate OwnsIn(t: Transport, items: seq<Item>, id: int, target: string, identity: Item -> string) {
    exists i, key :: OwnsAt(t, items, i, key, id) && identity(items[i].(key := Some(key))) == target
  }

  ghost predicate OwnsAt(t: Transport, items: seq<Item>, i: int, key: string, id: int) {
    && 0 <= i < |items| && items[i].id == Whole(id) && id > 0
    && (if Masked(items[i]) then Proper(key) && Answered(t.lookup, MaskedOf(items), id, key) else items[i].key == Some(key))
  }

  /** No listed token, once unmasked, has the target's identity, and the listing is complete. */
  ghost predicate ProvenAbsent(t: Transport, target: string, identity: Item -> string) {
    Fetch(t.up).Complete? && AbsentIn(t, Fetch(t.up).items, target, identity)
  }

  ghost predicate AbsentIn(t: Transport, items: seq<Item>, target: string, identity: Item -> string) {
    forall i :: 0 <= i < |items| ==>
      exists key :: KeyOf(t, items, items[i], key) && identity(items[i].(key := Some(key))) != target
  }

  ghost predicate KeyOf(t: Transport, items: seq<Item>, item: Item, key: string) {
    if Masked(item) then item.id.Whole? && Proper(key) && Answered(t.lookup, MaskedOf(items), item.id.n, key) else item.key == Some(key)
  }

  lemma HydratedItem(t: Transport, items: seq<Item>, item: Item, after: Item)
    requires Unmasked(item, after, MaskedOf(items), t.lookup) && after.key.Some?
    ensures after == item.(key := Some(after.key.value)) && KeyOf(t, items, item, after.key.value)
  {}

  lemma HydratedKeysPresent(items: seq<Item>, trimmed: Item -> string, i: nat)
    requires DistinctKeys(items, trimmed) && i < |items| && (items[i].key.None? ==> trimmed(items[i]) == "")
    ensures items[i].key.Some?
  {}

  lemma HydratedItems(t: Transport, items: seq<Item>, after: seq<Item>, trimmed: Item -> string)
    requires DistinctIDs(items) && Hydrate(items, t.lookup) == (after, true) && DistinctKeys(after, trimmed)
    requires forall i: Item :: i.key.None? ==> trimmed(i) == ""
    ensures |after| == |items|
    ensures forall i :: 0 <= i < |items| ==>
      after[i].key.Some? && after[i] == items[i].(key := Some(after[i].key.value)) && KeyOf(t, items, items[i], after[i].key.value)
  {
    HydrationIsExact(items, t.lookup);
    forall i | 0 <= i < |items| ensures after[i].key.Some? && after[i] == items[i].(key := Some(after[i].key.value))
                                        && KeyOf(t, items, items[i], after[i].key.value)
    {
      HydratedKeysPresent(after, trimmed, i);
      HydratedItem(t, items, items[i], after[i]);
    }
  }

  /** A listing counts as unanswered exactly when its first page was never answered. */
  lemma UnansweredIff(t: Transport, target: string)
    ensures Resolve(t, target) == Unresolved(false) <==> t.up.pages(1).Unreachable?
  {
    FailedBeforeStartIff(t.up);
    assert Resolve(t, target) == Unresolved(false) <==> Fetch(t.up).Failed? && !Fetch(t.up).started;
  }

  lemma FailedBeforeStartIff(up: Upstream)
    ensures Fetch(up).Failed? && !Fetch(up).started <==> up.pages(1).Unreachable?
  {
    EveryListingIsHonest(up);
    assert up.pages(1).Unreachable? ==> Fetch(up) == Failed(false, FetchError);
  }

  /** A listing identifies only the owner's own token, and proves absence only when complete. */
  lemma ResolutionIsJustified(t: Transport, target: string)
    ensures Resolve(t, target).Found? ==> Owns(t, Resolve(t, target).id, target, Identities())
    ensures Resolve(t, target).NotListed? ==> ProvenAbsent(t, target, Identities())
  {
    var listing := Fetch(t.up);
    if !listing.Failed? {
      ListedItemsAreDistinct(t.up);
      SearchIsJustified(t, listing.items, listing.Complete?, target, TrimmedKeys(), Identities());
    }
  }

  lemma ListedItemsAreDistinct(up: Upstream)
    requires !Fetch(up).Failed?
    ensures DistinctIDs(Fetch(up).items)
  {
    EveryListingIsHonest(up);
    SoundHasDistinctIDs(Fetch(up).items, Keyed());
  }

  lemma SearchIsJustified(t: Transport, items: seq<Item>, complete: bool, target: string, trimmed: Item -> string,
                          identity: Item -> string)
    requires DistinctIDs(items) && forall i: Item :: i.key.None? ==> trimmed(i) == ""
    ensures var r := Search(t, items, complete, target, trimmed, identity);
            && (r.Found? ==> OwnsIn(t, items, r.id, target, identity))
            && (r.NotListed? ==> complete && AbsentIn(t, items, target, identity))
  {
    var (after, ok) := Hydrate(items, t.lookup);
    if ok && DistinctKeys(after, trimmed) {
      HydratedItems(t, items, after, trimmed);
      MatchIsJustified(t, items, after, complete, target, identity);
    }
  }

  lemma MatchIsJustified(t: Transport, items: seq<Item>, after: seq<Item>, complete: bool, target: string,
                         identity: Item -> string)
    requires |after| == |items| && DistinctIDs(items)
    requires forall i :: 0 <= i < |items| ==>
      after[i].key.Some? && after[i] == items[i].(key := Some(after[i].key.value)) && KeyOf(t, items, items[i], after[i].key.value)
    ensures var r := Match(after, complete, target, identity);
            && (r.Found? ==> OwnsIn(t, items, r.id, target, identity))
            && (r.NotListed? ==> complete && AbsentIn(t, items, target, identity))
  {
    var k := FirstWith(after, target, 0, identity);
    var r := Match(after, complete, target, identity);
    if r.Found? {
      assert UsableID(items[k]);
      assert OwnsAt(t, items, k, after[k].key.value, r.id);
    }
    if r.NotListed? {
      forall i | 0 <= i < |items| ensures exists key :: KeyOf(t, items, items[i], key) && identity(items[i].(key := Some(key))) != target {
        assert identity(after[i]) != target;
      }
    }
  }

  /**
    Against every upstream behaviour: a deletion sends at most one DELETE, through the first
    transport whose upstream answered, and only for a listed token of the owner whose real key is
    the target modulo its prefix; without a DELETE it succeeds only for a blank key or when that
    transport's complete listing has no such token.
  */
  lemma DeletionIsJustified(ts: seq<Transport>, tokenKey: string)
    ensures |Deletion(ts, tokenKey).0| <= 1
    ensures forall s :: s in Deletion(ts, tokenKey).0 ==>
              s.transport < |ts| && Owns(ts[s.transport], s.id, Identity(tokenKey), Identities()) &&
              forall j :: 0 <= j < s.transport ==> ts[j].up.pages(1).Unreachable?
    ensures Deletion(ts, tokenKey) == ([], Succeeded) && Normalize(tokenKey) != "" ==>
              exists k :: 0 <= k < |ts| && ProvenAbsent(ts[k], Identity(tokenKey), Identities())
  {
    var target := Identity(tokenKey);
    forall k | 0 <= k < |ts|
      ensures Resolve(ts[k], target).Found? ==> Owns(ts[k], Resolve(ts[k], target).id, target, Identities())
      ensures Resolve(ts[k], target).NotListed? ==> ProvenAbsent(ts[k], target, Identities())
      ensures Resolve(ts[k], target) == Unresolved(false) <==> ts[k].up.pages(1).Unreachable?
    {
      ResolutionIsJustified(ts[k], target);
      UnansweredIff(ts[k], target);
    }
  }

  /** The searchable items of a transport: listed, unmasked and with distinct keys. */
  ghost predicate Searchable(t: Transport, after: seq<Item>, trimmed: Item -> string) {
    !Fetch(t.up).Failed? && Hydrate(Fetch(t.up).items, t.lookup) == (after, true) && DistinctKeys(after, trimmed)
  }

  lemma SearchedTargetIsFound(t: Transport, after: seq<Item>, target: string, i: nat, trimmed: Item -> string, identity: Item -> string)
    requires Searchable(t, after, trimmed) && i < |after| && IDValue(after[i]) > 0
    requires identity(after[i]) == target && forall j :: 0 <= j < i ==> identity(after[j]) != target
    ensures Search(t, Fetch(t.up).items, Fetch(t.up).Complete?, target, trimmed, identity) == Found(IDValue(after[i]))
  {
    assert FirstWith(after, target, 0, identity) == i;
  }

  lemma AnsweringIs(ts: seq<Transport>, target: string, from: nat, k: nat)
    requires from <= k < |ts| && Resolve(ts[k], target) != Unresolved(false)
    requires forall j :: from <= j < k ==> Resolve(ts[j], target) == Unresolved(false)
    ensures Answering(ts, target, from) == k
  {}

  /**
    The deletion does happen: when the transports before the `k`-th never answer and the items it
    lists can be searched, the first one whose real key is the target has its DELETE sent.
  */
  lemma ListedTargetIsDeleted(ts: seq<Transport>, tokenKey: string, k: nat, after: seq<Item>, i: nat)
    requires Normalize(tokenKey) != "" && k < |ts| && forall j :: 0 <= j < k ==> ts[j].up.pages(1).Unreachable?
    requires Searchable(ts[k], after, TrimmedKeys()) && i < |after| && IDValue(after[i]) > 0
    requires Identities()(after[i]) == Identity(tokenKey)
    requires forall j :: 0 <= j < i ==> Identities()(after[j]) != Identity(tokenKey)
    ensures Deletion(ts, tokenKey).0 == [Sent(k, IDValue(after[i]))]
    ensures Deletion(ts, tokenKey).1 == if ts[k].deletes(IDValue(after[i])) then Succeeded else FailedWith(false)
  {
    var target := Identity(tokenKey);
    SearchedTargetIsFound(ts[k], after, target, i, TrimmedKeys(), Identities());
    forall j | 0 <= j < k ensures Resolve(ts[j], target) == Unresolved(false) {
      UnansweredIff(ts[j], target);
    }
    AnsweringIs(ts, target, 0, k);
  }
}
