/** When an upstream listing is accepted, and what each failure rests on (`platform/newapi_tokens.go`). */
module ListingVerdicts {
  import opened Seqs
  import opened Text
  import opened TokenListing

  /** `key` with nothing but spaces around it. */
  ghost predicate Pads(s: string, before: string, key: string, after: string) {
    && s == before + key + after && AllSpace(before) && AllSpace(after)
    && key != "" && !IsSpace(key[0]) && !IsSpace(key[|key| - 1])
  }

  /** A key counts when something other than space is in it, and the spaces around it do not. */
  lemma KeyCountsIff(item: Item)
    ensures Keyed()(item) <==> item.key.Some? && !AllSpace(item.key.value)
    ensures item.key.Some? ==> forall b, key, a :: Pads(item.key.value, b, key, a) ==> TrimmedKey(item) == key
  {
    if item.key.Some? {
      TrimEmptyIff(item.key.value);
      forall b, key, a | Pads(item.key.value, b, key, a) ensures TrimmedKey(item) == key {
        TrimPadded(b, key, a);
      }
    }
  }

  // ---------- the legacy page ----------

  /** A legacy answer whose tokens can be used: at most 1000 sound ones in at most 8 MiB, and no more than its total. */
  ghost predicate UsableLegacy(r: Response, keyed: Item -> bool) {
    && r.Answer? && !r.refused && r.collection.Collection? && r.bytes <= 8_388_608
    && |r.collection.items| <= 1000 && Sound(r.collection.items, keyed)
    && !r.total.BadTotal? && (r.total.Total? ==> |r.collection.items| <= r.total.n <= 1000)
  }

  lemma LegacyVerdict(r: Response, keyed: Item -> bool)
    ensures Legacy(r, keyed).Failed? <==> !UsableLegacy(r, keyed)
    ensures UsableLegacy(r, keyed) ==>
      Legacy(r, keyed) == if r.total == Total(|r.collection.items|) then Complete(r.collection.items) else Unproven(r.collection.items)
  {
    AppendFresh(ItemsOf(r), keyed);
  }

  /**
    After a flat first page without a total the legacy query alone decides: its tokens are complete
    when its total says so, usable without proof otherwise, and refused exactly when they are not usable.
  */
  lemma LegacyDecides(up: Upstream)
    requires var r := up.pages(1);
             r.Answer? && !r.refused && r.collection.Collection? && r.collection.flat && r.total.NoTotal?
    ensures Fetch(up).Failed? <==> !UsableLegacy(up.legacy, Keyed())
    ensures UsableLegacy(up.legacy, Keyed()) ==>
      var items := up.legacy.collection.items;
      Fetch(up) == if up.legacy.total == Total(|items|) then Complete(items) else Unproven(items)
  {
    LegacyVerdict(up.legacy, Keyed());
  }

  // ---------- complete listings ----------

  /** The pages asked for are full and do not reach the total before the last one. */
  ghost predicate PagedUpTo(up: Upstream, page: nat, total: int) {
    forall k :: 1 <= k < page ==> |ItemsOf(up.pages(k))| >= 100 && |Pages(up, k)| < total
  }

  lemma NextIsPaged(up: Upstream, page: nat, p: Progress, keyed: Item -> bool) returns (next: Progress)
    requires Gathered(up, page, p, keyed) && p.bytes == PageBytes(up, page - 1) && (page > 1 ==> PagedUpTo(up, page, p.total))
    requires OnPage(page, p, up.pages(page), keyed).More?
    ensures OnPage(page, p, up.pages(page), keyed) == More(next) && page < MAX_PAGES && Gathered(up, page + 1, next, keyed)
    ensures next.bytes == PageBytes(up, page) && PagedUpTo(up, page + 1, next.total)
  {
    next := OnPage(page, p, up.pages(page), keyed).next;
    PageKeepsGathered(up, page, p, keyed);
  }

  lemma CompletedItems(up: Upstream, page: nat, p: Progress, keyed: Item -> bool)
    requires Gathered(up, page, p, keyed) && OnPage(page, p, up.pages(page), keyed).Done?
    requires OnPage(page, p, up.pages(page), keyed).listing.Complete?
    ensures OnPage(page, p, up.pages(page), keyed) == Done(Complete(Pages(up, page)))
  {}

  /** A listing that the loop completes at some page is a well-paged one. */
  lemma {:induction false} CompletedIsWellPaged(up: Upstream, page: nat, p: Progress, keyed: Item -> bool) returns (n: nat)
    requires Gathered(up, page, p, keyed) && p.bytes == PageBytes(up, page - 1) && (page > 1 ==> PagedUpTo(up, page, p.total))
    requires FetchFrom(up, page, p, keyed).Complete? && !IsLegacyShape(1, up.pages(1))
    ensures WellPaged(up, n, keyed) && FetchFrom(up, page, p, keyed) == Complete(Pages(up, n))
    decreases MAX_PAGES + 1 - page
  {
    if OnPage(page, p, up.pages(page), keyed).More? {
      var next := NextIsPaged(up, page, p, keyed);
      n := CompletedIsWellPaged(up, page + 1, next, keyed);
    } else {
      n := page;
      CompletedItems(up, page, p, keyed);
      CompletedHere(up, page, p, keyed);
    }
  }

  lemma CompletedPage(up: Upstream, page: nat, p: Progress, keyed: Item -> bool)
    requires Gathered(up, page, p, keyed) && p.bytes == PageBytes(up, page - 1)
    requires OnPage(page, p, up.pages(page), keyed) == Done(Complete(Pages(up, page)))
    ensures Reports(up.pages(page), |Pages(up, page)|)
    ensures page > 1 ==> p.total == |Pages(up, page)| && ReportsUpTo(up, page - 1, p.total)
    ensures PageBytes(up, page) <= MAX_BYTES && |Pages(up, page)| <= MAX_ITEMS && Sound(Pages(up, page), keyed)
  {
    AppendKeepsSound(p.all, ItemsOf(up.pages(page)), keyed);
  }

  lemma LastPageIsWellPaged(up: Upstream, page: nat, keyed: Item -> bool)
    requires 1 <= page <= MAX_PAGES && Reports(up.pages(page), |Pages(up, page)|)
    requires page > 1 ==> ReportsUpTo(up, page - 1, |Pages(up, page)|) && PagedUpTo(up, page, |Pages(up, page)|)
    requires PageBytes(up, page) <= MAX_BYTES && |Pages(up, page)| <= MAX_ITEMS && Sound(Pages(up, page), keyed)
    ensures WellPaged(up, page, keyed)
  {}

  lemma CompletedHere(up: Upstream, page: nat, p: Progress, keyed: Item -> bool)
    requires Gathered(up, page, p, keyed) && p.bytes == PageBytes(up, page - 1)
    requires OnPage(page, p, up.pages(page), keyed) == Done(Complete(Pages(up, page)))
    requires page > 1 ==> PagedUpTo(up, page, p.total)
    ensures WellPaged(up, page, keyed)
  {
    CompletedPage(up, page, p, keyed);
    LastPageIsWellPaged(up, page, keyed);
  }

  /** A listing is complete if and only if the pages are, or the legacy query's total says it is. */
  lemma CompleteIff(up: Upstream, items: seq<Item>)
    ensures Fetch(up) == Complete(items) <==>
      if IsLegacyShape(1, up.pages(1)) then
        UsableLegacy(up.legacy, Keyed()) && items == up.legacy.collection.items && up.legacy.total == Total(|items|)
      else exists n :: WellPaged(up, n, Keyed()) && items == Pages(up, n)
  {
    if IsLegacyShape(1, up.pages(1)) {
      LegacyDecides(up);
    } else {
      if Fetch(up) == Complete(items) {
        var n := CompletedIsWellPaged(up, 1, START, Keyed());
      }
      if n :| WellPaged(up, n, Keyed()) && items == Pages(up, n) {
        WellPagedIsComplete(up, n);
      }
    }
  }

  // ---------- failures ----------

  /** What a failure at page `k` says of the upstream. */
  ghost predicate PageFails(up: Upstream, k: nat, why: Failure, keyed: Item -> bool)
    requires k >= 1
  {
    var r := up.pages(k);
    match why
    case FetchError => r.Unreachable?
    case Refused => r.Answer? && r.refused
    case BadItems => r.Answer? && r.collection.NotObjects?
    case MissingCollection => r.Answer? && r.collection.NoCollection?
    case InvalidTotal => r.Answer? && r.total.BadTotal?
    case TotalOverLimit => r.Answer? && r.total.Total? && r.total.n > 1000
    case MissingTotal => k == 1 && r.Answer? && r.total.NoTotal?
    case TotalChanged => k > 1 && r.Answer? && up.pages(1).Answer? && r.total != up.pages(1).total
    case TooManyItems => |Pages(up, k)| > 1000
    case TooManyBytes => PageBytes(up, k) > 8_388_608
    case BadToken => !Sound(Pages(up, k), keyed)
    case BeyondTotal => up.pages(1).Answer? && up.pages(1).total.Total? && |Pages(up, k)| > up.pages(1).total.n
    case ShortPage => r.Answer? && |ItemsOf(r)| < 100
                      && up.pages(1).Answer? && up.pages(1).total.Total? && |Pages(up, k)| < up.pages(1).total.n
    case _ => false
  }

  ghost predicate LegacyFails(r: Response, why: Failure, keyed: Item -> bool) {
    match why
    case FetchError => r.Unreachable?
    case Refused => r.Answer? && r.refused
    case BadItems => r.Answer? && r.collection.NotObjects?
    case MissingCollection => r.Answer? && r.collection.NoCollection?
    case InvalidTotal => r.Answer? && r.total.BadTotal?
    case TotalOverLimit => r.Answer? && r.total.Total? && r.total.n > 1000
    case TooManyItems => |ItemsOf(r)| > 1000
    case TooManyBytes => r.Answer? && r.bytes > 8_388_608
    case BadToken => !Sound(ItemsOf(r), keyed)
    case BeyondTotal => r.Answer? && r.total.Total? && |ItemsOf(r)| > r.total.n
    case _ => false
  }

  ghost predicate FailsAt(up: Upstream, k: nat, why: Failure, keyed: Item -> bool) {
    if k == 0 then IsLegacyShape(1, up.pages(1)) && LegacyFails(up.legacy, why, keyed) else PageFails(up, k, why, keyed)
  }

  lemma PageFailureIsJustified(up: Upstream, page: nat, p: Progress, keyed: Item -> bool)
    requires Gathered(up, page, p, keyed) && p.bytes == PageBytes(up, page - 1)
    requires OnPage(page, p, up.pages(page), keyed).Done? && OnPage(page, p, up.pages(page), keyed).listing.Failed?
    ensures PageFails(up, page, OnPage(page, p, up.pages(page), keyed).listing.why, keyed)
  {
    AppendKeepsSound(p.all, ItemsOf(up.pages(page)), keyed);
    CompletePageIsHonest(up, page, p, keyed);
    if page > 1 {
      assert Reports(up.pages(1), p.total);
    }
  }

  lemma {:induction false} FailureFromIsJustified(up: Upstream, page: nat, p: Progress, keyed: Item -> bool) returns (k: nat)
    requires Gathered(up, page, p, keyed) && p.bytes == PageBytes(up, page - 1) && FetchFrom(up, page, p, keyed).Failed?
    ensures k <= MAX_PAGES && FailsAt(up, k, FetchFrom(up, page, p, keyed).why, keyed)
    decreases MAX_PAGES + 1 - page
  {
    match OnPage(page, p, up.pages(page), keyed)
    case More(next) =>
      PageKeepsGathered(up, page, p, keyed);
      k := FailureFromIsJustified(up, page + 1, next, keyed);
    case AskLegacy =>
      k := 0;
      AppendFresh(ItemsOf(up.legacy), keyed);
    case Done(_) =>
      k := page;
      PageFailureIsJustified(up, page, p, keyed);
  }

  /** A failed listing names what is wrong with a page the upstream was asked for. */
  lemma EveryFailureIsJustified(up: Upstream)
    requires Fetch(up).Failed?
    ensures exists k :: 0 <= k <= 10 && FailsAt(up, k, Fetch(up).why, Keyed())
  {
    var k := FailureFromIsJustified(up, 1, START, Keyed());
  }
}
