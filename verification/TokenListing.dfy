/** The paged listing of upstream tokens (`platform/newapi_tokens.go`). */
module TokenListing {
  // The upstream is an arbitrary oracle: any answer to any page, nothing assumed about it.
  import opened Seqs
  import opened Text

  const PAGE_LIMIT := 100
  const MAX_ITEMS := 1000
  const MAX_PAGES := 10
  const MAX_BYTES := 8 * 1024 * 1024

  /** A JSON id: `Unusable` is not a number (0) or not whole (its truncation). */
  datatype RawID = Absent | Unusable(truncated: int) | Whole(n: int)

  /** One listed token; the key is missing when it is not a string. */
  datatype Item = Item(id: RawID, key: Option<string>, rest: string)

  datatype Collection = NoCollection | NotObjects | Collection(flat: bool, items: seq<Item>)
  datatype Total = NoTotal | BadTotal | Total(n: nat)

  /** `bytes` is the encoded size of the items. */
  datatype Response = Unreachable | Answer(refused: bool, collection: Collection, total: Total, bytes: nat)

  /** Page by page, and the legacy first page. */
  datatype Upstream = Upstream(pages: int -> Response, legacy: Response)

  datatype Failure =
    | FetchError | Refused | BadItems | MissingCollection | InvalidTotal
    | TotalOverLimit | MissingTotal | TotalChanged
    | TooManyItems | TooManyBytes | BadToken | BeyondTotal | ShortPage
    | PageLimit | FallThrough

  /** `started` tells whether the upstream answered at all. */
  datatype Listing = Complete(items: seq<Item>) | Unproven(items: seq<Item>) | Failed(started: bool, why: Failure)

  // ---------- the items ----------

  function TrimmedKey(i: Item): string { if i.key.None? then "" else Trim(i.key.value) }
  predicate HasKey(i: Item) { TrimmedKey(i) != "" }
  function Keyed(): Item -> bool { (i: Item) => HasKey(i) }

  predicate UsableID(i: Item) { i.id.Absent? || (i.id.Whole? && i.id.n > 0) }

  /** The seen ids after `items`, or nothing when some item is refused. */
  function Append(seen: set<int>, items: seq<Item>, keyed: Item -> bool): Option<set<int>> {
    if items == [] then Some(seen)
    else
      var before, item := Append(seen, items[..|items| - 1], keyed), items[|items| - 1];
      if before.None? || !keyed(item) || !UsableID(item) then None
      else if item.id.Absent? then before
      else if item.id.n in before.value then None
      else Some(before.value + {item.id.n})
  }

  predicate SameID(a: Item, b: Item) { a.id.Whole? && a.id == b.id }

  /** Keys present, ids absent or positive and never repeated. */
  ghost predicate Sound(items: seq<Item>, keyed: Item -> bool) {
    && (forall i :: 0 <= i < |items| ==> keyed(items[i]) && UsableID(items[i]))
    && (forall i, j :: 0 <= i < j < |items| ==> !SameID(items[i], items[j]))
  }

  ghost function IDs(items: seq<Item>): set<int> {
    set i | 0 <= i < |items| && items[i].id.Whole? :: items[i].id.n
  }

  method AppendItems(all: seq<Item>, seenIDs: set<int>, items: seq<Item>, keyed: Item -> bool)
    returns (ok: bool, all': seq<Item>, seenIDs': set<int>)
    ensures ok <==> Append(seenIDs, items, keyed).Some?
    ensures ok ==> all' == all + items && seenIDs' == Append(seenIDs, items, keyed).value
  {
    all', seenIDs' := all, seenIDs;
    for n := 0 to |items|
      invariant Append(seenIDs, items[..n], keyed) == Some(seenIDs')
      invariant all' == all + items[..n]
    {
      var item := items[n];
      assert items[..n + 1] == items[..n] + [item];
      if !keyed(item) || !UsableID(item) || (item.id.Whole? && item.id.n in seenIDs') {
        AppendStopped(seenIDs, items, n + 1, keyed);
        return false, all, seenIDs;
      }
      if item.id.Whole? {
        seenIDs' := seenIDs' + {item.id.n};
      }
      all' := all' + [item];
    }
    assert items[..|items|] == items;
    ok := true;
  }

  lemma {:induction false} AppendStopped(seen: set<int>, items: seq<Item>, n: nat, keyed: Item -> bool)
    requires n <= |items| && Append(seen, items[..n], keyed).None?
    ensures Append(seen, items, keyed).None?
    decreases |items|
  {
    if n == |items| {
      assert items[..n] == items;
    } else {
      var init := items[..|items| - 1];
      assert init[..n] == items[..n];
      AppendStopped(seen, init, n, keyed);
    }
  }

  /** A page is accepted exactly when the list stays sound with it. */
  lemma {:induction false} AppendKeepsSound(all: seq<Item>, items: seq<Item>, keyed: Item -> bool)
    requires Sound(all, keyed)
    ensures Append(IDs(all), items, keyed).Some? <==> Sound(all + items, keyed)
    ensures Append(IDs(all), items, keyed).Some? ==> Append(IDs(all), items, keyed).value == IDs(all + items)
  {
    if items == [] {
      assert all + items == all;
    } else {
      var init, item := items[..|items| - 1], items[|items| - 1];
      AppendKeepsSound(all, init, keyed);
      assert all + items == (all + init) + [item];
      SoundSnoc(all + init, item, keyed);
    }
  }

  lemma AppendFresh(items: seq<Item>, keyed: Item -> bool)
    ensures Append({}, items, keyed).Some? <==> Sound(items, keyed)
  {
    assert [] + items == items && IDs([]) == {};
    AppendKeepsSound([], items, keyed);
  }

  lemma SoundSnoc(all: seq<Item>, item: Item, keyed: Item -> bool)
    ensures Sound(all + [item], keyed) <==>
            Sound(all, keyed) && keyed(item) && UsableID(item) && (item.id.Whole? ==> item.id.n !in IDs(all))
    ensures IDs(all + [item]) == IDs(all) + if item.id.Whole? then {item.id.n} else {}
  {
    var s := all + [item];
    assert forall i :: 0 <= i < |all| ==> s[i] == all[i];
    assert s[|all|] == item;
    if Sound(s, keyed) {
      forall i, j | 0 <= i < j < |all| ensures !SameID(all[i], all[j]) {
        assert !SameID(s[i], s[j]);
      }
      forall i | 0 <= i < |all| ensures !SameID(all[i], item) && keyed(all[i]) && UsableID(all[i]) {
        assert !SameID(s[i], s[|all|]);
      }
    }
    forall n | n in IDs(s) ensures n in IDs(all) || (item.id.Whole? && n == item.id.n) {
      var i :| 0 <= i < |s| && s[i].id.Whole? && s[i].id.n == n;
    }
    forall n | n in IDs(all) ensures n in IDs(s) {
      var i :| 0 <= i < |all| && all[i].id.Whole? && all[i].id.n == n;
      assert s[i] == all[i];
    }
    if item.id.Whole? {
      assert s[|all|].id.n in IDs(s);
    }
  }

  // ---------- the pages ----------

  /** What the loop has gathered; a missing total is -1. */
  datatype Progress = Progress(all: seq<Item>, seen: set<int>, total: int, bytes: nat)

  datatype PageVerdict = More(next: Progress) | Done(listing: Listing) | AskLegacy

  const START := Progress([], {}, -1, 0)

  /** The checks of an answered page up to its total. */
  function ReadPage(page: int, known: int, r: Response): (Option<Failure>, int)
    requires r.Answer?
  {
    if r.refused then (Some(Refused), known)
    else if r.collection.NotObjects? then (Some(BadItems), known)
    else if r.collection.NoCollection? then (Some(MissingCollection), known)
    else if r.total.BadTotal? then (Some(InvalidTotal), known)
    else if page == 1 then
      if r.total.Total? then (if r.total.n > MAX_ITEMS then Some(TotalOverLimit) else None, r.total.n)
      else (if r.collection.flat then None else Some(MissingTotal), known)
    else (if r.total.NoTotal? || r.total.n != known then Some(TotalChanged) else None, known)
  }

  predicate IsLegacyShape(page: int, r: Response) {
    r.Answer? && !r.refused && r.collection.Collection? && page == 1 && r.total.NoTotal? && r.collection.flat
  }

  function AddPage(p: Progress, total: int, items: seq<Item>, bytes: nat, keyed: Item -> bool): PageVerdict {
    if |items| > MAX_ITEMS - |p.all| then Done(Failed(true, TooManyItems))
    else if bytes > MAX_BYTES - p.bytes then Done(Failed(true, TooManyBytes))
    else
      var seen := Append(p.seen, items, keyed);
      var all := p.all + items;
      if seen.None? then Done(Failed(true, BadToken))
      else if total < 0 then Done(Failed(true, FallThrough))
      else if |all| > total then Done(Failed(true, BeyondTotal))
      else if |all| == total then Done(Complete(all))
      else if |items| < PAGE_LIMIT then Done(Failed(true, ShortPage))
      else More(Progress(all, seen.value, total, p.bytes + bytes))
  }

  function OnPage(page: int, p: Progress, r: Response, keyed: Item -> bool): PageVerdict {
    if r.Unreachable? then Done(Failed(page > 1, FetchError))
    else if IsLegacyShape(page, r) then AskLegacy
    else
      var (failure, total) := ReadPage(page, p.total, r);
      if failure.Some? then Done(Failed(true, failure.value))
      else AddPage(p, total, r.collection.items, r.bytes, keyed)
  }

  function Legacy(r: Response, keyed: Item -> bool): Listing {
    if r.Unreachable? then Failed(true, FetchError)
    else if r.refused then Failed(true, Refused)
    else if r.collection.NotObjects? then Failed(true, BadItems)
    else if r.collection.NoCollection? then Failed(true, MissingCollection)
    else
      var items := r.collection.items;
      if |items| > MAX_ITEMS then Failed(true, TooManyItems)
      else if r.bytes > MAX_BYTES then Failed(true, TooManyBytes)
      else if Append({}, items, keyed).None? then Failed(true, BadToken)
      else
        match r.total
        case BadTotal => Failed(true, InvalidTotal)
        case NoTotal => Unproven(items)
        case Total(n) =>
          if n > MAX_ITEMS then Failed(true, TotalOverLimit)
          else if |items| > n then Failed(true, BeyondTotal)
          else if |items| == n then Complete(items)
          else Unproven(items)
  }

  function FetchFrom(up: Upstream, page: nat, p: Progress, keyed: Item -> bool): Listing
    requires 1 <= page <= MAX_PAGES + 1
    decreases MAX_PAGES + 1 - page
  {
    if page > MAX_PAGES then Failed(true, PageLimit)
    else
      match OnPage(page, p, up.pages(page), keyed)
      case Done(listing) => listing
      case AskLegacy => Legacy(up.legacy, keyed)
      case More(next) => FetchFrom(up, page + 1, next, keyed)
  }

  function Fetch(up: Upstream): Listing { FetchFrom(up, 1, START, Keyed()) }

  method FetchLegacyItems(up: Upstream) returns (listing: Listing)
    ensures listing == Legacy(up.legacy, Keyed())
  {
    var r := up.legacy;
    if r.Unreachable? {
      return Failed(true, FetchError);
    }
    if r.refused {
      return Failed(true, Refused);
    }
    if r.collection.NotObjects? {
      return Failed(true, BadItems);
    }
    if r.collection.NoCollection? {
      return Failed(true, MissingCollection);
    }
    var items := r.collection.items;
    if |items| > MAX_ITEMS {
      return Failed(true, TooManyItems);
    }
    if r.bytes > MAX_BYTES {
      return Failed(true, TooManyBytes);
    }
    var ok, all, seen := AppendItems([], {}, items, Keyed());
    if !ok {
      return Failed(true, BadToken);
    }
    if r.total.BadTotal? {
      return Failed(true, InvalidTotal);
    }
    if r.total.Total? {
      if r.total.n > MAX_ITEMS {
        return Failed(true, TotalOverLimit);
      }
      if |items| > r.total.n {
        return Failed(true, BeyondTotal);
      }
      if |items| == r.total.n {
        return Complete(all);
      }
    }
    return Unproven(all);
  }

  /** The checks that come before the items; `legacy` asks for the legacy query instead. */
  method ReadAnswer(page: int, known: int, resp: Response) returns (failure: Option<Failure>, legacy: bool, total: int)
    requires resp.Answer?
    ensures legacy <==> IsLegacyShape(page, resp)
    ensures !legacy ==> (failure, total) == ReadPage(page, known, resp)
  {
    failure, legacy, total := None, false, known;
    if resp.refused {
      return Some(Refused), false, known;
    }
    if resp.collection.NotObjects? {
      return Some(BadItems), false, known;
    }
    if resp.collection.NoCollection? {
      return Some(MissingCollection), false, known;
    }
    if resp.total.BadTotal? {
      return Some(InvalidTotal), false, known;
    }
    var hasTotal, flat := resp.total.Total?, resp.collection.flat;
    if page == 1 && !hasTotal && flat {
      return None, true, known;
    }
    if page == 1 {
      if hasTotal {
        total := resp.total.n;
        if total > MAX_ITEMS {
          failure := Some(TotalOverLimit);
        }
      } else if !flat {
        failure := Some(MissingTotal);
      }
    } else if !hasTotal || resp.total.n != known {
      failure := Some(TotalChanged);
    }
  }

  /** Adds a page to the list under the item and size limits and compares the list with the total. */
  method TakePage(p: Progress, total: int, items: seq<Item>, bytes: nat) returns (verdict: PageVerdict)
    ensures verdict == AddPage(p, total, items, bytes, Keyed())
  {
    if |items| > MAX_ITEMS - |p.all| {
      return Done(Failed(true, TooManyItems));
    }
    if bytes > MAX_BYTES - p.bytes {
      return Done(Failed(true, TooManyBytes));
    }
    var ok, all, seenIDs := AppendItems(p.all, p.seen, items, Keyed());
    if !ok {
      return Done(Failed(true, BadToken));
    }
    if total >= 0 {
      if |all| > total {
        return Done(Failed(true, BeyondTotal));
      }
      if |all| == total {
        return Done(Complete(all));
      }
      if |items| < PAGE_LIMIT {
        return Done(Failed(true, ShortPage));
      }
      return More(Progress(all, seenIDs, total, p.bytes + bytes));
    }
    return Done(Failed(true, FallThrough));
  }

  /** Asks for at most ten pages, the legacy one included. */
  method FetchItems(up: Upstream) returns (listing: Listing, requests: nat)
    ensures listing == Fetch(up)
    ensures 1 <= requests <= MAX_PAGES
  {
    var gathered, page, started := START, 1, false;
    requests := 0;
    while true
      invariant 1 <= page <= MAX_PAGES + 1 && requests == page - 1
      invariant started == (page > 1)
      invariant FetchFrom(up, page, gathered, Keyed()) == Fetch(up)
      decreases MAX_PAGES + 1 - page
    {
      if page > MAX_PAGES {
        return Failed(started, PageLimit), requests;
      }
      var resp := up.pages(page);
      requests := requests + 1;
      if resp.Unreachable? {
        return Failed(started, FetchError), requests;
      }
      started := true;
      var failure, legacy, total := ReadAnswer(page, gathered.total, resp);
      if legacy {
        listing := FetchLegacyItems(up);
        return listing, requests + 1;
      }
      if failure.Some? {
        return Failed(started, failure.value), requests;
      }
      var verdict := TakePage(gathered, total, resp.collection.items, resp.bytes);
      if verdict.Done? {
        return verdict.listing, requests;
      }
      gathered, page := verdict.next, page + 1;
    }
  }

  // ---------- every upstream ----------

  ghost function ItemsOf(r: Response): seq<Item> {
    if r.Answer? && r.collection.Collection? then r.collection.items else []
  }

  /** The items of the first `n` pages. */
  ghost function Pages(up: Upstream, n: nat): seq<Item> {
    if n == 0 then [] else Pages(up, n - 1) + ItemsOf(up.pages(n))
  }

  ghost function PageBytes(up: Upstream, n: nat): nat {
    if n == 0 then 0 else PageBytes(up, n - 1) + if up.pages(n).Answer? then up.pages(n).bytes else 0
  }

  ghost predicate Reports(r: Response, total: nat) {
    r.Answer? && !r.refused && r.collection.Collection? && r.total == Total(total)
  }

  ghost predicate ReportsUpTo(up: Upstream, n: nat, total: nat) {
    forall k :: 1 <= k <= n ==> Reports(up.pages(k), total)
  }

  /** The items are exactly the first `n` pages, which all report as many. */
  ghost predicate FromPages(up: Upstream, items: seq<Item>, n: nat) {
    1 <= n <= MAX_PAGES && items == Pages(up, n) && ReportsUpTo(up, n, |items|)
  }

  ghost predicate FromLegacy(up: Upstream, items: seq<Item>) {
    IsLegacyShape(1, up.pages(1)) && up.legacy.Answer? && !up.legacy.refused && up.legacy.collection.Collection?
    && items == up.legacy.collection.items
  }

  /** What the loop knows before it asks for `page`. */
  ghost predicate Gathered(up: Upstream, page: nat, p: Progress, keyed: Item -> bool) {
    && Sound(p.all, keyed) && p.seen == IDs(p.all) && p.bytes <= MAX_BYTES
    && 1 <= page <= MAX_PAGES
    && p.all == Pages(up, page - 1)
    && (page == 1 ==> p == START)
    && (page > 1 ==> p.total <= MAX_ITEMS && PAGE_LIMIT * (page - 1) <= |p.all| < p.total && ReportsUpTo(up, page - 1, p.total))
  }

  /** A listing that may be relied on, and how each incomplete one came about. */
  ghost predicate Honest(up: Upstream, listing: Listing, keyed: Item -> bool) {
    match listing
    case Complete(items) =>
      && Sound(items, keyed) && |items| <= MAX_ITEMS
      && ((exists n :: FromPages(up, items, n)) || (FromLegacy(up, items) && up.legacy.total == Total(|items|)))
    case Unproven(items) =>
      && Sound(items, keyed) && |items| <= MAX_ITEMS && FromLegacy(up, items)
      && (up.legacy.total.NoTotal? || (up.legacy.total.Total? && |items| < up.legacy.total.n))
    case Failed(started, why) =>
      && (!started <==> up.pages(1).Unreachable?)
      && why != FallThrough && why != PageLimit
  }

  lemma PageKeepsGathered(up: Upstream, page: nat, p: Progress, keyed: Item -> bool)
    requires Gathered(up, page, p, keyed) && OnPage(page, p, up.pages(page), keyed).More?
    ensures page < MAX_PAGES && Gathered(up, page + 1, OnPage(page, p, up.pages(page), keyed).next, keyed)
  {
    AppendKeepsSound(p.all, ItemsOf(up.pages(page)), keyed);
  }

  lemma CompletePageIsHonest(up: Upstream, page: nat, p: Progress, keyed: Item -> bool)
    requires Gathered(up, page, p, keyed) && OnPage(page, p, up.pages(page), keyed).Done?
    ensures Honest(up, OnPage(page, p, up.pages(page), keyed).listing, keyed)
  {
    var listing := OnPage(page, p, up.pages(page), keyed).listing;
    AppendKeepsSound(p.all, ItemsOf(up.pages(page)), keyed);
    if page > 1 {
      assert Reports(up.pages(1), p.total);
    }
    if listing.Complete? {
      assert FromPages(up, listing.items, page);
    }
  }

  lemma LegacyIsHonest(up: Upstream, keyed: Item -> bool)
    requires IsLegacyShape(1, up.pages(1))
    ensures Honest(up, Legacy(up.legacy, keyed), keyed)
  {
    AppendFresh(ItemsOf(up.legacy), keyed);
  }

  lemma {:induction false} FetchFromIsHonest(up: Upstream, page: nat, p: Progress, keyed: Item -> bool)
    requires Gathered(up, page, p, keyed)
    ensures Honest(up, FetchFrom(up, page, p, keyed), keyed)
    decreases MAX_PAGES + 1 - page
  {
    var verdict := OnPage(page, p, up.pages(page), keyed);
    match verdict
    case More(next) =>
      PageKeepsGathered(up, page, p, keyed);
      FetchFromIsHonest(up, page + 1, next, keyed);
    case AskLegacy => LegacyIsHonest(up, keyed);
    case Done(_) => CompletePageIsHonest(up, page, p, keyed);
  }

  /**
    Against every upstream: a complete listing is the first pages (or the legacy page) reporting
    exactly that many items, at most 1000, with usable keys and no id twice; the listing counts as
    not started exactly when the first page did not answer; and neither the fall-through error nor
    the page-limit error can occur.
  */
  lemma EveryListingIsHonest(up: Upstream)
    ensures Honest(up, Fetch(up), Keyed())
  {
    FetchFromIsHonest(up, 1, START, Keyed());
  }

  // ---------- completeness ----------

  /** Full pages until the last, all reporting the total, within the byte limit. */
  ghost predicate WellPaged(up: Upstream, n: nat, keyed: Item -> bool) {
    var items := Pages(up, n);
    && FromPages(up, items, n) && Sound(items, keyed) && |items| <= MAX_ITEMS && PageBytes(up, n) <= MAX_BYTES
    && (forall k :: 1 <= k < n ==> |ItemsOf(up.pages(k))| >= PAGE_LIMIT && |Pages(up, k)| < |items|)
  }

  lemma {:induction false} PagesGrow(up: Upstream, k: nat, n: nat)
    requires k <= n
    ensures Pages(up, k) <= Pages(up, n) && PageBytes(up, k) <= PageBytes(up, n)
  {
    if k < n {
      PagesGrow(up, k, n - 1);
    }
  }

  lemma SoundPrefix(a: seq<Item>, b: seq<Item>, keyed: Item -> bool)
    requires a <= b && Sound(b, keyed)
    ensures Sound(a, keyed)
  {
    forall i, j | 0 <= i < j < |a| ensures !SameID(a[i], a[j]) {
      assert a[i] == b[i] && a[j] == b[j];
    }
    forall i | 0 <= i < |a| ensures keyed(a[i]) && UsableID(a[i]) {
      assert a[i] == b[i];
    }
  }

  lemma {:induction false} WellPagedFrom(up: Upstream, page: nat, n: nat, p: Progress, keyed: Item -> bool)
    requires WellPaged(up, n, keyed) && Gathered(up, page, p, keyed) && page <= n && p.bytes == PageBytes(up, page - 1)
    requires page > 1 ==> p.total == |Pages(up, n)|
    ensures FetchFrom(up, page, p, keyed) == Complete(Pages(up, n))
    decreases n - page
  {
    var items, r := Pages(up, n), up.pages(page);
    assert Reports(r, |items|);
    PagesGrow(up, page, n);
    SoundPrefix(Pages(up, page), items, keyed);
    AppendKeepsSound(p.all, ItemsOf(r), keyed);
    if page < n {
      PageKeepsGathered(up, page, p, keyed);
      WellPagedFrom(up, page + 1, n, OnPage(page, p, r, keyed).next, keyed);
    }
  }

  /** A well-paged upstream is listed completely. */
  lemma WellPagedIsComplete(up: Upstream, n: nat)
    requires WellPaged(up, n, Keyed())
    ensures Fetch(up) == Complete(Pages(up, n))
  {
    WellPagedFrom(up, 1, n, START, Keyed());
  }

  function Upper(k: nat, n: nat): nat { if PAGE_LIMIT * k < n then PAGE_LIMIT * k else n }

  /** An upstream that serves `tokens` in pages of one hundred. */
  ghost predicate Serves(up: Upstream, tokens: seq<Item>) {
    forall k :: 1 <= k <= MAX_PAGES ==>
      Reports(up.pages(k), |tokens|) && up.pages(k).bytes <= MAX_BYTES / MAX_PAGES &&
      ItemsOf(up.pages(k)) == tokens[Upper(k - 1, |tokens|)..Upper(k, |tokens|)]
  }

  lemma {:induction false} ServedPages(up: Upstream, tokens: seq<Item>, n: nat)
    requires Serves(up, tokens) && n <= MAX_PAGES
    ensures Pages(up, n) == tokens[..Upper(n, |tokens|)] && PageBytes(up, n) <= n * (MAX_BYTES / MAX_PAGES)
  {
    if n > 0 {
      ServedPages(up, tokens, n - 1);
      assert Reports(up.pages(n), |tokens|);
    }
  }

  function PagesNeeded(n: nat): nat { if n == 0 then 1 else (n + PAGE_LIMIT - 1) / PAGE_LIMIT }

  lemma ServedPageIsFull(up: Upstream, tokens: seq<Item>, k: nat)
    requires Serves(up, tokens) && |tokens| <= MAX_ITEMS && 1 <= k < PagesNeeded(|tokens|)
    ensures |ItemsOf(up.pages(k))| >= PAGE_LIMIT && |Pages(up, k)| < |tokens|
  {
    ServedPages(up, tokens, k);
    assert Reports(up.pages(k), |tokens|);
    assert Upper(k - 1, |tokens|) == PAGE_LIMIT * (k - 1) && Upper(k, |tokens|) == PAGE_LIMIT * k;
  }

  lemma ServedReports(up: Upstream, tokens: seq<Item>, n: nat)
    requires Serves(up, tokens) && n <= MAX_PAGES
    ensures ReportsUpTo(up, n, |tokens|)
  {}

  lemma ServedInFull(up: Upstream, tokens: seq<Item>)
    requires Serves(up, tokens) && |tokens| <= MAX_ITEMS
    ensures var n := PagesNeeded(|tokens|);
            1 <= n <= MAX_PAGES && Pages(up, n) == tokens && PageBytes(up, n) <= MAX_BYTES
  {
    var n := PagesNeeded(|tokens|);
    ServedPages(up, tokens, n);
    assert Upper(n, |tokens|) == |tokens|;
    assert n * (MAX_BYTES / MAX_PAGES) <= MAX_PAGES * (MAX_BYTES / MAX_PAGES);
  }

  lemma ServedIsWellPaged(up: Upstream, tokens: seq<Item>, n: nat, keyed: Item -> bool)
    requires Serves(up, tokens) && Sound(tokens, keyed) && |tokens| <= MAX_ITEMS && n == PagesNeeded(|tokens|)
    ensures Pages(up, n) == tokens && WellPaged(up, n, keyed)
  {
    ServedInFull(up, tokens);
    ServedReports(up, tokens, n);
    forall k | 1 <= k < n ensures |ItemsOf(up.pages(k))| >= PAGE_LIMIT && |Pages(up, k)| < |tokens| {
      ServedPageIsFull(up, tokens, k);
    }
  }

  /** Every upstream that pages at most 1000 distinct tokens is listed exactly. */
  lemma ServedTokensAreListed(up: Upstream, tokens: seq<Item>)
    requires Serves(up, tokens) && Sound(tokens, Keyed()) && |tokens| <= MAX_ITEMS
    ensures Fetch(up) == Complete(tokens)
  {
    ServedIsWellPaged(up, tokens, PagesNeeded(|tokens|), Keyed());
    WellPagedIsComplete(up, PagesNeeded(|tokens|));
  }
}
