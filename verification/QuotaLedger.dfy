/** The quota ledger of managed keys: usage rows and holds (`auth/downstream_quota.go`). */
module QuotaLedger {
  // Each database transaction is one atomic step; a failed one is a step that changes nothing. The window
  // function of a quota is a parameter, as are the clock and the random reservation ids.
  import opened Seqs

  /** Inclusive start, exclusive end, in Unix milliseconds. */
  datatype Period = Period(start: int, end: int)

  datatype Quota = Quota(
    requests: Option<int>,
    totalTokens: Option<int>,
    cost: Option<real>,
    historyMissingBefore: Option<int>,
    window: int -> Option<Period>)

  /** Missing tokens or cost are SQL NULL. */
  datatype UsageRow = UsageRow(key: int, at: int, requests: int, tokens: Option<int>, cost: Option<real>)
  datatype Hold = Hold(id: string, key: int, period: Period, requests: int, tokens: Option<int>, created: int)
  datatype Ledger = Ledger(usage: seq<UsageRow>, holds: seq<Hold>)

  datatype Blocker = Clear | AccessPolicy | HistoryMissing | Unavailable | UsageUnknown | OverQuota

  const RESERVATION_TTL_MS := 30 * 60 * 1000

  // ---------- the SQL sums ----------

  predicate In(p: Period, t: int) { p.start <= t < p.end }
  predicate Overlaps(h: Period, p: Period) { h.end > p.start && h.start < p.end }
  function Positive(n: int): nat { if n > 0 then n else 0 }

  function RowRequests(key: int, p: Period): UsageRow -> int {
    (u: UsageRow) => if u.key == key && In(p, u.at) then u.requests else 0
  }
  function RowTokens(key: int, p: Period): UsageRow -> int {
    (u: UsageRow) => if u.key == key && In(p, u.at) && u.tokens.Some? then u.tokens.value else 0
  }
  function RowsWithoutTokens(key: int, p: Period): UsageRow -> int {
    (u: UsageRow) => if u.key == key && In(p, u.at) && u.tokens.None? then 1 else 0
  }
  function RowsWithoutCost(key: int, p: Period): UsageRow -> int {
    (u: UsageRow) => if u.key == key && In(p, u.at) && u.cost.None? then 1 else 0
  }
  function HoldRequests(key: int, p: Period): Hold -> int {
    (h: Hold) => if h.key == key && Overlaps(h.period, p) then Positive(h.requests) else 0
  }
  function HoldTokens(key: int, p: Period): Hold -> int {
    (h: Hold) => if h.key == key && Overlaps(h.period, p) && h.tokens.Some? then Positive(h.tokens.value) else 0
  }

  function CostIn(usage: seq<UsageRow>, key: int, p: Period): real {
    if usage == [] then 0.0
    else
      var u := usage[|usage| - 1];
      CostIn(usage[..|usage| - 1], key, p) +
      (if u.key == key && In(p, u.at) && u.cost.Some? then u.cost.value else 0.0)
  }

  function RequestsUsed(l: Ledger, key: int, p: Period): int {
    SumBy(l.usage, RowRequests(key, p)) + SumBy(l.holds, HoldRequests(key, p))
  }
  function TokensUsed(l: Ledger, key: int, p: Period): int {
    SumBy(l.usage, RowTokens(key, p)) + SumBy(l.holds, HoldTokens(key, p))
  }

  // ---------- the verdicts ----------

  predicate Reaches(limit: Option<int>, used: int) { limit.Some? && used >= limit.value }

  /** The read-only explanation; `window` is missing when the period is invalid. */
  datatype Explanation = Explanation(
    window: Option<Period>, requestsUsed: int, tokensUsed: int, costUsed: real,
    unknownTokens: int, unknownCost: int, historyMissing: bool, blocker: Blocker)

  function ExplainManagedKeyQuota(l: Ledger, key: int, q: Quota, now: int): Explanation {
    var none := Explanation(None, 0, 0, 0.0, 0, 0, false, Clear);
    match q.window(now)
    case None => none.(blocker := AccessPolicy)
    case Some(p) =>
      if q.historyMissingBefore.Some? && p.start < q.historyMissingBefore.value then
        none.(window := Some(p), historyMissing := true, blocker := HistoryMissing)
      else
        var cost := CostIn(l.usage, key, p);
        var unknownTokens := SumBy(l.usage, RowsWithoutTokens(key, p));
        var unknownCost := SumBy(l.usage, RowsWithoutCost(key, p));
        var e := Explanation(Some(p), RequestsUsed(l, key, p), TokensUsed(l, key, p), cost,
                             unknownTokens, unknownCost, false, Clear);
        if (q.totalTokens.Some? && unknownTokens > 0) || (q.cost.Some? && unknownCost > 0) then
          e.(blocker := UsageUnknown)
        else if Reaches(q.requests, e.requestsUsed) || Reaches(q.totalTokens, e.tokensUsed)
             || (q.cost.Some? && cost >= q.cost.value) then
          e.(blocker := OverQuota)
        else e
  }

  function Live(key: int, now: int): Hold -> bool {
    (h: Hold) => h.key != key || h.created >= now - RESERVATION_TTL_MS
  }
  function Keeps(id: string): Hold -> bool { (h: Hold) => h.id != id }
  function KeepsOthers(id: string, key: int): Hold -> bool { (h: Hold) => h.id != id || h.key != key }

  /** The crash-recovery sweep of one key. */
  function Expire(l: Ledger, key: int, now: int): Ledger {
    l.(holds := Filter(l.holds, Live(key, now)))
  }

  function NewHold(id: string, key: int, q: Quota, est: int, now: int, p: Period): Hold {
    var tokens := if q.totalTokens.Some? then Some(if est < 1 then 1 else est) else None;
    Hold(id, key, p, 1, tokens, now)
  }

  predicate Taken(l: Ledger, id: string) { exists i :: 0 <= i < |l.holds| && l.holds[i].id == id }

  /** Admission: the verdict of the explanation on the swept ledger, then one hold with a fresh id. */
  function Reserve(l: Ledger, key: int, q: Quota, est: int, now: int, id: string): (Ledger, Blocker) {
    var swept := Expire(l, key, now);
    var verdict := ExplainManagedKeyQuota(swept, key, q, now).blocker;
    if verdict != Clear then (l, verdict)
    else if Taken(swept, id) then (l, Unavailable)
    else (swept.(holds := swept.holds + [NewHold(id, key, q, est, now, q.window(now).value)]), Clear)
  }

  function Release(l: Ledger, id: string): Ledger {
    if id == "" then l else l.(holds := Filter(l.holds, Keeps(id)))
  }

  function NonNegative<T>(value: Option<T>, negative: T -> bool): Option<T> {
    if value.Some? && negative(value.value) then None else value
  }
  function BelowZero(): int -> bool { (n: int) => n < 0 }
  function CostBelowZero(): real -> bool { (x: real) => x < 0.0 }

  function Record(l: Ledger, key: int, id: string, tokens: Option<int>, cost: Option<real>, now: int): Ledger {
    if key <= 0 then l
    else
      var row := UsageRow(key, now, 1, NonNegative(tokens, BelowZero()), NonNegative(cost, CostBelowZero()));
      Ledger(l.usage + [row], if id == "" then l.holds else Filter(l.holds, KeepsOthers(id, key)))
  }

  // ---------- the tables, updated step by step ----------

  class QuotaTables {
    var usage: seq<UsageRow>
    var holds: seq<Hold>

    function Contents(): Ledger
      reads this
    {
      Ledger(usage, holds)
    }

    constructor ()
      ensures Contents() == Ledger([], [])
    {
      usage, holds := [], [];
    }

    /** The empty id on a denial; everything the transaction did before it is rolled back. */
    method ReserveManagedKeyQuota(key: int, q: Quota, estimatedTokens: int, now: int, newID: string)
      returns (id: string, denied: Blocker)
      modifies this
      ensures (Contents(), denied) == Reserve(old(Contents()), key, q, estimatedTokens, now, newID)
      ensures id == if denied.Clear? then newID else ""
    {
      var window := q.window(now);
      if window.None? {
        return "", AccessPolicy;
      }
      var p := window.value;
      if q.historyMissingBefore.Some? && p.start < q.historyMissingBefore.value {
        return "", HistoryMissing;
      }
      var live := Filter(holds, Live(key, now));
      var requests := SumBy(usage, RowRequests(key, p));
      var tokens := SumBy(usage, RowTokens(key, p));
      var cost := CostIn(usage, key, p);
      var unknownTokens := SumBy(usage, RowsWithoutTokens(key, p));
      var unknownCost := SumBy(usage, RowsWithoutCost(key, p));
      var reservedRequests, reservedTokens := SumBy(live, HoldRequests(key, p)), SumBy(live, HoldTokens(key, p));
      requests, tokens := requests + reservedRequests, tokens + reservedTokens;
      if (q.totalTokens.Some? && unknownTokens > 0) || (q.cost.Some? && unknownCost > 0) {
        return "", UsageUnknown;
      }
      if (q.requests.Some? && requests >= q.requests.value)
         || (q.totalTokens.Some? && tokens >= q.totalTokens.value)
         || (q.cost.Some? && cost >= q.cost.value)
      {
        return "", OverQuota;
      }
      var reservedTokenValue := None;
      if q.totalTokens.Some? {
        reservedTokenValue := Some(if estimatedTokens < 1 then 1 else estimatedTokens);
      }
      if Taken(Ledger(usage, live), newID) {
        return "", Unavailable;
      }
      holds := live + [Hold(newID, key, p, 1, reservedTokenValue, now)];
      return newID, Clear;
    }

    method ReleaseManagedKeyQuotaReservation(id: string)
      modifies this
      ensures Contents() == Release(old(Contents()), id)
    {
      if id == "" {
        return;
      }
      holds := Filter(holds, Keeps(id));
    }

    method SettleManagedKeyQuotaUsage(key: int, id: string, occurredAt: int, tokens: Option<int>, cost: Option<real>)
      modifies this
      ensures Contents() == Ledger(old(usage) + [UsageRow(key, occurredAt, 1, tokens, cost)], Filter(old(holds), KeepsOthers(id, key)))
    {
      holds := Filter(holds, KeepsOthers(id, key));
      usage := usage + [UsageRow(key, occurredAt, 1, tokens, cost)];
    }

    method RecordManagedKeyQuotaUsage(key: int, id: string, tokens: Option<int>, cost: Option<real>, now: int)
      modifies this
      ensures Contents() == Record(old(Contents()), key, id, tokens, cost, now)
    {
      if key <= 0 {
        return;
      }
      var knownTokens := tokens;
      if tokens.Some? && tokens.value < 0 {
        knownTokens := None;
      }
      var knownCost := cost;
      if cost.Some? && cost.value < 0.0 {
        knownCost := None;
      }
      if id != "" {
        SettleManagedKeyQuotaUsage(key, id, now, knownTokens, knownCost);
      } else {
        usage := usage + [UsageRow(key, now, 1, knownTokens, knownCost)];
      }
    }
  }

  // ---------- runs ----------

  /** A crash is an admission that is never followed by its settlement or release. */
  datatype Op =
    | Admit(key: int, est: int, now: int, id: string)
    | Settle(key: int, id: string, tokens: Option<int>, cost: Option<real>, now: int)
    | Drop(id: string)

  function Step(policy: int -> Quota, l: Ledger, op: Op): Ledger {
    match op
    case Admit(key, est, now, id) => Reserve(l, key, policy(key), est, now, id).0
    case Settle(key, id, tokens, cost, now) => Record(l, key, id, tokens, cost, now)
    case Drop(id) => Release(l, id)
  }

  function Run(policy: int -> Quota, ops: seq<Op>): Ledger {
    if ops == [] then Ledger([], []) else Step(policy, Run(policy, ops[..|ops| - 1]), ops[|ops| - 1])
  }

  /** Windows partition time: each contains its own instant, and all its instants have it as their window. */
  ghost predicate Partitions(window: int -> Option<Period>) {
    forall t: int :: Windowed(window, t)
  }
  ghost predicate Windowed(window: int -> Option<Period>, t: int) {
    window(t).Some? ==> In(window(t).value, t) && Fills(window, window(t).value)
  }
  ghost predicate KeyPartitions(policy: int -> Quota, key: int) { Partitions(policy(key).window) }
  /** So it is for the quota of every key. */
  ghost predicate KeysPartition(policy: int -> Quota) { forall key: int :: KeyPartitions(policy, key) }
  ghost predicate Fills(window: int -> Option<Period>, p: Period) {
    forall u: int :: In(p, u) ==> window(u) == Some(p)
  }

  function HeldIn(id: string, key: int, p: Period): Hold -> bool {
    (h: Hold) => h.id == id && h.key == key && h.period == p
  }

  /** The usage row of this step falls into `p` although no live hold of that window stands for it. */
  predicate SettlesUnheld(l: Ledger, op: Op, key: int, p: Period) {
    && op.Settle? && op.key == key && key > 0 && In(p, op.now)
    && (op.id == "" || Filter(l.holds, HeldIn(op.id, key, p)) == [])
  }

  function Unheld(policy: int -> Quota, ops: seq<Op>, key: int, p: Period): nat {
    if ops == [] then 0
    else
      var init, op := ops[..|ops| - 1], ops[|ops| - 1];
      Unheld(policy, init, key, p) + if SettlesUnheld(Run(policy, init), op, key, p) then 1 else 0
  }

  ghost predicate UniqueIDs(holds: seq<Hold>) {
    forall i, j :: 0 <= i < j < |holds| ==> holds[i].id != holds[j].id
  }

  /** Every hold of a key counts one request in a whole window of that key's quota. */
  ghost predicate WellFormed(policy: int -> Quota, l: Ledger) {
    && UniqueIDs(l.holds)
    && forall h :: h in l.holds ==> h.requests == 1 && h.period.start < h.period.end && Fills(policy(h.key).window, h.period)
  }

  lemma {:induction false} FilterKeepsUnique(holds: seq<Hold>, p: Hold -> bool)
    requires UniqueIDs(holds)
    ensures UniqueIDs(Filter(holds, p))
  {
    if holds != [] {
      var init, last := holds[..|holds| - 1], holds[|holds| - 1];
      FilterKeepsUnique(init, p);
      if p(last) {
        var kept := Filter(init, p);
        forall i | 0 <= i < |kept| ensures kept[i].id != last.id {
          assert kept[i] in init;
        }
      }
    }
  }

  lemma FilterKeepsWellFormed(policy: int -> Quota, l: Ledger, p: Hold -> bool)
    requires WellFormed(policy, l)
    ensures WellFormed(policy, l.(holds := Filter(l.holds, p)))
  {
    FilterKeepsUnique(l.holds, p);
  }

  /** What a reservation does to the tables, whatever its verdict rests on. */
  lemma ReserveAddsOneHold(l: Ledger, key: int, q: Quota, est: int, now: int, id: string)
    ensures var (t, verdict) := Reserve(l, key, q, est, now, id);
            if verdict != Clear then t == l
            else
              var swept := Expire(l, key, now);
              && ExplainManagedKeyQuota(swept, key, q, now).blocker == Clear && q.window(now).Some? && !Taken(swept, id)
              && t == swept.(holds := swept.holds + [NewHold(id, key, q, est, now, q.window(now).value)])
  {}

  lemma NewHoldKeepsWellFormed(policy: int -> Quota, l: Ledger, h: Hold)
    requires WellFormed(policy, l) && !Taken(l, h.id) && Partitions(policy(h.key).window)
    requires h.requests == 1 && exists t :: Windowed(policy(h.key).window, t) && policy(h.key).window(t) == Some(h.period)
    ensures WellFormed(policy, l.(holds := l.holds + [h]))
  {}

  lemma StepKeepsWellFormed(policy: int -> Quota, l: Ledger, op: Op)
    requires WellFormed(policy, l) && KeysPartition(policy)
    ensures WellFormed(policy, Step(policy, l, op))
  {
    match op
    case Admit(key, est, now, id) =>
      var q, swept := policy(key), Expire(l, key, now);
      FilterKeepsWellFormed(policy, l, Live(key, now));
      ReserveAddsOneHold(l, key, q, est, now, id);
      assert KeyPartitions(policy, key) && Windowed(q.window, now);
      if Reserve(l, key, q, est, now, id).1 == Clear {
        NewHoldKeepsWellFormed(policy, swept, NewHold(id, key, q, est, now, q.window(now).value));
      }
    case Settle(key, id, tokens, cost, now) => FilterKeepsWellFormed(policy, l, KeepsOthers(id, key));
    case Drop(id) => FilterKeepsWellFormed(policy, l, Keeps(id));
  }

  /** What one hold weighs in a window: 1 exactly when it is a hold of that window. */
  lemma OverlapIsSamePeriod(window: int -> Option<Period>, h: Hold, p: Period)
    requires Fills(window, h.period) && Fills(window, p) && h.period.start < h.period.end && p.start < p.end
    ensures Overlaps(h.period, p) <==> h.period == p
  {
    if Overlaps(h.period, p) {
      var t := if h.period.start < p.start then p.start else h.period.start;
      assert In(h.period, t) && In(p, t);
    }
  }

  /** When only the hold at `i` goes, the sum falls by what it weighed. */
  lemma {:induction false} RemoveOne(holds: seq<Hold>, i: nat, keep: Hold -> bool, w: Hold -> int)
    requires i < |holds| && forall j :: 0 <= j < |holds| ==> (keep(holds[j]) <==> j != i)
    ensures SumBy(Filter(holds, keep), w) == SumBy(holds, w) - w(holds[i])
  {
    var init, last := holds[..|holds| - 1], holds[|holds| - 1];
    if i == |holds| - 1 {
      FilterAll(init, keep);
    } else {
      RemoveOne(init, i, keep, w);
      SumSnoc(Filter(init, keep), last, w);
    }
  }

  /** Settling inside its hold's window moves one request from the hold to a row. */
  lemma InWindowSettlementKeepsTheSum(policy: int -> Quota, l: Ledger, op: Op, h: Hold)
    requires WellFormed(policy, l) && op.Settle? && op.key > 0 && op.id != ""
    requires h in l.holds && h.id == op.id && h.key == op.key && In(h.period, op.now)
    ensures RequestsUsed(Step(policy, l, op), op.key, h.period) == RequestsUsed(l, op.key, h.period)
  {
    var t := Step(policy, l, op);
    SumSnoc(l.usage, t.usage[|l.usage|], RowRequests(op.key, h.period));
    var i :| 0 <= i < |l.holds| && l.holds[i] == h;
    RemoveOne(l.holds, i, KeepsOthers(op.id, op.key), HoldRequests(op.key, h.period));
  }

  /** No other settlement raises the sum of a window by more than its own unheld row. */
  lemma SettlementRaisesByUnheld(policy: int -> Quota, l: Ledger, op: Op, key: int, p: Period)
    requires WellFormed(policy, l) && op.Settle?
    ensures RequestsUsed(Step(policy, l, op), key, p) <=
            RequestsUsed(l, key, p) + if SettlesUnheld(l, op, key, p) then 1 else 0
  {
    if op.key > 0 {
      var t := Step(policy, l, op);
      SumSnoc(l.usage, t.usage[|l.usage|], RowRequests(key, p));
      SumFilter(l.holds, KeepsOthers(op.id, op.key), HoldRequests(key, p));
      var own := Filter(l.holds, HeldIn(op.id, key, p));
      if op.key == key && In(p, op.now) && op.id != "" && own != [] {
        assert own[0] in own;
        InWindowSettlementKeepsTheSum(policy, l, op, own[0]);
      }
    }
  }

  lemma ClearLeavesRoom(l: Ledger, key: int, q: Quota, now: int)
    requires ExplainManagedKeyQuota(l, key, q, now).blocker == Clear && q.requests.Some?
    ensures q.window(now).Some? && RequestsUsed(l, key, q.window(now).value) < q.requests.value
  {}

  lemma SweepNeverRaises(l: Ledger, swept: int, now: int, key: int, p: Period)
    ensures RequestsUsed(Expire(l, swept, now), key, p) <= RequestsUsed(l, key, p)
  {
    SumFilter(l.holds, Live(swept, now), HoldRequests(key, p));
  }

  lemma HoldAddsItsWeight(l: Ledger, h: Hold, key: int, p: Period)
    ensures RequestsUsed(l.(holds := l.holds + [h]), key, p) == RequestsUsed(l, key, p) + HoldRequests(key, p)(h)
  {
    SumSnoc(l.holds, h, HoldRequests(key, p));
  }

  /** One more hold where the window had room. */
  lemma NewHoldStaysWithinLimit(l: Ledger, key: int, q: Quota, now: int, h: Hold, other: int, p: Period)
    requires Partitions(q.window) && ExplainManagedKeyQuota(l, key, q, now).blocker == Clear && q.window(now).Some?
    requires h.key == key && h.requests == 1 && h.period == q.window(now).value
    requires other == key ==> Fills(q.window, p) && p.start < p.end && q.requests.Some?
    ensures var t := l.(holds := l.holds + [h]);
            RequestsUsed(t, other, p) <= RequestsUsed(l, other, p) ||
            (other == key && RequestsUsed(t, other, p) <= q.requests.value)
  {
    HoldAddsItsWeight(l, h, other, p);
    assert Windowed(q.window, now);
    if other == key {
      ClearLeavesRoom(l, key, q, now);
      OverlapIsSamePeriod(q.window, h, p);
    }
  }

  /** An admission leaves every window of the key within the limit or no fuller than before. */
  lemma AdmissionStaysWithinLimit(policy: int -> Quota, l: Ledger, op: Op, key: int, p: Period)
    requires WellFormed(policy, l) && op.Admit? && Partitions(policy(op.key).window)
    requires Fills(policy(key).window, p) && p.start < p.end && policy(key).requests.Some?
    ensures var t := Step(policy, l, op);
            RequestsUsed(t, key, p) <= RequestsUsed(l, key, p) || RequestsUsed(t, key, p) <= policy(key).requests.value
  {
    var q, swept := policy(op.key), Expire(l, op.key, op.now);
    ReserveAddsOneHold(l, op.key, q, op.est, op.now, op.id);
    SweepNeverRaises(l, op.key, op.now, key, p);
    if Reserve(l, op.key, q, op.est, op.now, op.id).1 == Clear {
      var h := NewHold(op.id, op.key, q, op.est, op.now, q.window(op.now).value);
      NewHoldStaysWithinLimit(swept, op.key, q, op.now, h, key, p);
    }
  }

  lemma ReleaseNeverRaises(l: Ledger, id: string, key: int, p: Period)
    ensures RequestsUsed(Release(l, id), key, p) <= RequestsUsed(l, key, p)
  {
    SumFilter(l.holds, Keeps(id), HoldRequests(key, p));
  }

  lemma {:induction false} RunKeepsWellFormed(policy: int -> Quota, ops: seq<Op>)
    requires KeysPartition(policy)
    ensures WellFormed(policy, Run(policy, ops))
  {
    if ops != [] {
      RunKeepsWellFormed(policy, ops[..|ops| - 1]);
      StepKeepsWellFormed(policy, Run(policy, ops[..|ops| - 1]), ops[|ops| - 1]);
    }
  }

  /**
    After every run of admissions, settlements, releases, crashes and sweeps, the rows and holds of
    a window exceed the request limit by no more than the rows settled there without a live hold of
    that window.
  */
  lemma {:induction false} WindowNeverExceedsLimit(policy: int -> Quota, ops: seq<Op>, key: int, p: Period)
    requires KeysPartition(policy)
    requires Fills(policy(key).window, p) && p.start < p.end
    requires policy(key).requests.Some? && policy(key).requests.value >= 0
    ensures RequestsUsed(Run(policy, ops), key, p) <= policy(key).requests.value + Unheld(policy, ops, key, p)
  {
    if ops != [] {
      var init, op := ops[..|ops| - 1], ops[|ops| - 1];
      var l := Run(policy, init);
      WindowNeverExceedsLimit(policy, init, key, p);
      RunKeepsWellFormed(policy, init);
      match op
      case Admit(_, _, _, _) =>
        assert KeyPartitions(policy, op.key);
        AdmissionStaysWithinLimit(policy, l, op, key, p);
      case Settle(_, _, _, _, _) => SettlementRaisesByUnheld(policy, l, op, key, p);
      case Drop(id) => ReleaseNeverRaises(l, id, key, p);
    }
  }

  /** One window, no instant outside it, and one request in it. */
  const ONE_WINDOW := Period(0, 2 * RESERVATION_TTL_MS)
  function OnlyWindow(): int -> Option<Period> { (t: int) => if In(ONE_WINDOW, t) then Some(ONE_WINDOW) else None }
  function OneRequest(): int -> Quota { (key: int) => Quota(Some(1), None, None, None, OnlyWindow()) }

  lemma RunSnoc(policy: int -> Quota, ops: seq<Op>, op: Op)
    ensures Run(policy, ops + [op]) == Step(policy, Run(policy, ops), op)
  {
    assert (ops + [op])[..|ops|] == ops;
  }

  lemma FilterOne(h: Hold, p: Hold -> bool)
    ensures Filter([h], p) == if p(h) then [h] else []
  {
    FilterSnoc([], h, p);
    assert [] + [h] == [h];
  }

  lemma AdmitsIntoEmptyWindow(l: Ledger, now: int, id: string)
    requires l.usage == [] && In(ONE_WINDOW, now) && Filter(l.holds, Live(1, now)) == []
    ensures Step(OneRequest(), l, Admit(1, 1, now, id)) == Ledger([], [Hold(id, 1, ONE_WINDOW, 1, None, now)])
  {
    var swept := Expire(l, 1, now);
    assert swept == Ledger([], []);
    assert RequestsUsed(swept, 1, ONE_WINDOW) == 0;
  }

  lemma OneWindowPartitions()
    ensures Partitions(OnlyWindow())
  {}

  const LATE := RESERVATION_TTL_MS + 1
  const FIRST := Hold("a", 1, ONE_WINDOW, 1, None, 0)
  const SECOND := Hold("b", 1, ONE_WINDOW, 1, None, LATE)
  const ROW := UsageRow(1, LATE, 1, None, None)

  lemma AdmitFirst()
    ensures Run(OneRequest(), [] + [Admit(1, 1, 0, "a")]) == Ledger([], [FIRST])
  {
    RunSnoc(OneRequest(), [], Admit(1, 1, 0, "a"));
    AdmitsIntoEmptyWindow(Ledger([], []), 0, "a");
  }

  lemma AdmitSecond(ops: seq<Op>)
    requires Run(OneRequest(), ops) == Ledger([], [FIRST])
    ensures Run(OneRequest(), ops + [Admit(1, 1, LATE, "b")]) == Ledger([], [SECOND])
  {
    RunSnoc(OneRequest(), ops, Admit(1, 1, LATE, "b"));
    FilterOne(FIRST, Live(1, LATE));
    AdmitsIntoEmptyWindow(Ledger([], [FIRST]), LATE, "b");
  }

  lemma SettleFirst(ops: seq<Op>)
    requires Run(OneRequest(), ops) == Ledger([], [SECOND])
    ensures Run(OneRequest(), ops + [Settle(1, "a", None, None, LATE)]) == Ledger([] + [ROW], [SECOND])
  {
    RunSnoc(OneRequest(), ops, Settle(1, "a", None, None, LATE));
    FilterOne(SECOND, KeepsOthers("a", 1));
  }

  /**
    The unheld rows are needed in the bound: a request whose hold was swept as stale makes room for
    another admission and still settles in its window.
  */
  lemma StaleSettlementExceedsLimit()
    ensures KeysPartition(OneRequest()) && OneRequest()(1).window == OnlyWindow() && OneRequest()(1).requests == Some(1)
    ensures exists ops :: RequestsUsed(Run(OneRequest(), ops), 1, ONE_WINDOW) == 2
  {
    OneWindowPartitions();
    var e1 := [] + [Admit(1, 1, 0, "a")];
    AdmitFirst();
    AdmitSecond(e1);
    var e2 := e1 + [Admit(1, 1, LATE, "b")];
    SettleFirst(e2);
    SettledBesideHold(ROW, SECOND);
    assert RequestsUsed(Run(OneRequest(), e2 + [Settle(1, "a", None, None, LATE)]), 1, ONE_WINDOW) == 2;
  }

  lemma SettledBesideHold(row: UsageRow, h: Hold)
    requires row.key == h.key == 1 && In(ONE_WINDOW, row.at) && row.requests == 1 && h.requests == 1 && h.period == ONE_WINDOW
    ensures RequestsUsed(Ledger([] + [row], [h]), 1, ONE_WINDOW) == 2
  {
    SumSnoc([], row, RowRequests(1, ONE_WINDOW));
    SumSnoc([], h, HoldRequests(1, ONE_WINDOW));
    assert [] + [h] == [h];
  }

  /** The sweep only lowers what is used, so a window that is clear stays clear. */
  lemma SweepKeepsClear(l: Ledger, key: int, q: Quota, now: int)
    requires ExplainManagedKeyQuota(l, key, q, now).blocker == Clear
    ensures ExplainManagedKeyQuota(Expire(l, key, now), key, q, now).blocker == Clear
  {
    var p := q.window(now).value;
    SumFilter(l.holds, Live(key, now), HoldRequests(key, p));
    SumFilter(l.holds, Live(key, now), HoldTokens(key, p));
  }

  // ---------- what one call undoes ----------

  /** Releasing twice is releasing once. */
  lemma ReleaseTwice(l: Ledger, id: string)
    ensures Release(Release(l, id), id) == Release(l, id)
  {
    if id != "" {
      FilterAll(Release(l, id).holds, Keeps(id));
    }
  }

  /** Releasing an admission's hold leaves exactly the swept ledger. */
  lemma ReleaseUndoesReserve(l: Ledger, key: int, q: Quota, est: int, now: int, id: string)
    requires id != "" && Reserve(l, key, q, est, now, id).1 == Clear
    ensures Release(Reserve(l, key, q, est, now, id).0, id) == Expire(l, key, now)
  {
    var swept, t := Expire(l, key, now), Reserve(l, key, q, est, now, id).0;
    FilterSnoc(swept.holds, t.holds[|swept.holds|], Keeps(id));
    FilterAll(swept.holds, Keeps(id));
  }

  /** Releasing an id after settling with it changes nothing exactly when the id is not another key's hold. */
  lemma ReleaseAfterSettlementIsNoOpIff(l: Ledger, key: int, id: string, tokens: Option<int>, cost: Option<real>, now: int)
    requires key > 0 && id != ""
    ensures var t := Record(l, key, id, tokens, cost, now);
            Release(t, id) == t <==> forall h :: h in l.holds && h.id == id ==> h.key == key
  {
    var t := Record(l, key, id, tokens, cost, now);
    if forall h :: h in l.holds && h.id == id ==> h.key == key {
      forall i | 0 <= i < |t.holds| ensures Keeps(id)(t.holds[i]) {
        assert t.holds[i] in l.holds;
      }
      FilterAll(t.holds, Keeps(id));
    } else {
      var h :| h in l.holds && h.id == id && h.key != key;
      assert KeepsOthers(id, key)(h);
      assert h in t.holds && h !in Release(t, id).holds;
    }
  }
}
