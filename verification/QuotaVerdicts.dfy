/** The quota verdicts in stored fields (`auth/downstream_quota.go`). */
module QuotaVerdicts {
  // The sums below are written on the fields alone, so that the verdicts of the ledger are compared
  // with something other than the ledger's own sums; at the end the token limit is lifted to runs.
  import opened Seqs
  import opened QuotaLedger

  // ---------- the sums, row by row and hold by hold ----------

  ghost predicate RowIn(u: UsageRow, key: int, start: int, end: int) { u.key == key && start <= u.at && u.at < end }

  /** A hold counts where it overlaps the window; with `since`, only when it is not stale. */
  ghost predicate HoldIn(h: Hold, key: int, start: int, end: int, since: Option<int>) {
    h.key == key && start < h.period.end && h.period.start < end && (since.None? || since.value <= h.created)
  }

  ghost function SettledRequests(usage: seq<UsageRow>, key: int, start: int, end: int): int {
    if usage == [] then 0
    else
      var u := usage[|usage| - 1];
      SettledRequests(usage[..|usage| - 1], key, start, end) + (if RowIn(u, key, start, end) then u.requests else 0)
  }

  ghost function SettledTokens(usage: seq<UsageRow>, key: int, start: int, end: int): int {
    if usage == [] then 0
    else
      var u := usage[|usage| - 1];
      SettledTokens(usage[..|usage| - 1], key, start, end) +
      (if RowIn(u, key, start, end) && u.tokens.Some? then u.tokens.value else 0)
  }

  ghost function SettledCost(usage: seq<UsageRow>, key: int, start: int, end: int): real {
    if usage == [] then 0.0
    else
      var u := usage[|usage| - 1];
      SettledCost(usage[..|usage| - 1], key, start, end) +
      (if RowIn(u, key, start, end) && u.cost.Some? then u.cost.value else 0.0)
  }

  ghost function HeldRequests(holds: seq<Hold>, key: int, start: int, end: int, since: Option<int>): int {
    if holds == [] then 0
    else
      var h := holds[|holds| - 1];
      HeldRequests(holds[..|holds| - 1], key, start, end, since) +
      (if HoldIn(h, key, start, end, since) && h.requests > 0 then h.requests else 0)
  }

  ghost function HeldTokens(holds: seq<Hold>, key: int, start: int, end: int, since: Option<int>): int {
    if holds == [] then 0
    else
      var h := holds[|holds| - 1];
      HeldTokens(holds[..|holds| - 1], key, start, end, since) +
      (if HoldIn(h, key, start, end, since) && h.tokens.Some? && h.tokens.value > 0 then h.tokens.value else 0)
  }

  /** How many rows of the window lack their tokens, or their cost. */
  ghost function RowsLackingTokens(usage: seq<UsageRow>, key: int, start: int, end: int): nat {
    if usage == [] then 0
    else
      var u := usage[|usage| - 1];
      RowsLackingTokens(usage[..|usage| - 1], key, start, end) + (if RowIn(u, key, start, end) && u.tokens.None? then 1 else 0)
  }

  ghost function RowsLackingCost(usage: seq<UsageRow>, key: int, start: int, end: int): nat {
    if usage == [] then 0
    else
      var u := usage[|usage| - 1];
      RowsLackingCost(usage[..|usage| - 1], key, start, end) + (if RowIn(u, key, start, end) && u.cost.None? then 1 else 0)
  }

  lemma {:induction false} RowsAreSettled(usage: seq<UsageRow>, key: int, p: Period)
    ensures SumBy(usage, RowRequests(key, p)) == SettledRequests(usage, key, p.start, p.end)
    ensures SumBy(usage, RowTokens(key, p)) == SettledTokens(usage, key, p.start, p.end)
    ensures CostIn(usage, key, p) == SettledCost(usage, key, p.start, p.end)
  {
    if usage != [] {
      RowsAreSettled(usage[..|usage| - 1], key, p);
    }
  }

  lemma {:induction false} HoldsAreHeld(holds: seq<Hold>, key: int, p: Period)
    ensures SumBy(holds, HoldRequests(key, p)) == HeldRequests(holds, key, p.start, p.end, None)
    ensures SumBy(holds, HoldTokens(key, p)) == HeldTokens(holds, key, p.start, p.end, None)
  {
    if holds != [] {
      HoldsAreHeld(holds[..|holds| - 1], key, p);
    }
  }

  /** Sweeping and then summing is summing what is not stale. */
  lemma {:induction false} SweptHoldsAreLive(holds: seq<Hold>, key: int, p: Period, now: int)
    ensures var live, since := Filter(holds, Live(key, now)), Some(now - 1_800_000);
            && SumBy(live, HoldRequests(key, p)) == HeldRequests(holds, key, p.start, p.end, since)
            && SumBy(live, HoldTokens(key, p)) == HeldTokens(holds, key, p.start, p.end, since)
  {
    if holds != [] {
      var init, last := holds[..|holds| - 1], holds[|holds| - 1];
      SweptHoldsAreLive(init, key, p, now);
      if Live(key, now)(last) {
        SumSnoc(Filter(init, Live(key, now)), last, HoldRequests(key, p));
        SumSnoc(Filter(init, Live(key, now)), last, HoldTokens(key, p));
      }
    }
  }

  /** Some row of the window lacks its tokens, or its cost. */
  ghost predicate TokensUnknown(usage: seq<UsageRow>, key: int, p: Period) {
    exists u :: u in usage && RowIn(u, key, p.start, p.end) && u.tokens.None?
  }
  ghost predicate CostUnknown(usage: seq<UsageRow>, key: int, p: Period) {
    exists u :: u in usage && RowIn(u, key, p.start, p.end) && u.cost.None?
  }

  lemma {:induction false} UnknownRowsShow(usage: seq<UsageRow>, key: int, p: Period)
    ensures SumBy(usage, RowsWithoutTokens(key, p)) == RowsLackingTokens(usage, key, p.start, p.end)
    ensures SumBy(usage, RowsWithoutCost(key, p)) == RowsLackingCost(usage, key, p.start, p.end)
    ensures SumBy(usage, RowsWithoutTokens(key, p)) > 0 <==> TokensUnknown(usage, key, p)
    ensures SumBy(usage, RowsWithoutCost(key, p)) > 0 <==> CostUnknown(usage, key, p)
  {
    if usage != [] {
      var init, u := usage[..|usage| - 1], usage[|usage| - 1];
      UnknownRowsShow(init, key, p);
      assert usage == init + [u];
      assert forall v :: v in usage <==> v in init || v == u;
    }
  }

  // ---------- the verdict of an admission ----------

  /** What the quota of a key says of its rows and live holds; `missing` before `unknown` before `over`. */
  datatype Standing = Standing(missing: bool, unknown: bool, over: bool)

  ghost function StandingOf(l: Ledger, key: int, q: Quota, p: Period, since: Option<int>): Standing {
    Standing(
      q.historyMissingBefore.Some? && p.start < q.historyMissingBefore.value,
      (q.totalTokens.Some? && TokensUnknown(l.usage, key, p)) || (q.cost.Some? && CostUnknown(l.usage, key, p)),
      (q.requests.Some? && SettledRequests(l.usage, key, p.start, p.end) + HeldRequests(l.holds, key, p.start, p.end, since) >= q.requests.value) ||
      (q.totalTokens.Some? && SettledTokens(l.usage, key, p.start, p.end) + HeldTokens(l.holds, key, p.start, p.end, since) >= q.totalTokens.value) ||
      (q.cost.Some? && SettledCost(l.usage, key, p.start, p.end) >= q.cost.value))
  }

  ghost predicate StandsFor(s: Standing, taken: bool, verdict: Blocker) {
    && (verdict == HistoryMissing <==> s.missing)
    && (verdict == UsageUnknown <==> !s.missing && s.unknown)
    && (verdict == OverQuota <==> !s.missing && !s.unknown && s.over)
    && (verdict == Unavailable <==> !s.missing && !s.unknown && !s.over && taken)
    && (verdict == Clear <==> !s.missing && !s.unknown && !s.over && !taken)
  }

  /** A live hold of the table, of whatever key, already has this id. */
  ghost predicate IdTaken(l: Ledger, key: int, now: int, id: string) {
    exists h :: h in l.holds && h.id == id && (h.key != key || now - 1_800_000 <= h.created)
  }

  lemma TakenIsIdTaken(l: Ledger, key: int, now: int, id: string)
    ensures Taken(Expire(l, key, now), id) <==> IdTaken(l, key, now, id)
  {
    var swept := Expire(l, key, now);
    if IdTaken(l, key, now, id) {
      var h :| h in l.holds && h.id == id && (h.key != key || now - 1_800_000 <= h.created);
      assert Live(key, now)(h);
      assert h in swept.holds;
    }
  }

  /** Each verdict of an admission is given exactly when rows and live holds of the window call for it. */
  lemma ReservationVerdict(l: Ledger, key: int, q: Quota, est: int, now: int, id: string)
    ensures var verdict := Reserve(l, key, q, est, now, id).1;
            match q.window(now)
            case None => verdict == AccessPolicy
            case Some(p) => StandsFor(StandingOf(l, key, q, p, Some(now - 1_800_000)), IdTaken(l, key, now, id), verdict)
  {
    if q.window(now).Some? {
      var p := q.window(now).value;
      RowsAreSettled(l.usage, key, p);
      SweptHoldsAreLive(l.holds, key, p, now);
      UnknownRowsShow(l.usage, key, p);
      TakenIsIdTaken(l, key, now, id);
    }
  }

  /** The explanation answers the same question of all holds, stale ones included, with the numbers behind it. */
  lemma ExplanationVerdict(l: Ledger, key: int, q: Quota, now: int)
    ensures var e := ExplainManagedKeyQuota(l, key, q, now);
            && e.window == q.window(now)
            && match q.window(now)
               case None => e.blocker == AccessPolicy
               case Some(p) =>
                 var s := StandingOf(l, key, q, p, None);
                 && StandsFor(s, false, e.blocker) && e.historyMissing == s.missing
                 && (s.missing || ExplainsNumbers(l, key, p, e))
  {
    if q.window(now).Some? {
      var p := q.window(now).value;
      RowsAreSettled(l.usage, key, p);
      HoldsAreHeld(l.holds, key, p);
      UnknownRowsShow(l.usage, key, p);
    }
  }

  ghost predicate ExplainsNumbers(l: Ledger, key: int, p: Period, e: Explanation) {
    && e.requestsUsed == SettledRequests(l.usage, key, p.start, p.end) + HeldRequests(l.holds, key, p.start, p.end, None)
    && e.tokensUsed == SettledTokens(l.usage, key, p.start, p.end) + HeldTokens(l.holds, key, p.start, p.end, None)
    && e.costUsed == SettledCost(l.usage, key, p.start, p.end)
    && e.unknownTokens == RowsLackingTokens(l.usage, key, p.start, p.end)
    && e.unknownCost == RowsLackingCost(l.usage, key, p.start, p.end)
  }

  /** A granted admission leaves the rows alone, drops the key's stale holds and adds one hold that it names. */
  lemma GrantedReservation(l: Ledger, key: int, q: Quota, est: int, now: int, id: string)
    requires Reserve(l, key, q, est, now, id).1 == Clear
    ensures q.window(now).Some?
    ensures var t := Reserve(l, key, q, est, now, id).0;
            var tokens := if q.totalTokens.None? then None else if est > 1 then Some(est) else Some(1);
            var n := |t.holds| - 1;
            && t.usage == l.usage && n >= 0 && t.holds[n] == Hold(id, key, q.window(now).value, 1, tokens, now)
            && forall h :: h in t.holds[..n] <==> h in l.holds && (h.key != key || now - 1_800_000 <= h.created)
  {
    ReserveAddsOneHold(l, key, q, est, now, id);
    var t := Reserve(l, key, q, est, now, id).0;
    assert t.holds[..|t.holds| - 1] == Filter(l.holds, Live(key, now));
  }

  /** A settlement adds one row with what is known of it and takes the key's own hold away; a release takes every hold with the id. */
  lemma SettlementAndRelease(l: Ledger, key: int, id: string, tokens: Option<int>, cost: Option<real>, now: int)
    ensures var t := Record(l, key, id, tokens, cost, now);
            if key <= 0 then t == l
            else
              && t.usage == l.usage + [UsageRow(key, now, 1, if tokens.Some? && tokens.value >= 0 then tokens else None,
                                                if cost.Some? && cost.value >= 0.0 then cost else None)]
              && forall h :: h in t.holds <==> h in l.holds && (id == "" || h.id != id || h.key != key)
    ensures var t := Release(l, id);
            t.usage == l.usage && forall h :: h in t.holds <==> h in l.holds && (id == "" || h.id != id)
  {}

  // ---------- tokens over runs ----------

  /** The largest estimate of the run, at least 1. */
  function LargestEstimate(ops: seq<Op>): (r: int)
    ensures r >= 1
  {
    if ops == [] then 1
    else
      var rest, op := LargestEstimate(ops[..|ops| - 1]), ops[|ops| - 1];
      if op.Admit? && op.est > rest then op.est else rest
  }

  function Settling(id: string, key: int): Hold -> bool { (h: Hold) => h.id == id && h.key == key }

  /** The tokens of a settlement in `p` beyond those that its own hold had reserved there. */
  ghost function Overrun(l: Ledger, op: Op, key: int, p: Period): int {
    if op.Settle? && op.key == key && key > 0 then
      var spent := if In(p, op.now) && op.tokens.Some? && op.tokens.value > 0 then op.tokens.value else 0;
      var held := if op.id == "" then 0 else HeldTokens(Filter(l.holds, Settling(op.id, key)), key, p.start, p.end, None);
      if spent > held then spent - held else 0
    else 0
  }

  ghost function Overruns(policy: int -> Quota, ops: seq<Op>, key: int, p: Period): int {
    if ops == [] then 0
    else
      var init := ops[..|ops| - 1];
      Overruns(policy, init, key, p) + Overrun(Run(policy, init), ops[|ops| - 1], key, p)
  }

  lemma {:induction false} FilterParts(holds: seq<Hold>, id: string, key: int, w: Hold -> int)
    ensures SumBy(Filter(holds, KeepsOthers(id, key)), w) + SumBy(Filter(holds, Settling(id, key)), w) == SumBy(holds, w)
  {
    if holds != [] {
      var init, last := holds[..|holds| - 1], holds[|holds| - 1];
      FilterParts(init, id, key, w);
      if KeepsOthers(id, key)(last) {
        SumSnoc(Filter(init, KeepsOthers(id, key)), last, w);
      } else {
        SumSnoc(Filter(init, Settling(id, key)), last, w);
      }
    }
  }

  lemma SettlementRaisesByOverrun(policy: int -> Quota, l: Ledger, op: Op, key: int, p: Period)
    requires op.Settle?
    ensures TokensUsed(Step(policy, l, op), key, p) <= TokensUsed(l, key, p) + Overrun(l, op, key, p)
  {
    if op.key > 0 {
      var t, w := Step(policy, l, op), HoldTokens(key, p);
      SumSnoc(l.usage, t.usage[|l.usage|], RowTokens(key, p));
      if op.id != "" {
        FilterParts(l.holds, op.id, op.key, w);
        SumNonNegative(Filter(l.holds, Settling(op.id, op.key)), w);
        HoldsAreHeld(Filter(l.holds, Settling(op.id, key)), key, p);
      }
    }
  }

  lemma ClearLeavesTokenRoom(l: Ledger, key: int, q: Quota, now: int)
    requires ExplainManagedKeyQuota(l, key, q, now).blocker == Clear && q.totalTokens.Some?
    ensures q.window(now).Some? && TokensUsed(l, key, q.window(now).value) < q.totalTokens.value
  {}

  lemma NewTokensStayWithin(l: Ledger, key: int, q: Quota, now: int, h: Hold, other: int, p: Period)
    requires Partitions(q.window) && ExplainManagedKeyQuota(l, key, q, now).blocker == Clear && q.window(now).Some?
    requires h.key == key && h.period == q.window(now).value && (h.tokens.Some? ==> h.tokens.value >= 1)
    requires other == key ==> Fills(q.window, p) && p.start < p.end && q.totalTokens.Some? && h.tokens.Some?
    ensures var t := l.(holds := l.holds + [h]);
            TokensUsed(t, other, p) <= TokensUsed(l, other, p) ||
            (other == key && TokensUsed(t, other, p) < q.totalTokens.value + h.tokens.value)
  {
    SumSnoc(l.holds, h, HoldTokens(other, p));
    assert Windowed(q.window, now);
    if other == key {
      ClearLeavesTokenRoom(l, key, q, now);
      OverlapIsSamePeriod(q.window, h, p);
    }
  }

  lemma AdmissionAddsItsEstimate(policy: int -> Quota, l: Ledger, op: Op, key: int, p: Period)
    requires op.Admit? && Partitions(policy(op.key).window)
    requires Fills(policy(key).window, p) && p.start < p.end && policy(key).totalTokens.Some?
    ensures var t := Step(policy, l, op);
            TokensUsed(t, key, p) <= TokensUsed(l, key, p) ||
            TokensUsed(t, key, p) < policy(key).totalTokens.value + if op.est > 1 then op.est else 1
  {
    var q, swept := policy(op.key), Expire(l, op.key, op.now);
    ReserveAddsOneHold(l, op.key, q, op.est, op.now, op.id);
    SumFilter(l.holds, Live(op.key, op.now), HoldTokens(key, p));
    if Reserve(l, op.key, q, op.est, op.now, op.id).1 == Clear {
      var h := NewHold(op.id, op.key, q, op.est, op.now, q.window(op.now).value);
      NewTokensStayWithin(swept, op.key, q, op.now, h, key, p);
    }
  }

  /**
    After every run, the settled and held tokens of a window stay below the token limit plus one
    estimate, but for what its settlements spent beyond their own holds: output tokens and rows without a hold.
  */
  lemma {:induction false} TokensStayWithinLimitAndOverruns(policy: int -> Quota, ops: seq<Op>, key: int, p: Period)
    requires KeysPartition(policy)
    requires Fills(policy(key).window, p) && p.start < p.end
    requires policy(key).totalTokens.Some? && policy(key).totalTokens.value >= 0
    ensures var l := Run(policy, ops);
            SettledTokens(l.usage, key, p.start, p.end) + HeldTokens(l.holds, key, p.start, p.end, None)
            < policy(key).totalTokens.value + LargestEstimate(ops) + Overruns(policy, ops, key, p)
  {
    var l := Run(policy, ops);
    RowsAreSettled(l.usage, key, p);
    HoldsAreHeld(l.holds, key, p);
    UsedTokensStayWithin(policy, ops, key, p);
  }

  lemma {:induction false} UsedTokensStayWithin(policy: int -> Quota, ops: seq<Op>, key: int, p: Period)
    requires KeysPartition(policy)
    requires Fills(policy(key).window, p) && p.start < p.end
    requires policy(key).totalTokens.Some? && policy(key).totalTokens.value >= 0
    ensures Overruns(policy, ops, key, p) >= 0
    ensures TokensUsed(Run(policy, ops), key, p) <
            policy(key).totalTokens.value + LargestEstimate(ops) + Overruns(policy, ops, key, p)
  {
    if ops != [] {
      var init, op := ops[..|ops| - 1], ops[|ops| - 1];
      var l := Run(policy, init);
      UsedTokensStayWithin(policy, init, key, p);
      match op
      case Admit(_, _, _, _) =>
        assert KeyPartitions(policy, op.key);
        AdmissionAddsItsEstimate(policy, l, op, key, p);
      case Settle(_, _, _, _, _) => SettlementRaisesByOverrun(policy, l, op, key, p);
      case Drop(id) => SumFilter(l.holds, Keeps(id), HoldTokens(key, p));
    }
  }
}
