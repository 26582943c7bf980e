/** The explanation lists exactly the closed dimensions of a key, in the fields of its row (`auth/downstream_context.go`). */
module ExplainerVerdicts {
  import opened Seqs
  import opened Int64
  import opened Text
  import opened AdmissionChain
  import opened AdmissionExplainer
  import opened TurnVerdicts
  import KA = KeyAdmission
  import QL = QuotaLedger

  // ---------- the listed order ----------

  /** The place of a blocker among the dimensions of the explanation. */
  function Rank(r: Reason): nat {
    match r
    case User(_) => 1
    case PolicyBlocked => 2
    case Disabled => 3
    case Expired => 4
    case OverCost => 5
    case OverRequests => 6
    case QuotaBlocked(_) => 7
    case IPBlocked => 8
    case IPNotAllowed => 8
    case OverRPM => 9
    case OverTPM => 10
    case _ => 0
  }

  /** In the listed order, no dimension twice, all before place `n`. */
  ghost predicate Ranked(s: seq<Reason>, n: nat) {
    && (forall i :: 0 <= i < |s| ==> Rank(s[i]) < n)
    && (forall i, j :: 0 <= i < j < |s| ==> Rank(s[i]) < Rank(s[j]))
  }

  lemma AddStaysRanked(s: seq<Reason>, c: bool, r: Reason, n: nat, m: nat)
    requires Ranked(s, n) && n <= Rank(r) < m
    ensures Ranked(Add(s, c, r), m)
  {}

  lemma Wider(s: seq<Reason>, n: nat, m: nat)
    requires Ranked(s, n) && n <= m
    ensures Ranked(s, m)
  {}

  lemma Lists(s: seq<Reason>, c: bool, r: Reason)
    ensures forall x :: x in Add(s, c, r) <==> x in s || (c && x == r)
  {}

  // ---------- the state of the key ----------

  /** `x` is a closed dimension of the key's access, or of its lifetime and budgets. */
  ghost predicate AccessCloses(row: KeyRow, x: Reason) {
    (x == User(row.user) && row.user != UserOK) || (x == PolicyBlocked && !PolicyOpen(row)) || (x == Disabled && !row.enabled)
  }
  ghost predicate BudgetCloses(row: KeyRow, now: int, x: Reason) {
    (x == Expired && !TimeOpen(row, now)) || (x == OverCost && !CostOpen(row)) || (x == OverRequests && !RequestsOpen(row))
  }
  ghost predicate StateCloses(row: KeyRow, now: int, x: Reason) { AccessCloses(row, x) || BudgetCloses(row, now, x) }

  function AddThree(s: seq<Reason>, a: bool, x: Reason, b: bool, y: Reason, c: bool, z: Reason): seq<Reason> {
    Add(Add(Add(s, a, x), b, y), c, z)
  }

  lemma ThreeStayRanked(s: seq<Reason>, a: bool, x: Reason, b: bool, y: Reason, c: bool, z: Reason, n: nat)
    requires Ranked(s, n) && n <= Rank(x) < Rank(y) < Rank(z)
    ensures Ranked(AddThree(s, a, x, b, y, c, z), Rank(z) + 1)
  {
    AddStaysRanked(s, a, x, n, Rank(y));
    AddStaysRanked(Add(s, a, x), b, y, Rank(y), Rank(z));
    AddStaysRanked(Add(Add(s, a, x), b, y), c, z, Rank(z), Rank(z) + 1);
  }

  lemma ListsThree(s: seq<Reason>, a: bool, x: Reason, b: bool, y: Reason, c: bool, z: Reason, r: Reason)
    ensures r in AddThree(s, a, x, b, y, c, z) <==> r in s || (a && r == x) || (b && r == y) || (c && r == z)
  {
    Lists(s, a, x);
    Lists(Add(s, a, x), b, y);
    Lists(Add(Add(s, a, x), b, y), c, z);
  }

  function AccessBlockers(row: KeyRow): seq<Reason> {
    AddThree([], row.user != UserOK, User(row.user), HasPolicyBlock(row), PolicyBlocked, !row.enabled, Disabled)
  }
  function AddBudgets(s: seq<Reason>, row: KeyRow, now: int): seq<Reason> {
    AddThree(s, IsExpired(row, now), Expired, CostSpent(row), OverCost, RequestsSpent(row), OverRequests)
  }

  lemma AccessIsListed(row: KeyRow)
    ensures forall x :: x in AccessBlockers(row) <==> AccessCloses(row, x)
  {
    forall x ensures x in AccessBlockers(row) <==> AccessCloses(row, x) {
      ListsThree([], row.user != UserOK, User(row.user), HasPolicyBlock(row), PolicyBlocked, !row.enabled, Disabled, x);
    }
  }

  lemma BudgetsAreListed(s: seq<Reason>, row: KeyRow, now: int)
    ensures forall x :: x in AddBudgets(s, row, now) <==> x in s || BudgetCloses(row, now, x)
  {
    forall x ensures x in AddBudgets(s, row, now) <==> x in s || BudgetCloses(row, now, x) {
      ListsThree(s, IsExpired(row, now), Expired, CostSpent(row), OverCost, RequestsSpent(row), OverRequests, x);
    }
  }

  lemma StateIsBoth(row: KeyRow, now: int)
    ensures StateBlockers(row, now) == AddBudgets(AccessBlockers(row), row, now)
  {}

  lemma AccessIsRanked(row: KeyRow)
    ensures Ranked(AccessBlockers(row), 4)
  {
    ThreeStayRanked([], row.user != UserOK, User(row.user), HasPolicyBlock(row), PolicyBlocked, !row.enabled, Disabled, 1);
  }

  lemma BudgetsAreRanked(s: seq<Reason>, row: KeyRow, now: int)
    requires Ranked(s, 4)
    ensures Ranked(AddBudgets(s, row, now), 7)
  {
    ThreeStayRanked(s, IsExpired(row, now), Expired, CostSpent(row), OverCost, RequestsSpent(row), OverRequests, 4);
  }

  lemma StateIsRanked(row: KeyRow, now: int)
    ensures Ranked(StateBlockers(row, now), 7)
  {
    AccessIsRanked(row);
    BudgetsAreRanked(AccessBlockers(row), row, now);
    StateIsBoth(row, now);
  }

  lemma StateIsListed(row: KeyRow, now: int)
    ensures forall x :: x in StateBlockers(row, now) <==> StateCloses(row, now, x)
  {
    AccessIsListed(row);
    BudgetsAreListed(AccessBlockers(row), row, now);
    StateIsBoth(row, now);
  }

  // ---------- quota, address and rate ----------

  /** The quota as the ledger explains it; its verdicts are those of `QuotaVerdicts.ExplanationVerdict`. */
  ghost predicate QuotaCloses(row: KeyRow, ledger: QL.Ledger, now: int, x: Reason) {
    match StoredQuota(row)
    case None => false
    case Some(q) =>
      var b := QL.ExplainManagedKeyQuota(ledger, row.id, q, now).blocker;
      b != QL.Clear && x == QuotaBlocked(b)
  }

  ghost predicate AddressCloses(row: KeyRow, ip: string, listed: (string, seq<string>) -> bool, x: Reason) {
    && |ip| > 0 && (x == IPBlocked || x == IPNotAllowed)
    && (if NotBlocked(row, ip, listed) then x == IPNotAllowed && !AllowedIP(row, ip, listed) else x == IPBlocked)
  }

  ghost predicate RateCloses(row: KeyRow, u: RateUsage, x: Reason) {
    || (x == OverRPM && row.maxRPM.Some? && row.maxRPM.value <= u.usedRPM)
    || (x == OverTPM && row.maxTPM.Some? && row.maxTPM.value <= u.usedTPM)
  }

  lemma QuotaAndAddressAreListed(s: seq<Reason>, row: KeyRow, ledger: QL.Ledger, now: int, ip: Option<Reason>)
    requires Ranked(s, 7) && (ip.Some? ==> Rank(ip.value) == 8)
    ensures var t := AddQuotaAndIP(s, QuotaBlocker(row, ledger, now), ip);
            && (forall x :: x in t <==> x in s || QuotaCloses(row, ledger, now, x) || Some(x) == ip)
            && Ranked(t, 9)
  {
    var b := QuotaBlocker(row, ledger, now);
    var withQuota := Add(s, !b.Clear?, QuotaBlocked(b));
    Lists(s, !b.Clear?, QuotaBlocked(b));
    AddStaysRanked(s, !b.Clear?, QuotaBlocked(b), 7, 8);
    if ip.Some? {
      Lists(withQuota, true, ip.value);
      AddStaysRanked(withQuota, true, ip.value, 8, 9);
    } else {
      Wider(withQuota, 8, 9);
    }
  }

  lemma RateIsListed(s: seq<Reason>, row: KeyRow, u: RateUsage)
    requires Ranked(s, 9)
    ensures forall x :: x in AddRate(s, row, u) <==> x in s || RateCloses(row, u, x)
    ensures Ranked(AddRate(s, row, u), 11)
  {
    var rpm := Add(s, AtOrOver(row.maxRPM, u.usedRPM), OverRPM);
    Lists(s, AtOrOver(row.maxRPM, u.usedRPM), OverRPM);
    Lists(rpm, AtOrOver(row.maxTPM, u.usedTPM), OverTPM);
    AddStaysRanked(s, AtOrOver(row.maxRPM, u.usedRPM), OverRPM, 9, 10);
    AddStaysRanked(rpm, AtOrOver(row.maxTPM, u.usedTPM), OverTPM, 10, 11);
  }

  lemma AddressIsListed(row: KeyRow, w: World, clientIP: string, ip: string)
    requires ip == Trim(clientIP)
    ensures var denied := IPDenial(row, w, clientIP);
            && (denied.Some? ==> Rank(denied.value) == 8)
            && forall x :: Some(x) == denied <==> AddressCloses(row, ip, w.listed, x)
  {
    AddressVerdict(row, clientIP, ip, w.listed);
  }

  /** What a key has used of the last 60 000 ms; an unstored key has used nothing. */
  lemma UsageIsTheWindow(id: int, win: KA.Win, now: int)
    ensures var u, p := Usage(id, win, now), KA.PruneWin(win, now - 60_000);
            if id <= 0 then u == RateUsage(0, 0) else u.usedRPM == |p.req| && u.usedTPM == Wrap64(SumBy(p.tok, KA.Tokens()))
  {}

  /**
    The listed blockers are exactly the closed dimensions of the key, each once and in the order of
    the explanation, and the key is allowed exactly when there is none.
  */
  lemma BlockersAreTheClosedDimensions(g: Gate, w: World, clientIP: string)
    ensures var e, ip, u := Explain(g, w, clientIP), Trim(clientIP), Usage(g.row.id, g.win, w.now);
            && (e.allow <==> e.blockers == [])
            && Ranked(e.blockers, 11)
            && forall x :: x in e.blockers <==>
                 || StateCloses(g.row, w.now, x)
                 || QuotaCloses(g.row, g.ledger, w.now, x)
                 || AddressCloses(g.row, ip, w.listed, x)
                 || RateCloses(g.row, u, x)
  {
    var ip := IPDenial(g.row, w, clientIP);
    StateIsListed(g.row, w.now);
    StateIsRanked(g.row, w.now);
    AddressIsListed(g.row, w, clientIP, Trim(clientIP));
    QuotaAndAddressAreListed(StateBlockers(g.row, w.now), g.row, g.ledger, w.now, ip);
    RateIsListed(BlockersBeforeRate(g.row, g.ledger, w, clientIP), g.row, Usage(g.row.id, g.win, w.now));
  }

  /** The notes: always read-only first, then what the answer could not look at. */
  lemma NotesAreTheGaps(g: Gate, w: World, clientIP: string)
    ensures var e := Explain(g, w, clientIP);
            && |e.notes| >= 1 && e.notes[0] == ReadOnly
            && (QuotaHistoryIncomplete in e.notes <==> e.quota.Some? && e.quota.value.historyMissing)
            && (IPRulesUnchecked in e.notes <==> Trim(clientIP) == "" && (g.row.ipAllowlist != [] || g.row.ipBlocklist != []))
            && (RateWindowProcessLocal in e.notes <==> g.row.maxRPM.Some? || g.row.maxTPM.Some?)
            && (e.rate.Some? <==> g.row.maxRPM.Some? || g.row.maxTPM.Some?)
            && (e.rate.Some? ==> e.rate.value == Usage(g.row.id, g.win, w.now))
            && (e.quota.Some? <==> StoredQuota(g.row).Some?)
            && (e.ip.Unchecked? <==> Trim(clientIP) == "")
  {}
}
