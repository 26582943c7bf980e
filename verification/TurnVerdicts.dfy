/** A turn is answered by its first closed gate, in the fields of the key's row (`auth/downstream.go`). */
module TurnVerdicts {
  // The gates are written on the stored fields, in the order of the live chain, so that the chain is
  // compared with something other than its own checks.
  import opened Seqs
  import opened Int64
  import opened Text
  import opened AdmissionChain
  import KA = KeyAdmission
  import QL = QuotaLedger
  import QV = QuotaVerdicts

  // ---------- the gates in the fields of the row ----------

  ghost predicate PolicyOpen(row: KeyRow) {
    !row.invalidAccessPolicy && (row.accessPolicy.None? || |row.accessPolicy.value.blockReason| == 0)
  }
  ghost predicate TimeOpen(row: KeyRow, now: int) {
    match row.expiresAt
    case Some(Until(at)) => now < at
    case _ => true
  }
  ghost predicate CostOpen(row: KeyRow) { row.maxCost.None? || row.usedCost < row.maxCost.value }
  ghost predicate RequestsOpen(row: KeyRow) { row.maxRequests.None? || row.usedRequests < row.maxRequests.value }

  /** A blank address cannot be on a list; an imported policy with an allowlist does not take one. */
  ghost predicate NotBlocked(row: KeyRow, ip: string, listed: (string, seq<string>) -> bool) {
    |ip| == 0 || row.ipBlocklist == [] || !listed(ip, row.ipBlocklist)
  }
  ghost predicate AllowedIP(row: KeyRow, ip: string, listed: (string, seq<string>) -> bool) {
    row.ipAllowlist == [] || (if |ip| == 0 then row.accessPolicy.None? else listed(ip, row.ipAllowlist))
  }

  /** Room in the last 60 000 ms; only a positive limit of a stored key is one. */
  ghost predicate RequestRateOpen(row: KeyRow, win: KA.Win, now: int) {
    row.id <= 0 || row.maxRPM.None? || row.maxRPM.value <= 0 || |KA.PruneWin(win, now - 60_000).req| < row.maxRPM.value
  }
  ghost predicate TokenRateOpen(row: KeyRow, win: KA.Win, now: int, est: int) {
    row.id <= 0 || row.maxTPM.None? || row.maxTPM.value <= 0 ||
    !KA.TokenCheckDenies(Wrap64(SumBy(KA.PruneWin(win, now - 60_000).tok, KA.Tokens())), if est > 1 then est else 1, row.maxTPM.value)
  }

  ghost function StoredQuota(row: KeyRow): Option<QL.Quota> {
    match row.accessPolicy
    case Some(policy) => policy.quota
    case None => None
  }

  /** The rows and live holds of the key's window leave room under its quota. */
  ghost predicate QuotaOpen(g: Gate, w: World) {
    match StoredQuota(g.row)
    case None => true
    case Some(q) =>
      match q.window(w.now)
      case None => false
      case Some(p) =>
        QV.StandingOf(g.ledger, g.row.id, q, p, Some(w.now - 1_800_000)) == QV.Standing(false, false, false) &&
        !QV.IdTaken(g.ledger, g.row.id, w.now, w.newID)
  }

  // ---------- the verdict ----------

  ghost predicate Denies(r: Result, status: int, reason: Reason, id: string) { r == Result(false, status, Some(reason), id) }

  /** The gates that hold nothing back yet, in order. */
  ghost predicate StaticallyAnswered(row: KeyRow, now: int, r: Result) {
    if !PolicyOpen(row) then Denies(r, 403, PolicyBlocked, "")
    else if !row.enabled then Denies(r, 403, Disabled, "")
    else if row.user == UserDisabled then Denies(r, 403, User(UserDisabled), "")
    else if row.user == UserUnavailable then Denies(r, 503, User(UserUnavailable), "")
    else if !TimeOpen(row, now) then Denies(r, 403, Expired, "")
    else if !CostOpen(row) then Denies(r, 429, OverCost, "")
    else !RequestsOpen(row) && Denies(r, 429, OverRequests, "")
  }

  ghost predicate StaticallyOpen(row: KeyRow, now: int) {
    PolicyOpen(row) && row.enabled && row.user == UserOK && TimeOpen(row, now) && CostOpen(row) && RequestsOpen(row)
  }

  lemma StaticVerdict(row: KeyRow, now: int)
    ensures StaticDenial(row, now).None? <==> StaticallyOpen(row, now)
    ensures StaticDenial(row, now).Some? ==> StaticallyAnswered(row, now, StaticDenial(row, now).value)
  {}

  lemma AddressVerdict(row: KeyRow, clientIP: string, ip: string, listed: (string, seq<string>) -> bool)
    requires ip == Trim(clientIP)
    ensures CheckDownstreamKeyIP(row, clientIP, listed) ==
            if !NotBlocked(row, ip, listed) then Some(IPBlocked) else if !AllowedIP(row, ip, listed) then Some(IPNotAllowed) else None
  {}

  /** Why the quota is closed: its window, its history, its rows, its limits, or a reservation id in use. */
  ghost predicate QuotaAnswered(g: Gate, w: World, b: QL.Blocker, status: int) {
    match StoredQuota(g.row)
    case None => false
    case Some(q) =>
      match q.window(w.now)
      case None => b == QL.AccessPolicy && status == 403
      case Some(p) =>
        var s := QV.StandingOf(g.ledger, g.row.id, q, p, Some(w.now - 1_800_000));
        if s.missing then b == QL.HistoryMissing && status == 403
        else if s.unknown then b == QL.UsageUnknown && status == 403
        else if s.over then b == QL.OverQuota && status == 429
        else b == QL.Unavailable && status == 503
  }

  lemma QuotaVerdict(g: Gate, w: World, est: int)
    ensures var b := QuotaStep(g.row, g.ledger, w, est).1;
            if QuotaOpen(g, w) then b.Clear? else !b.Clear? && QuotaAnswered(g, w, b, QuotaStatus(b))
  {
    if StoredQuota(g.row).Some? {
      QV.ReservationVerdict(g.ledger, g.row.id, StoredQuota(g.row).value, if est > 1 then est else 1, w.now, w.newID);
    }
  }

  /** The gates after the reservation, each denial naming it. */
  ghost predicate LateAnswered(g: Gate, w: World, ip: string, est: int, id: string, r: Result) {
    if !NotBlocked(g.row, ip, w.listed) then Denies(r, 403, IPBlocked, id)
    else if !AllowedIP(g.row, ip, w.listed) then Denies(r, 403, IPNotAllowed, id)
    else if !RequestRateOpen(g.row, g.win, w.now) then Denies(r, 429, OverRPM, id)
    else if !TokenRateOpen(g.row, g.win, w.now, est) then Denies(r, 429, OverTPM, id)
    else !w.counts && Denies(r, 429, OverRequests, id)
  }

  lemma RateVerdict(row: KeyRow, win: KA.Win, now: int, est: int)
    ensures var d := RateStep(row, win, now, RateTokens(row, est)).1;
            && (d.allowed <==> RequestRateOpen(row, win, now) && TokenRateOpen(row, win, now, est))
            && (!d.allowed ==> RateReason(d.reason) == if RequestRateOpen(row, win, now) then OverTPM else OverRPM)
  {}

  lemma LateVerdict(g: Gate, w: World, clientIP: string, ip: string, est: int, id: string)
    requires ip == Trim(clientIP)
    ensures var r := AfterReservation(g, id, CheckDownstreamKeyIP(g.row, clientIP, w.listed), w.now, est, w.counts).1;
            if NotBlocked(g.row, ip, w.listed) && AllowedIP(g.row, ip, w.listed) &&
               RequestRateOpen(g.row, g.win, w.now) && TokenRateOpen(g.row, g.win, w.now, est) && w.counts
            then r == Result(true, 0, None, id)
            else LateAnswered(g, w, ip, est, id, r)
  {
    AddressVerdict(g.row, clientIP, ip, w.listed);
    RateVerdict(g.row, g.win, w.now, est);
  }

  ghost predicate LateOpen(g: Gate, w: World, ip: string, est: int) {
    && NotBlocked(g.row, ip, w.listed) && AllowedIP(g.row, ip, w.listed)
    && RequestRateOpen(g.row, g.win, w.now) && TokenRateOpen(g.row, g.win, w.now, est) && w.counts
  }

  lemma VerdictAfterStaticGates(g: Gate, w: World, clientIP: string, ip: string, est: int)
    requires ip == Trim(clientIP)
    ensures var r := AfterStaticGates(g, w, CheckDownstreamKeyIP(g.row, clientIP, w.listed), est).1;
            var id := if StoredQuota(g.row).Some? then w.newID else "";
            if !QuotaOpen(g, w) then
              exists b :: QuotaAnswered(g, w, b, r.status) && Denies(r, r.status, QuotaBlocked(b), "")
            else if LateOpen(g, w, ip, est) then r == Result(true, 0, None, id)
            else LateAnswered(g, w, ip, est, id, r)
  {
    var (ledger, b) := QuotaStep(g.row, g.ledger, w, est);
    QuotaVerdict(g, w, est);
    if b.Clear? {
      LateVerdict(g.(ledger := ledger), w, clientIP, ip, est, if QuotaOf(g.row).Some? then w.newID else "");
    } else {
      assert QuotaAnswered(g, w, b, QuotaStatus(b));
    }
  }

  /**
    A turn is admitted if and only if every gate is open, and otherwise answered by the first closed
    one: with its status and reason, and with the id to release exactly when the quota was passed.
  */
  lemma TurnVerdict(g: Gate, w: World, clientIP: string, est: int)
    ensures var r, ip := Turn(g, w, clientIP, est).1, Trim(clientIP);
            var id := if StoredQuota(g.row).Some? then w.newID else "";
            if !StaticallyOpen(g.row, w.now) then StaticallyAnswered(g.row, w.now, r)
            else if !QuotaOpen(g, w) then
              exists b :: QuotaAnswered(g, w, b, r.status) && Denies(r, r.status, QuotaBlocked(b), "")
            else if LateOpen(g, w, ip, est) then r == Result(true, 0, None, id)
            else LateAnswered(g, w, ip, est, id, r)
  {
    StaticVerdict(g.row, w.now);
    if StaticallyOpen(g.row, w.now) {
      VerdictAfterStaticGates(g, w, clientIP, Trim(clientIP), est);
    }
  }

  // ---------- what an admitted turn leaves behind ----------

  lemma RateStepIsRecorded(row: KeyRow, win: KA.Win, now: int, est: int)
    requires RateStep(row, win, now, RateTokens(row, est)).1.allowed
    ensures RecordedIn(row, win, RateStep(row, win, now, RateTokens(row, est)).0, now, est)
  {
    KA.AdmissionIsRecorded(win, KA.Effective(row.maxRPM), KA.Effective(row.maxTPM), now, RateTokens(row, est));
  }

  /** A limited key's window has the request at its end, and at least one token under a token limit. */
  ghost predicate RecordedIn(row: KeyRow, before: KA.Win, after: KA.Win, now: int, est: int) {
    var limitedTokens := row.maxTPM.Some? && row.maxTPM.value > 0;
    if row.id <= 0 || !(limitedTokens || (row.maxRPM.Some? && row.maxRPM.value > 0)) then after == before
    else
      var p := KA.PruneWin(before, now - 60_000);
      && after.req == p.req + [now]
      && after.tok == p.tok + (if limitedTokens then [KA.TokenEvent(now, if est > 1 then est else 1)] else [])
  }

  /** The one hold of a key with a quota: the current window, one request, and at least one token under a token limit. */
  ghost predicate HeldIn(row: KeyRow, ledger: QL.Ledger, w: World, est: int) {
    match StoredQuota(row)
    case None => true
    case Some(q) =>
      var tokens := if q.totalTokens.None? then None else if est > 1 then Some(est) else Some(1);
      && ledger.holds != [] && q.window(w.now).Some?
      && ledger.holds[|ledger.holds| - 1] == QL.Hold(w.newID, row.id, q.window(w.now).value, 1, tokens, w.now)
  }

  lemma ReservationIsHeld(g: Gate, w: World, est: int)
    requires QuotaStep(g.row, g.ledger, w, est).1.Clear?
    ensures HeldIn(g.row, QuotaStep(g.row, g.ledger, w, est).0, w, est)
  {
    if StoredQuota(g.row).Some? {
      QL.ReserveAddsOneHold(g.ledger, g.row.id, StoredQuota(g.row).value, AtLeastOne(est), w.now, w.newID);
    }
  }

  lemma LateAdmissionIsRecorded(g: Gate, id: string, ip: Option<Reason>, now: int, est: int, counts: bool)
    requires AfterReservation(g, id, ip, now, est, counts).1.ok
    ensures var after := AfterReservation(g, id, ip, now, est, counts).0;
            && after.row == g.row.(usedRequests := g.row.usedRequests + 1) && after.ledger == g.ledger
            && RecordedIn(g.row, g.win, after.win, now, est)
  {
    RateStepIsRecorded(g.row, g.win, now, est);
  }

  lemma RecordedAfterStaticGates(g: Gate, w: World, ip: Option<Reason>, est: int)
    requires AfterStaticGates(g, w, ip, est).1.ok
    ensures var after := AfterStaticGates(g, w, ip, est).0;
            && after.row == g.row.(usedRequests := g.row.usedRequests + 1)
            && RecordedIn(g.row, g.win, after.win, w.now, est)
            && HeldIn(g.row, after.ledger, w, est)
  {
    ReservationIsHeld(g, w, est);
    var ledger := QuotaStep(g.row, g.ledger, w, est).0;
    LateAdmissionIsRecorded(g.(ledger := ledger), if QuotaOf(g.row).Some? then w.newID else "", ip, w.now, est, w.counts);
  }

  /** An admitted turn has counted its request, held its slot and left its entry in the rate window. */
  lemma AdmittedTurnIsRecorded(g: Gate, w: World, clientIP: string, est: int)
    requires Turn(g, w, clientIP, est).1.ok
    ensures var after := Turn(g, w, clientIP, est).0;
            && after.row == g.row.(usedRequests := g.row.usedRequests + 1)
            && RecordedIn(g.row, g.win, after.win, w.now, est)
            && HeldIn(g.row, after.ledger, w, est)
  {
    RecordedAfterStaticGates(g, w, CheckDownstreamKeyIP(g.row, clientIP, w.listed), est);
  }
}
