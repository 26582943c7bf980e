/** The live admission chain of one turn of a managed key (`auth/downstream.go`). */
module AdmissionChain {
  // Reload by token, static gates, quota reservation, IP rules, rate windows, request budget. `Turn` is the
  // chain on values for one key; `Gateway.ReauthorizeManagedKeyForTurn` runs it over the key table, the quota
  // tables and the rate limiter in place.
  import opened Seqs
  import opened Text
  import KA = KeyAdmission
  import QL = QuotaLedger

  /** A stored expiry that does not parse never expires the key. */
  datatype Expiry = Unreadable | Until(at: int)

  datatype AccessPolicy = AccessPolicy(blockReason: string, quota: Option<QL.Quota>)

  /** What the owner lookup answers for the key. */
  datatype UserAccess = UserOK | UserDisabled | UserUnavailable

  /** One row of the key table; the IP lists are split into entries. */
  datatype KeyRow = KeyRow(
    id: int, enabled: bool, user: UserAccess, expiresAt: Option<Expiry>,
    maxCost: Option<real>, usedCost: real,
    maxRequests: Option<int>, usedRequests: int,
    maxRPM: Option<int>, maxTPM: Option<int>,
    accessPolicy: Option<AccessPolicy>, invalidAccessPolicy: bool,
    ipAllowlist: seq<string>, ipBlocklist: seq<string>)

  datatype Reason =
    | MissingToken | InvalidToken
    | PolicyBlocked | Disabled | User(access: UserAccess) | Expired
    | OverCost | OverRequests
    | QuotaBlocked(blocker: QL.Blocker)
    | IPBlocked | IPNotAllowed
    | OverRPM | OverTPM

  /** A rejection may carry the id of a reservation that the caller must release. */
  datatype Result = Result(ok: bool, status: int, reason: Option<Reason>, reservationID: string)

  const ADMITTED := Result(true, 0, None, "")

  /**
    The clock, the random reservation id and the address matcher of one call, and whether the UPDATE
    that counts the request finds the budget the static gates saw: not when it fails, and not when
    another turn has spent it since.
  */
  datatype World = World(now: int, newID: string, listed: (string, seq<string>) -> bool, counts: bool)

  /** One key with the ledger and its rate window. */
  datatype Gate = Gate(row: KeyRow, ledger: QL.Ledger, win: KA.Win)

  // ---------- the gates ----------

  function Deny(status: int, reason: Reason): Result { Result(false, status, Some(reason), "") }

  predicate HasPolicyBlock(row: KeyRow) {
    row.invalidAccessPolicy || (row.accessPolicy.Some? && row.accessPolicy.value.blockReason != "")
  }

  predicate IsExpired(row: KeyRow, now: int) {
    row.expiresAt.Some? && row.expiresAt.value.Until? && row.expiresAt.value.at <= now
  }

  predicate CostSpent(row: KeyRow) { row.maxCost.Some? && row.usedCost >= row.maxCost.value }
  predicate RequestsSpent(row: KeyRow) { row.maxRequests.Some? && row.usedRequests >= row.maxRequests.value }

  function QuotaOf(row: KeyRow): Option<QL.Quota> {
    if row.accessPolicy.Some? then row.accessPolicy.value.quota else None
  }

  /** The gates before the quota, in order. */
  function StaticDenial(row: KeyRow, now: int): Option<Result> {
    if HasPolicyBlock(row) then Some(Deny(403, PolicyBlocked))
    else if !row.enabled then Some(Deny(403, Disabled))
    else if row.user != UserOK then Some(Deny(if row.user.UserDisabled? then 403 else 503, User(row.user)))
    else if IsExpired(row, now) then Some(Deny(403, Expired))
    else if CostSpent(row) then Some(Deny(429, OverCost))
    else if RequestsSpent(row) then Some(Deny(429, OverRequests))
    else None
  }

  function QuotaStatus(b: QL.Blocker): int {
    match b
    case OverQuota => 429
    case Unavailable => 503
    case _ => 403
  }

  /** The IP gate; a blank address passes unless an imported policy has an allowlist. */
  function CheckDownstreamKeyIP(row: KeyRow, clientIP: string, listed: (string, seq<string>) -> bool): Option<Reason> {
    var ip := Trim(clientIP);
    if ip == "" then
      if row.accessPolicy.Some? && |row.ipAllowlist| > 0 then Some(IPNotAllowed) else None
    else if |row.ipBlocklist| > 0 && listed(ip, row.ipBlocklist) then Some(IPBlocked)
    else if |row.ipAllowlist| > 0 && !listed(ip, row.ipAllowlist) then Some(IPNotAllowed)
    else None
  }

  /** The rate gate, which records the request when it admits it. */
  function RateStep(row: KeyRow, win: KA.Win, now: int, est: int): (KA.Win, KA.Decision) {
    var rpm, tpm := KA.Effective(row.maxRPM), KA.Effective(row.maxTPM);
    if row.id <= 0 || rpm == tpm == 0 then (win, KA.Decision(true, KA.Granted, 0, 0, 0))
    else KA.AllowStep(win, rpm, tpm, now, est)
  }

  function RateReason(r: KA.Reason): Reason { if r.OverTPM? then OverTPM else OverRPM }

  function AtLeastOne(n: int): int { if n < 1 then 1 else n }

  /** What the ledger answers a turn: unchanged when the key has no quota. */
  function QuotaStep(row: KeyRow, ledger: QL.Ledger, w: World, est: int): (QL.Ledger, QL.Blocker) {
    match QuotaOf(row)
    case None => (ledger, QL.Clear)
    case Some(q) => QL.Reserve(ledger, row.id, q, AtLeastOne(est), w.now, w.newID)
  }

  /** The tokens a turn asks the limiter for: at least one under a token limit. */
  function RateTokens(row: KeyRow, est: int): int {
    if KA.Effective(row.maxTPM) > 0 then AtLeastOne(est) else est
  }

  /** The IP and rate gates: the window afterwards, and the denial if there is one. */
  function RateGate(row: KeyRow, win: KA.Win, id: string, ip: Option<Reason>, now: int, est: int): (KA.Win, Option<Result>) {
    if ip.Some? then (win, Some(Result(false, 403, ip, id)))
    else
      var (after, d) := RateStep(row, win, now, RateTokens(row, est));
      (after, if d.allowed then None else Some(Result(false, 429, Some(RateReason(d.reason)), id)))
  }

  /** The answer to a turn that passed the rate gate. */
  function Consumed(id: string, counted: bool): Result {
    if counted then ADMITTED.(reservationID := id) else Result(false, 429, Some(OverRequests), id)
  }

  /** The gates after the reservation; a denial hands the reservation back for release. */
  function AfterReservation(g: Gate, id: string, ip: Option<Reason>, now: int, est: int, counts: bool): (Gate, Result) {
    var (win, denial) := RateGate(g.row, g.win, id, ip, now, est);
    if denial.Some? then (g.(win := win), denial.value)
    else
      var row := if counts then g.row.(usedRequests := g.row.usedRequests + 1) else g.row;
      (g.(row := row, win := win), Consumed(id, counts))
  }

  function AfterStaticGates(g: Gate, w: World, ip: Option<Reason>, est: int): (Gate, Result) {
    var (ledger, blocker) := QuotaStep(g.row, g.ledger, w, est);
    if !blocker.Clear? then (g, Deny(QuotaStatus(blocker), QuotaBlocked(blocker)))
    else AfterReservation(g.(ledger := ledger), if QuotaOf(g.row).Some? then w.newID else "", ip, w.now, est, w.counts)
  }

  function Turn(g: Gate, w: World, clientIP: string, est: int): (Gate, Result) {
    var early := StaticDenial(g.row, w.now);
    if early.Some? then (g, early.value)
    else AfterStaticGates(g, w, CheckDownstreamKeyIP(g.row, clientIP, w.listed), est)
  }

  ghost predicate TurnDone(before: Gate, after: Gate, result: Result, w: World, clientIP: string, est: int) {
    (after, result) == Turn(before, w, clientIP, est)
  }

  lemma TurnIsAfterReservation(g: Gate, w: World, clientIP: string, est: int, ip: Option<Reason>, id: string)
    requires StaticDenial(g.row, w.now).None? && QuotaStep(g.row, g.ledger, w, est).1.Clear?
    requires ip == CheckDownstreamKeyIP(g.row, clientIP, w.listed) && id == if QuotaOf(g.row).Some? then w.newID else ""
    ensures Turn(g, w, clientIP, est) ==
            AfterReservation(g.(ledger := QuotaStep(g.row, g.ledger, w, est).0), id, ip, w.now, est, w.counts)
  {}

  lemma AfterReservationIs(g: Gate, after: Gate, id: string, ip: Option<Reason>, w: World, est: int, result: Result)
    requires var (win, denial) := RateGate(g.row, g.win, id, ip, w.now, est);
             after.win == win && result == if denial.Some? then denial.value else Consumed(id, w.counts)
    requires after.ledger == g.ledger
    requires after.row == if result.ok then g.row.(usedRequests := g.row.usedRequests + 1) else g.row
    ensures AfterReservation(g, id, ip, w.now, est, w.counts) == (after, result)
  {}

  /** The key still exists and has a request left. */
  ghost predicate HasBudget(rows: map<string, KeyRow>, keyID: int) {
    exists t :: t in rows && rows[t].id == keyID && !RequestsSpent(rows[t])
  }

  // ---------- the tables, updated in place ----------

  class Gateway {
    /** The key table by token. */
    var rows: map<string, KeyRow>
    const quota: QL.QuotaTables
    const admission: KA.KeyAdmissionLimiter

    constructor (rows: map<string, KeyRow>)
      requires forall a, b :: a in rows && b in rows && rows[a].id == rows[b].id ==> a == b
      ensures Valid() && this.rows == rows && fresh(quota) && fresh(admission)
    {
      this.rows := rows;
      quota := new QL.QuotaTables();
      admission := new KA.KeyAdmissionLimiter();
    }

    ghost predicate Valid()
      reads this, admission
    {
      && admission.Valid()
      && forall a, b :: a in rows && b in rows && rows[a].id == rows[b].id ==> a == b
    }

    ghost function GateOf(token: string): Gate
      requires token in rows
      reads this, quota, admission, admission.keys.Values
    {
      Gate(rows[token], quota.Contents(), admission.WindowOf(rows[token].id))
    }

    /** One conditional UPDATE: unless it fails, it counts a request of the row with this id if its budget allows. */
    method ConsumeManagedKeyRequest(keyID: int, works: bool) returns (counted: bool)
      requires Valid()
      modifies this
      ensures Valid()
      ensures counted <==> works && HasBudget(old(rows), keyID)
      ensures !counted ==> rows == old(rows)
      ensures rows.Keys == old(rows).Keys
      ensures forall t :: t in rows ==>
        rows[t] == if counted && old(rows)[t].id == keyID then old(rows)[t].(usedRequests := old(rows)[t].usedRequests + 1)
                   else old(rows)[t]
    {
      if !works {
        return false;
      }
      if t :| t in rows && rows[t].id == keyID && !RequestsSpent(rows[t]) {
        rows := rows[t := rows[t].(usedRequests := rows[t].usedRequests + 1)];
        return true;
      }
      return false;
    }

    /** The static gates and the reservation; on success the reservation id, empty without a quota. */
    method AuthorizeDownstreamToken(row: KeyRow, w: World, est: int) returns (result: Result)
      modifies quota
      ensures result == var early := StaticDenial(row, w.now);
                        if early.Some? then early.value
                        else
                          var blocker := QuotaStep(row, old(quota.Contents()), w, est).1;
                          if !blocker.Clear? then Deny(QuotaStatus(blocker), QuotaBlocked(blocker))
                          else ADMITTED.(reservationID := if QuotaOf(row).Some? then w.newID else "")
      ensures quota.Contents() == if StaticDenial(row, w.now).Some? then old(quota.Contents())
                                  else QuotaStep(row, old(quota.Contents()), w, est).0
    {
      if row.invalidAccessPolicy || (row.accessPolicy.Some? && row.accessPolicy.value.blockReason != "") {
        return Deny(403, PolicyBlocked);
      }
      if !row.enabled {
        return Deny(403, Disabled);
      }
      if row.user != UserOK {
        return Deny(if row.user.UserDisabled? then 403 else 503, User(row.user));
      }
      if row.expiresAt.Some? && row.expiresAt.value.Until? && row.expiresAt.value.at <= w.now {
        return Deny(403, Expired);
      }
      if row.maxCost.Some? && row.usedCost >= row.maxCost.value {
        return Deny(429, OverCost);
      }
      if row.maxRequests.Some? && row.usedRequests >= row.maxRequests.value {
        return Deny(429, OverRequests);
      }
      var reservationID := "";
      if row.accessPolicy.Some? && row.accessPolicy.value.quota.Some? {
        var id, denied := quota.ReserveManagedKeyQuota(row.id, row.accessPolicy.value.quota.value, AtLeastOne(est), w.now, w.newID);
        if !denied.Clear? {
          return Deny(QuotaStatus(denied), QuotaBlocked(denied));
        }
        reservationID := id;
      }
      return ADMITTED.(reservationID := reservationID);
    }

    /**
      The IP, rate and budget gates of a turn that loaded `row` and holds its reservation `id`. The
      table may have moved on since: it, and not the loaded row, decides whether the request counts.
    */
    method AdmitReserved(row: KeyRow, id: string, ip: Option<Reason>, now: int, estimatedTokens: int, works: bool)
      returns (result: Result)
      requires Valid()
      modifies this, admission, admission.keys.Values
      ensures Valid() && rows.Keys == old(rows).Keys
      ensures var (win, denial) := RateGate(row, old(admission.WindowOf(row.id)), id, ip, now, estimatedTokens);
              && admission.WindowOf(row.id) == win
              && result == if denial.Some? then denial.value else Consumed(id, works && HasBudget(old(rows), row.id))
      ensures forall t :: t in rows ==>
        rows[t] == if result.ok && old(rows)[t].id == row.id then old(rows)[t].(usedRequests := old(rows)[t].usedRequests + 1)
                   else old(rows)[t]
      ensures forall k :: k != row.id ==> admission.WindowOf(k) == old(admission.WindowOf(k))
    {
      if ip.Some? {
        return Result(false, 403, ip, id);
      }
      var tokens := estimatedTokens;
      if row.maxTPM.Some? && row.maxTPM.value > 0 && estimatedTokens < 1 {
        tokens := 1;
      }
      var d := admission.Allow(row.id, row.maxRPM, row.maxTPM, tokens, now);
      if !d.allowed {
        return Result(false, 429, Some(RateReason(d.reason)), id);
      }
      var counted := ConsumeManagedKeyRequest(row.id, works);
      if !counted {
        return Result(false, 429, Some(OverRequests), id);
      }
      return ADMITTED.(reservationID := id);
    }

    /** All gates of a known token in one go; the UPDATE at the end may still fail. */
    method TakeTurn(token: string, clientIP: string, estimatedTokens: int, w: World) returns (result: Result)
      requires Valid() && token in rows
      modifies this, quota, admission, admission.keys.Values
      ensures Valid() && rows.Keys == old(rows).Keys
      ensures TurnDone(old(GateOf(token)), GateOf(token), result, w, clientIP, estimatedTokens)
      ensures forall t :: t in rows && t != token ==> rows[t] == old(rows[t])
      ensures forall k :: k != old(rows)[token].id ==> admission.WindowOf(k) == old(admission.WindowOf(k))
    {
      var row := rows[token];
      ghost var g := GateOf(token);
      result := AuthorizeDownstreamToken(row, w, estimatedTokens);
      if !result.ok {
        return;
      }
      var ip := CheckDownstreamKeyIP(row, clientIP, w.listed);
      var id := result.reservationID;
      TurnIsAfterReservation(g, w, clientIP, estimatedTokens, ip, id);
      assert HasBudget(rows, row.id);
      result := AdmitReserved(row, id, ip, w.now, estimatedTokens, w.counts);
      AfterReservationIs(g.(ledger := quota.Contents()), GateOf(token), id, ip, w, estimatedTokens, result);
    }

    method ReauthorizeManagedKeyForTurn(token: string, clientIP: string, estimatedTokens: int, w: World)
      returns (result: Result)
      requires Valid()
      modifies this, quota, admission, admission.keys.Values
      ensures Valid() && rows.Keys == old(rows).Keys
      ensures Trim(token) == "" ==> result == Deny(401, MissingToken)
      ensures Trim(token) != "" && Trim(token) !in old(rows) ==> result == Deny(401, InvalidToken)
      ensures Trim(token) !in rows || Trim(token) == "" ==> quota.Contents() == old(quota.Contents()) && rows == old(rows)
      ensures Trim(token) in rows && Trim(token) != "" ==>
        TurnDone(old(GateOf(Trim(token))), GateOf(Trim(token)), result, w, clientIP, estimatedTokens)
      ensures forall t :: t in rows && t != Trim(token) ==> rows[t] == old(rows[t])
      ensures forall k :: Trim(token) !in rows || k != old(rows)[Trim(token)].id ==>
                            admission.WindowOf(k) == old(admission.WindowOf(k))
    {
      var normalized := Trim(token);
      if normalized == "" {
        return Deny(401, MissingToken);
      }
      if normalized !in rows {
        return Deny(401, InvalidToken);
      }
      result := TakeTurn(normalized, clientIP, estimatedTokens, w);
    }
  }

  // ---------- what a turn leaves behind ----------

  /** The rate limiter keeps a log for the key. */
  predicate Rated(row: KeyRow) {
    row.id > 0 && (KA.Effective(row.maxRPM) > 0 || KA.Effective(row.maxTPM) > 0)
  }

  ghost predicate AtMostPruned(before: KA.Win, after: KA.Win, now: int) {
    after == before || after == KA.PruneWin(before, now - KA.WINDOW_MS)
  }

  /** Denied by the UPDATE although the loaded row still had a request left. */
  predicate LostItsRequest(g: Gate, w: World, result: Result) {
    StaticDenial(g.row, w.now).None? && result.reason == Some(OverRequests)
  }

  /** A recorded request shows in the window: no pruning of the old window looks like it. */
  lemma RecordedIsNotPruned(win: KA.Win, tpm: int, now: int, est: int)
    ensures !AtMostPruned(win, KA.Record(KA.PruneWin(win, now - KA.WINDOW_MS), tpm, now, est), now)
  {
    var start := now - KA.WINDOW_MS;
    var kept := KA.Prune(win.req, KA.TimeAt(), start);
    KA.PruneLength(win.req, KA.TimeAt(), start);
    assert |kept + [now]| == |kept| + 1;
    if win.req == kept + [now] {
      assert KA.TimeAt()(win.req[0]) < start;
      assert win.req[0] == if kept == [] then now else kept[0];
      assert kept != [] ==> KA.TimeAt()(kept[0]) >= start;
    }
  }

  lemma RateStepRecords(row: KeyRow, win: KA.Win, now: int, est: int)
    ensures var (after, d) := RateStep(row, win, now, est);
            && (d.allowed && Rated(row) ==> after == KA.Record(KA.PruneWin(win, now - KA.WINDOW_MS), KA.Effective(row.maxTPM), now, est))
            && (!d.allowed || !Rated(row) ==> AtMostPruned(win, after, now))
  {}

  lemma LateDenialPrunesIff(g: Gate, id: string, ip: Option<Reason>, now: int, est: int, counts: bool)
    requires ip != Some(OverRequests) && !AfterReservation(g, id, ip, now, est, counts).1.ok
    ensures var (after, result) := AfterReservation(g, id, ip, now, est, counts);
            && result.reservationID == id && after.ledger == g.ledger && after.row == g.row
            && (AtMostPruned(g.win, after.win, now) <==> !(Rated(g.row) && result.reason == Some(OverRequests)))
  {
    var tokens := RateTokens(g.row, est);
    RateStepRecords(g.row, g.win, now, tokens);
    RecordedIsNotPruned(g.win, KA.Effective(g.row.maxTPM), now, tokens);
    IPReasons(ip, g.row, g.win, id, now, est);
  }

  /** The IP and rate gates never answer with the request budget. */
  lemma IPReasons(ip: Option<Reason>, row: KeyRow, win: KA.Win, id: string, now: int, est: int)
    ensures var denial := RateGate(row, win, id, ip, now, est).1;
            denial.Some? && ip != Some(OverRequests) ==> denial.value.reason != Some(OverRequests)
  {}

  /** What a denied turn costs the key. */
  ghost predicate Reversible(g: Gate, w: World, after: Gate, result: Result) {
    && after.row == g.row
    && (if result.reservationID == "" then after.ledger == g.ledger
        else QL.Release(after.ledger, result.reservationID) == QL.Expire(g.ledger, g.row.id, w.now))
    && (AtMostPruned(g.win, after.win, w.now) <==> !(Rated(g.row) && LostItsRequest(g, w, result)))
  }

  lemma AddressIsNoBudget(row: KeyRow, clientIP: string, listed: (string, seq<string>) -> bool)
    ensures CheckDownstreamKeyIP(row, clientIP, listed) != Some(OverRequests)
  {}

  lemma DenialAfterStaticGates(g: Gate, w: World, ip: Option<Reason>, est: int)
    requires StaticDenial(g.row, w.now).None? && w.newID != "" && ip != Some(OverRequests)
    requires !AfterStaticGates(g, w, ip, est).1.ok
    ensures Reversible(g, w, AfterStaticGates(g, w, ip, est).0, AfterStaticGates(g, w, ip, est).1)
  {
    var (ledger, blocker) := QuotaStep(g.row, g.ledger, w, est);
    if blocker.Clear? {
      LateDenialPrunesIff(g.(ledger := ledger), if QuotaOf(g.row).Some? then w.newID else "", ip, w.now, est, w.counts);
      if QuotaOf(g.row).Some? {
        QL.ReleaseUndoesReserve(g.ledger, g.row.id, QuotaOf(g.row).value, AtLeastOne(est), w.now, w.newID);
      }
    }
  }

  /**
    A denied turn never counts a request. Without a reservation id the ledger is untouched, with one
    the release leaves only the sweep of stale holds. The rate window is at most pruned if and only
    if the denial was not the UPDATE's: that one comes after a rated key's turn was recorded, and
    the entry stays.
  */
  lemma DenialIsReversible(g: Gate, w: World, clientIP: string, est: int)
    requires w.newID != "" && !Turn(g, w, clientIP, est).1.ok
    ensures Reversible(g, w, Turn(g, w, clientIP, est).0, Turn(g, w, clientIP, est).1)
  {
    AddressIsNoBudget(g.row, clientIP, w.listed);
    if StaticDenial(g.row, w.now).None? {
      DenialAfterStaticGates(g, w, CheckDownstreamKeyIP(g.row, clientIP, w.listed), est);
    }
  }

  /** `h` is the one hold a turn added, under the id it answered; releasing that id takes exactly it away. */
  ghost predicate HoldsOneSlot(g: Gate, after: QL.Ledger, id: string, w: World) {
    var swept := QL.Expire(g.ledger, g.row.id, w.now);
    && QuotaOf(g.row).Some? && id == w.newID && !QL.Taken(swept, w.newID)
    && after.usage == g.ledger.usage && |after.holds| == |swept.holds| + 1
    && QL.Release(after, w.newID) == swept
    && var h := after.holds[|swept.holds|];
       h.id == w.newID && h.key == g.row.id && h.requests == 1 && Some(h.period) == QuotaOf(g.row).value.window(w.now)
  }

  lemma ReservationHoldsOneSlot(g: Gate, w: World, est: int)
    requires w.newID != "" && QuotaOf(g.row).Some? && QuotaStep(g.row, g.ledger, w, est).1.Clear?
    ensures HoldsOneSlot(g, QuotaStep(g.row, g.ledger, w, est).0, w.newID, w)
  {
    QL.ReserveAddsOneHold(g.ledger, g.row.id, QuotaOf(g.row).value, AtLeastOne(est), w.now, w.newID);
    QL.ReleaseUndoesReserve(g.ledger, g.row.id, QuotaOf(g.row).value, AtLeastOne(est), w.now, w.newID);
  }

  lemma AdmittedAfterStaticGates(g: Gate, w: World, ip: Option<Reason>, est: int)
    requires w.newID != "" && AfterStaticGates(g, w, ip, est).1.ok
    ensures var (after, result) := AfterStaticGates(g, w, ip, est);
            if QuotaOf(g.row).None? then result.reservationID == "" && after.ledger == g.ledger
            else HoldsOneSlot(g, after.ledger, result.reservationID, w)
  {
    if QuotaOf(g.row).Some? {
      ReservationHoldsOneSlot(g, w, est);
    }
  }

  /** An admitted turn of a key with a quota holds one request in the current window, under the returned id. */
  lemma AdmittedTurnHoldsItsSlot(g: Gate, w: World, clientIP: string, est: int)
    requires w.newID != "" && Turn(g, w, clientIP, est).1.ok
    ensures var (after, result) := Turn(g, w, clientIP, est);
            if QuotaOf(g.row).None? then result.reservationID == "" && after.ledger == g.ledger
            else HoldsOneSlot(g, after.ledger, result.reservationID, w)
  {
    AdmittedAfterStaticGates(g, w, CheckDownstreamKeyIP(g.row, clientIP, w.listed), est);
  }
}
