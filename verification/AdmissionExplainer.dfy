/** The read-only explanation of a key's admission (`auth/downstream_context.go`). */
module AdmissionExplainer {
  // It lists all dimensions that block the key now rather than the first, and agrees with the live chain.
  import opened Seqs
  import opened Int64
  import opened Text
  import KA = KeyAdmission
  import QL = QuotaLedger
  import opened AdmissionChain

  datatype Note = ReadOnly | QuotaHistoryIncomplete | IPRulesUnchecked | RateWindowProcessLocal

  datatype IPCheck = Unchecked | Checked(denied: Option<Reason>)

  datatype RateUsage = RateUsage(usedRPM: int, usedTPM: int)

  datatype Explanation = Explanation(
    allow: bool, blockers: seq<Reason>, notes: seq<Note>, ip: IPCheck,
    rate: Option<RateUsage>, quota: Option<QL.Explanation>)

  // ---------- the blockers ----------

  function Add(s: seq<Reason>, c: bool, r: Reason): (t: seq<Reason>)
    ensures t == [] <==> s == [] && !c
    ensures t != [] ==> t[0] == if s == [] then r else s[0]
    ensures c ==> r in t
    ensures forall x :: x in s ==> x in t
  {
    if c then s + [r] else s
  }

  predicate Blank(clientIP: string) { Trim(clientIP) == "" }

  predicate AtOrOver(limit: Option<int>, used: int) { limit.Some? && used >= limit.value }

  function Usage(id: int, win: KA.Win, now: int): RateUsage {
    if id <= 0 then RateUsage(0, 0)
    else
      var p := KA.PruneWin(win, now - KA.WINDOW_MS);
      RateUsage(|p.req|, Wrap64(SumBy(p.tok, KA.Tokens())))
  }

  function StateBlockers(row: KeyRow, now: int): seq<Reason> {
    var user := Add([], row.user != UserOK, User(row.user));
    var policy := Add(user, HasPolicyBlock(row), PolicyBlocked);
    var state := Add(policy, !row.enabled, Disabled);
    var expiry := Add(state, IsExpired(row, now), Expired);
    var cost := Add(expiry, CostSpent(row), OverCost);
    Add(cost, RequestsSpent(row), OverRequests)
  }

  function QuotaBlocker(row: KeyRow, ledger: QL.Ledger, now: int): QL.Blocker {
    match QuotaOf(row)
    case None => QL.Clear
    case Some(q) => QL.ExplainManagedKeyQuota(ledger, row.id, q, now).blocker
  }

  function IPDenial(row: KeyRow, w: World, clientIP: string): Option<Reason> {
    if Blank(clientIP) then None else CheckDownstreamKeyIP(row, clientIP, w.listed)
  }

  function AddRate(s: seq<Reason>, row: KeyRow, u: RateUsage): seq<Reason> {
    Add(Add(s, AtOrOver(row.maxRPM, u.usedRPM), OverRPM), AtOrOver(row.maxTPM, u.usedTPM), OverTPM)
  }

  function AddQuotaAndIP(s: seq<Reason>, quota: QL.Blocker, ip: Option<Reason>): seq<Reason> {
    var withQuota := Add(s, !quota.Clear?, QuotaBlocked(quota));
    if ip.Some? then Add(withQuota, true, ip.value) else withQuota
  }

  function BlockersBeforeRate(row: KeyRow, ledger: QL.Ledger, w: World, clientIP: string): seq<Reason> {
    AddQuotaAndIP(StateBlockers(row, w.now), QuotaBlocker(row, ledger, w.now), IPDenial(row, w, clientIP))
  }

  function Blockers(g: Gate, w: World, clientIP: string): seq<Reason> {
    AddRate(BlockersBeforeRate(g.row, g.ledger, w, clientIP), g.row, Usage(g.row.id, g.win, w.now))
  }

  method ExplainState(row: KeyRow, now: int) returns (blockers: seq<Reason>)
    ensures blockers == StateBlockers(row, now)
  {
    blockers := [];
    if row.user != UserOK {
      blockers := blockers + [User(row.user)];
    }
    if row.invalidAccessPolicy {
      blockers := blockers + [PolicyBlocked];
    } else if row.accessPolicy.Some? && row.accessPolicy.value.blockReason != "" {
      blockers := blockers + [PolicyBlocked];
    }
    if !row.enabled {
      blockers := blockers + [Disabled];
    }
    if row.expiresAt.Some? && row.expiresAt.value.Until? && row.expiresAt.value.at <= now {
      blockers := blockers + [Expired];
    }
    if row.maxCost.Some? && row.usedCost >= row.maxCost.value {
      blockers := blockers + [OverCost];
    }
    if row.maxRequests.Some? && row.usedRequests >= row.maxRequests.value {
      blockers := blockers + [OverRequests];
    }
  }

  function QuotaPart(row: KeyRow, ledger: QL.Ledger, now: int): Option<QL.Explanation> {
    if QuotaOf(row).None? then None else Some(QL.ExplainManagedKeyQuota(ledger, row.id, QuotaOf(row).value, now))
  }

  function RatePart(row: KeyRow, win: KA.Win, now: int): Option<RateUsage> {
    if row.maxRPM.None? && row.maxTPM.None? then None else Some(Usage(row.id, win, now))
  }

  /** What the explanation leaves of a window: a snapshot, taken when the key has a rate limit, drops old entries. */
  function Looked(row: KeyRow, win: KA.Win, now: int): KA.Win {
    if row.id <= 0 || (row.maxRPM.None? && row.maxTPM.None?) then win else KA.PruneWin(win, now - KA.WINDOW_MS)
  }

  /** The rate dimension, read from the limiter's snapshot. */
  method ExplainRate(before: seq<Reason>, row: KeyRow, admission: KA.KeyAdmissionLimiter, now: int)
    returns (blockers: seq<Reason>, rate: Option<RateUsage>)
    requires admission.Valid()
    modifies admission.keys.Values
    ensures admission.Valid()
    ensures var usage := Usage(row.id, old(admission.WindowOf(row.id)), now);
            && blockers == AddRate(before, row, usage)
            && rate == RatePart(row, old(admission.WindowOf(row.id)), now)
    ensures forall k :: k != row.id ==> admission.WindowOf(k) == old(admission.WindowOf(k))
    ensures admission.WindowOf(row.id) == Looked(row, old(admission.WindowOf(row.id)), now)
  {
    if row.maxRPM.None? && row.maxTPM.None? {
      return before, None;
    }
    var usedRPM, usedTPM := admission.Snapshot(row.id, now);
    blockers, rate := before, Some(RateUsage(usedRPM, usedTPM));
    if row.maxRPM.Some? && usedRPM >= row.maxRPM.value {
      blockers := blockers + [OverRPM];
    }
    if row.maxTPM.Some? && usedTPM >= row.maxTPM.value {
      blockers := blockers + [OverTPM];
    }
  }

  /** The quota dimension, read from the ledger. */
  method ExplainQuota(before: seq<Reason>, row: KeyRow, ledger: QL.Ledger, now: int)
    returns (blockers: seq<Reason>, explained: Option<QL.Explanation>)
    ensures var b := QuotaBlocker(row, ledger, now);
            blockers == Add(before, !b.Clear?, QuotaBlocked(b))
    ensures explained == QuotaPart(row, ledger, now)
  {
    if row.accessPolicy.None? || row.accessPolicy.value.quota.None? {
      return before, None;
    }
    var q := QL.ExplainManagedKeyQuota(ledger, row.id, row.accessPolicy.value.quota.value, now);
    if q.blocker.Clear? {
      return before, Some(q);
    }
    return before + [QuotaBlocked(q.blocker)], Some(q);
  }

  function IPPart(row: KeyRow, w: World, clientIP: string): IPCheck {
    if Blank(clientIP) then Unchecked else Checked(IPDenial(row, w, clientIP))
  }

  /** The IP dimension, which is skipped for a blank address. */
  method ExplainIP(before: seq<Reason>, row: KeyRow, clientIP: string, w: World)
    returns (blockers: seq<Reason>, check: IPCheck)
    ensures check == IPPart(row, w, clientIP)
    ensures var denied := IPDenial(row, w, clientIP);
            blockers == if denied.Some? then Add(before, true, denied.value) else before
  {
    if Trim(clientIP) == "" {
      return before, Unchecked;
    }
    var denied := CheckDownstreamKeyIP(row, clientIP, w.listed);
    blockers := if denied.Some? then before + [denied.value] else before;
    check := Checked(denied);
  }

  function AddNote(s: seq<Note>, c: bool, n: Note): seq<Note> { if c then s + [n] else s }

  function NotesBeforeRate(row: KeyRow, blank: bool, quota: Option<QL.Explanation>): seq<Note> {
    AddNote(AddNote([ReadOnly], quota.Some? && quota.value.historyMissing, QuotaHistoryIncomplete),
            blank && (|row.ipAllowlist| > 0 || |row.ipBlocklist| > 0), IPRulesUnchecked)
  }

  /** The whole answer: allowed exactly when nothing blocks, with the numbers behind each dimension. */
  function Explain(g: Gate, w: World, clientIP: string): Explanation {
    var blockers, quota := Blockers(g, w, clientIP), QuotaPart(g.row, g.ledger, w.now);
    var rate := RatePart(g.row, g.win, w.now);
    var notes := AddNote(NotesBeforeRate(g.row, Blank(clientIP), quota), rate.Some?, RateWindowProcessLocal);
    Explanation(blockers == [], blockers, notes, IPPart(g.row, w, clientIP), rate, quota)
  }

  method ExplainBeforeRate(row: KeyRow, ledger: QL.Ledger, w: World, clientIP: string)
    returns (blockers: seq<Reason>, notes: seq<Note>, explained: Option<QL.Explanation>, ip: IPCheck)
    ensures blockers == BlockersBeforeRate(row, ledger, w, clientIP)
    ensures explained == QuotaPart(row, ledger, w.now)
    ensures notes == NotesBeforeRate(row, Blank(clientIP), explained)
    ensures ip == IPPart(row, w, clientIP)
  {
    blockers := ExplainState(row, w.now);
    blockers, explained := ExplainQuota(blockers, row, ledger, w.now);
    notes := AddNote([ReadOnly], explained.Some? && explained.value.historyMissing, QuotaHistoryIncomplete);
    blockers, ip := ExplainIP(blockers, row, clientIP, w);
    notes := AddNote(notes, ip.Unchecked? && (|row.ipAllowlist| > 0 || |row.ipBlocklist| > 0), IPRulesUnchecked);
  }

  /** Builds the lists in sequence; the only write is the pruning done by the rate snapshot. */
  method ExplainAdmission(row: KeyRow, quota: QL.QuotaTables, admission: KA.KeyAdmissionLimiter, w: World, clientIP: string)
    returns (e: Explanation)
    requires admission.Valid()
    modifies admission.keys.Values
    ensures admission.Valid()
    ensures e == Explain(Gate(row, old(quota.Contents()), old(admission.WindowOf(row.id))), w, clientIP)
    ensures forall k :: k != row.id ==> admission.WindowOf(k) == old(admission.WindowOf(k))
    ensures admission.WindowOf(row.id) == Looked(row, old(admission.WindowOf(row.id)), w.now)
  {
    var blockers, notes, explained, ip := ExplainBeforeRate(row, quota.Contents(), w, clientIP);
    var rate;
    blockers, rate := ExplainRate(blockers, row, admission, w.now);
    notes := AddNote(notes, rate.Some?, RateWindowProcessLocal);
    e := Explanation(blockers == [], blockers, notes, ip, rate, explained);
  }

  // ---------- agreement ----------

  predicate Positive(limit: Option<int>) { limit.None? || limit.value > 0 }

  /** Rate limits absent or positive. */
  predicate Sane(row: KeyRow) { Positive(row.maxRPM) && Positive(row.maxTPM) }

  /** No hold of the key is past its TTL, the random id is new, and no other turn takes the request meanwhile. */
  ghost predicate Settled(g: Gate, w: World) {
    && w.counts
    && (forall i :: 0 <= i < |g.ledger.holds| ==> QL.Live(g.row.id, w.now)(g.ledger.holds[i]))
    && !QL.Taken(g.ledger, w.newID)
  }

  /** A stored key id is positive, a stored limit is an int64, and the window's token sum is below the int64 maximum. */
  predicate Representable(g: Gate, w: World) {
    && g.row.id > 0
    && (g.row.maxTPM.Some? ==> g.row.maxTPM.value <= MAX_INT64)
    && 0 <= Usage(g.row.id, g.win, w.now).usedTPM < MAX_INT64
  }

  lemma RateGatesAgree(s: seq<Reason>, g: Gate, w: World, est: int)
    requires Representable(g, w) && (if KA.Effective(g.row.maxTPM) > 0 then est == 1 else est <= 1)
    ensures var r, d := AddRate(s, g.row, Usage(g.row.id, g.win, w.now)), RateStep(g.row, g.win, w.now, est).1;
            && (r == [] <==> s == [] && d.allowed && Sane(g.row))
            && (!d.allowed ==> RateReason(d.reason) in r)
            && (r != [] && !d.allowed && Sane(g.row) ==> r[0] == if s == [] then RateReason(d.reason) else s[0])
  {}

  lemma StaticGatesAgree(row: KeyRow, now: int)
    ensures StaticDenial(row, now).None? <==> StateBlockers(row, now) == []
    ensures StaticDenial(row, now).Some? ==>
              var r := StaticDenial(row, now).value;
              !r.ok && r.reason.Some? && r.reason.value in StateBlockers(row, now)
  {}

  lemma QuotaGatesAgree(g: Gate, w: World, est: int)
    requires Settled(g, w)
    ensures QuotaStep(g.row, g.ledger, w, est).1 == QuotaBlocker(g.row, g.ledger, w.now)
  {
    FilterAll(g.ledger.holds, QL.Live(g.row.id, w.now));
  }

  lemma LateGatesAgree(g: Gate, w: World, ip: Option<Reason>)
    requires Settled(g, w) && Representable(g, w)
    ensures var result := AfterStaticGates(g, w, ip, 1).1;
            var late := AddRate(AddQuotaAndIP([], QuotaBlocker(g.row, g.ledger, w.now), ip), g.row, Usage(g.row.id, g.win, w.now));
            && (late == [] <==> result.ok && Sane(g.row))
            && (!result.ok ==> result.reason.Some? && result.reason.value in late)
  {
    QuotaGatesAgree(g, w, 1);
    RateGatesAgree([], g, w, 1);
  }

  lemma LateKeepsEarly(s: seq<Reason>, quota: QL.Blocker, ip: Option<Reason>, row: KeyRow, u: RateUsage)
    ensures var r := AddRate(AddQuotaAndIP(s, quota, ip), row, u);
            && (r == [] ==> s == [])
            && (s != [] ==> r[0] == s[0])
            && forall x :: x in s ==> x in r
  {}

  /** What the explanation and the live chain say of one key, side by side. */
  ghost predicate Agree(blockers: seq<Reason>, result: Result, row: KeyRow) {
    && (blockers == [] <==> result.ok && Sane(row))
    && (!result.ok ==> result.reason.Some? && result.reason.value in blockers)
  }

  /**
    For a known address, the explanation allows a key exactly when the live chain admits a
    one-token turn and no stored rate limit is zero or negative; and whatever the live chain
    rejects for is among the blockers listed.
  */
  lemma ExplainerExactIff(g: Gate, w: World, clientIP: string)
    requires !Blank(clientIP) && Settled(g, w) && Representable(g, w)
    ensures Agree(Blockers(g, w, clientIP), Turn(g, w, clientIP, 1).1, g.row)
  {
    var ip := IPDenial(g.row, w, clientIP);
    StaticGatesAgree(g.row, w.now);
    LateKeepsEarly(StateBlockers(g.row, w.now), QuotaBlocker(g.row, g.ledger, w.now), ip, g.row, Usage(g.row.id, g.win, w.now));
    if StaticDenial(g.row, w.now).None? {
      LateGatesAgree(g, w, ip);
    }
  }

  /** An imported key whose allowlist cannot be checked without an address. */
  predicate NeedsAddress(row: KeyRow) { row.accessPolicy.Some? && |row.ipAllowlist| > 0 }

  /** Listed as a blocker, or the missing address of such a key. */
  predicate Explained(reason: Option<Reason>, blockers: seq<Reason>, row: KeyRow) {
    reason.Some? && (reason.value in blockers || (reason.value == IPNotAllowed && NeedsAddress(row)))
  }

  /**
    Without an address the explanation skips the IP dimension, and then its verdict is the live
    one except for an imported key with an allowlist, which the live chain rejects.
  */
  lemma BlankAddressExactIff(g: Gate, w: World, clientIP: string)
    requires Blank(clientIP) && Settled(g, w) && Representable(g, w)
    ensures var result := Turn(g, w, clientIP, 1).1;
            && (result.ok && Sane(g.row) <==> Blockers(g, w, clientIP) == [] && !NeedsAddress(g.row))
            && (!result.ok ==> Explained(result.reason, Blockers(g, w, clientIP), g.row))
  {
    StaticGatesAgree(g.row, w.now);
    LateKeepsEarly(StateBlockers(g.row, w.now), QuotaBlocker(g.row, g.ledger, w.now), None, g.row, Usage(g.row.id, g.win, w.now));
    if StaticDenial(g.row, w.now).None? {
      LateGatesAgree(g, w, None);
      NeedsAddressDenies(g, w);
    }
  }

  /** With the address denied the turn fails; the reason is the address or a quota blocker. */
  lemma NeedsAddressDenies(g: Gate, w: World)
    requires Settled(g, w)
    ensures var result := AfterStaticGates(g, w, Some(IPNotAllowed), 1).1;
            var b := QuotaBlocker(g.row, g.ledger, w.now);
            !result.ok && result.reason == Some(if b.Clear? then IPNotAllowed else QuotaBlocked(b))
  {
    QuotaGatesAgree(g, w, 1);
  }

  /** Stale holds only make the explanation too strict: a key it allows is admitted even then. */
  lemma AllowMeansAdmit(g: Gate, w: World, clientIP: string)
    requires !Blank(clientIP) && !QL.Taken(g.ledger, w.newID) && w.counts && Representable(g, w)
    requires Blockers(g, w, clientIP) == []
    ensures Turn(g, w, clientIP, 1).1.ok
  {
    StaticGatesAgree(g.row, w.now);
    var ip, u := IPDenial(g.row, w, clientIP), Usage(g.row.id, g.win, w.now);
    LateKeepsEarly(StateBlockers(g.row, w.now), QuotaBlocker(g.row, g.ledger, w.now), ip, g.row, u);
    AllowPassesLateGates(g, w, ip);
  }

  lemma AllowPassesLateGates(g: Gate, w: World, ip: Option<Reason>)
    requires !QL.Taken(g.ledger, w.newID) && w.counts && Representable(g, w)
    requires AddRate(AddQuotaAndIP([], QuotaBlocker(g.row, g.ledger, w.now), ip), g.row, Usage(g.row.id, g.win, w.now)) == []
    ensures AfterStaticGates(g, w, ip, 1).1.ok
  {
    if QuotaOf(g.row).Some? {
      QL.SweepKeepsClear(g.ledger, g.row.id, QuotaOf(g.row).value, w.now);
      FreshAfterSweep(g, w);
    }
    RateGatesAgree([], g, w, 1);
  }

  lemma FreshAfterSweep(g: Gate, w: World)
    requires !QL.Taken(g.ledger, w.newID)
    ensures !QL.Taken(QL.Expire(g.ledger, g.row.id, w.now), w.newID)
  {
    var swept := QL.Expire(g.ledger, g.row.id, w.now).holds;
    forall i | 0 <= i < |swept| ensures swept[i].id != w.newID {
      assert swept[i] in g.ledger.holds;
    }
  }

  /**
    The first blocker listed is the live rejection reason exactly when the owner's access is fine
    or the gates the live chain tests before it are: the explanation lists the owner first, the
    live chain tests the policy and the enabled flag before the owner.
  */
  lemma FirstBlockerIsReasonIff(g: Gate, w: World, clientIP: string)
    requires !Blank(clientIP) && Settled(g, w) && Representable(g, w) && Sane(g.row)
    requires !Turn(g, w, clientIP, 1).1.ok
    ensures var blockers := Blockers(g, w, clientIP);
            blockers != [] &&
            (Turn(g, w, clientIP, 1).1.reason == Some(blockers[0]) <==>
             g.row.user == UserOK || (!HasPolicyBlock(g.row) && g.row.enabled))
  {
    ExplainerExactIff(g, w, clientIP);
    var ip, u := IPDenial(g.row, w, clientIP), Usage(g.row.id, g.win, w.now);
    LateKeepsEarly(StateBlockers(g.row, w.now), QuotaBlocker(g.row, g.ledger, w.now), ip, g.row, u);
    if StaticDenial(g.row, w.now).Some? {
      FirstStateBlocker(g.row, w.now);
    } else {
      StaticGatesAgree(g.row, w.now);
      FirstLateBlocker(g, w, ip);
    }
  }

  lemma FirstStateBlocker(row: KeyRow, now: int)
    requires StaticDenial(row, now).Some?
    ensures StateBlockers(row, now) != []
    ensures StaticDenial(row, now).value.reason == Some(StateBlockers(row, now)[0]) <==>
            row.user == UserOK || (!HasPolicyBlock(row) && row.enabled)
  {}

  lemma FirstLateBlocker(g: Gate, w: World, ip: Option<Reason>)
    requires Settled(g, w) && Representable(g, w) && Sane(g.row) && !AfterStaticGates(g, w, ip, 1).1.ok
    ensures var late := AddRate(AddQuotaAndIP([], QuotaBlocker(g.row, g.ledger, w.now), ip), g.row, Usage(g.row.id, g.win, w.now));
            late != [] && AfterStaticGates(g, w, ip, 1).1.reason == Some(late[0])
  {
    QuotaGatesAgree(g, w, 1);
    var before := AddQuotaAndIP([], QuotaBlocker(g.row, g.ledger, w.now), ip);
    RateGatesAgree(before, g, w, 1);
  }

  // ---------- explaining is read-only ----------

  lemma {:induction false} PruneTwice<T>(s: seq<T>, at: T -> int, early: int, late: int)
    requires early <= late
    ensures KA.Prune(KA.Prune(s, at, early), at, late) == KA.Prune(s, at, late)
  {
    if s != [] && at(s[0]) < early {
      PruneTwice(s[1..], at, early, late);
    }
  }

  /** No rate decision from then on can tell whether the key was explained before it. */
  lemma ExplainingIsInvisible(row: KeyRow, win: KA.Win, explainedAt: int, now: int, est: int)
    requires explainedAt <= now
    ensures RateStep(row, Looked(row, win, explainedAt), now, est).1 == RateStep(row, win, now, est).1
    ensures RateStep(row, Looked(row, win, explainedAt), now, est).0 == RateStep(row, win, now, est).0 ||
            KA.Effective(row.maxRPM) == KA.Effective(row.maxTPM) == 0
  {
    PruneTwice(win.req, KA.TimeAt(), explainedAt - KA.WINDOW_MS, now - KA.WINDOW_MS);
    PruneTwice(win.tok, KA.EventAt(), explainedAt - KA.WINDOW_MS, now - KA.WINDOW_MS);
  }
}
