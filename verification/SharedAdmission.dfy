/** The RPM/TPM gate over shared counters (`auth/key_admission.go`, `Allow`). */
module SharedAdmission {
  // One key inside one window: any number of process instances, each request advancing by one atomic step
  // at a time. A step is one shared-counter round trip or one hold of the shard lock.
  import opened Seqs
  import opened Int64
  import KeyAdmission

  /** Effective limits (0 is unlimited; with both 0 the gate is never entered) and which counters are wired; counters do not fail. */
  datatype Config = Config(rpm: nat, tpm: nat, rpmCounter: bool, tpmCounter: bool)

  datatype Phase =
    | Arrived       // waiting for the per-key mutex of its instance
    | Locked        // holds it; the RPM verdict comes next
    | RpmOver       // counted beyond the limit; the rollback comes next
    | RpmPassed     // the TPM verdict comes next
    | TpmOver       // tokens counted beyond the limit; their rollback comes next
    | TpmRolledBack // the RPM rollback comes next
    | TpmPassed     // the final shard-lock hold comes next
    | Admitted
    | DeniedRPM
    | DeniedTPM(leftCounted: bool)

  datatype Req = Req(inst: int, est: int, phase: Phase)
  datatype Sys = Sys(rpmCount: int, tpmCount: int, reqs: seq<Req>)
  datatype Event = Arrive(inst: int, est: int) | Advance(i: int)

  predicate UsesRPM(c: Config) { c.rpm > 0 && c.rpmCounter }
  predicate UsesTPM(c: Config, est: int) { c.tpm > 0 && est > 0 && c.tpmCounter }
  predicate UsesShared(c: Config, est: int) { UsesRPM(c) || UsesTPM(c, est) }

  predicate Holds(p: Phase) {
    p.Locked? || p.RpmOver? || PastRPM(p)
  }
  predicate PastRPM(p: Phase) {
    p.RpmPassed? || p.TpmOver? || p.TpmRolledBack? || p.TpmPassed?
  }

  function One(b: bool): nat { if b then 1 else 0 }
  function Tokens(c: Config, est: int): nat { if est > 0 && c.tpm > 0 then est else 0 }

  // The local window of an instance is the log of its admitted requests.
  function AdmittedAt(inst: int): Req -> int { (r: Req) => One(r.phase.Admitted? && r.inst == inst) }
  function TokensAt(c: Config, inst: int): Req -> int {
    (r: Req) => if r.phase.Admitted? && r.inst == inst then Tokens(c, r.est) else 0
  }
  function HoldsAt(inst: int): Req -> int { (r: Req) => One(Holds(r.phase) && r.inst == inst) }

  predicate LocalRPMFull(c: Config, s: Sys, inst: int) {
    c.rpm > 0 && SumBy(s.reqs, AdmittedAt(inst)) >= c.rpm
  }
  predicate LocalTPMFull(c: Config, s: Sys, inst: int, est: int) {
    c.tpm > 0 && est > 0 && KeyAdmission.TokenCheckDenies(Wrap64(SumBy(s.reqs, TokensAt(c, inst))), est, c.tpm)
  }

  /** The rollback script: a non-positive total drops the key. */
  function Rollback(count: int, delta: int): nat {
    if count - delta <= 0 then 0 else count - delta
  }

  /** What one atomic step of a request makes of its phase and of the two counts. */
  datatype Outcome = Outcome(phase: Phase, rpmCount: int, tpmCount: int)

  function Next(c: Config, s: Sys, r: Req): Outcome {
    var stay := Outcome(r.phase, s.rpmCount, s.tpmCount);
    match r.phase
    case Arrived =>
      if !UsesShared(c, r.est) then
        if LocalRPMFull(c, s, r.inst) then stay.(phase := DeniedRPM)
        else if LocalTPMFull(c, s, r.inst, r.est) then stay.(phase := DeniedTPM(false))
        else stay.(phase := Admitted)
      else if SumBy(s.reqs, HoldsAt(r.inst)) == 0 then stay.(phase := Locked)
      else stay
    case Locked =>
      if UsesRPM(c) then
        var n := s.rpmCount + 1;
        stay.(rpmCount := n, phase := if n > c.rpm then RpmOver else RpmPassed)
      else if LocalRPMFull(c, s, r.inst) then stay.(phase := DeniedRPM)
      else stay.(phase := RpmPassed)
    case RpmOver => stay.(rpmCount := Rollback(s.rpmCount, 1), phase := DeniedRPM)
    case RpmPassed =>
      if UsesTPM(c, r.est) then
        var n := s.tpmCount + r.est;
        stay.(tpmCount := n, phase := if n > c.tpm then TpmOver else TpmPassed)
      else stay.(phase := TpmPassed)
    case TpmOver =>
      stay.(tpmCount := Rollback(s.tpmCount, r.est), phase := if UsesRPM(c) then TpmRolledBack else DeniedTPM(false))
    case TpmRolledBack => stay.(rpmCount := Rollback(s.rpmCount, 1), phase := DeniedTPM(false))
    case TpmPassed =>
      if !UsesTPM(c, r.est) && LocalTPMFull(c, s, r.inst, r.est) then stay.(phase := DeniedTPM(UsesRPM(c)))
      else stay.(phase := Admitted)
    case _ => stay
  }

  /** The next step of request `i`; a finished or blocked request stays where it is. */
  function Advanced(c: Config, s: Sys, i: nat): Sys
    requires i < |s.reqs|
  {
    var next := Next(c, s, s.reqs[i]);
    Sys(next.rpmCount, next.tpmCount, s.reqs[i := s.reqs[i].(phase := next.phase)])
  }

  function Step(c: Config, s: Sys, e: Event): Sys {
    match e
    case Arrive(inst, est) => s.(reqs := s.reqs + [Req(inst, est, Arrived)])
    case Advance(i) => if 0 <= i < |s.reqs| then Advanced(c, s, i) else s
  }

  function Run(c: Config, events: seq<Event>): Sys {
    if events == [] then Sys(0, 0, [])
    else Step(c, Run(c, events[..|events| - 1]), events[|events| - 1])
  }

  /** No estimate overflows int64 on top of a full window. */
  ghost predicate EstimatesFit(c: Config, events: seq<Event>) {
    c.tpm <= MAX_INT64 && forall e :: e in events && e.Arrive? ==> e.est <= MAX_INT64 - c.tpm
  }

  /** Every request takes the same path: none or all use the TPM counter. */
  ghost predicate Uniform(c: Config, events: seq<Event>) {
    forall e, f :: e in events && f in events && e.Arrive? && f.Arrive? ==> UsesTPM(c, e.est) == UsesTPM(c, f.est)
  }

  // ---------- what the counters count ----------

  function IsAdmitted(): Req -> int { (r: Req) => One(r.phase.Admitted?) }
  function InFlight(): Req -> int { (r: Req) => One(r.phase.RpmOver? || PastRPM(r.phase)) }
  function LeftCounted(): Req -> int { (r: Req) => One(r.phase == DeniedTPM(true)) }
  function CountedRPM(): Req -> int {
    (r: Req) => One(r.phase.Admitted?) + One(r.phase.RpmOver? || PastRPM(r.phase)) + One(r.phase == DeniedTPM(true))
  }

  function AdmittedTokens(c: Config): Req -> int { (r: Req) => if r.phase.Admitted? then Tokens(c, r.est) else 0 }
  function TokensInFlight(c: Config): Req -> int {
    (r: Req) => if r.phase.TpmOver? || r.phase.TpmPassed? then Tokens(c, r.est) else 0
  }
  function CountedTokens(c: Config): Req -> int {
    (r: Req) => if r.phase.Admitted? || r.phase.TpmOver? || r.phase.TpmPassed? then Tokens(c, r.est) else 0
  }

  // Reservations that were inside the limit when they were made.
  function GrantedRPM(): Req -> int {
    (r: Req) => One(r.phase.Admitted? || PastRPM(r.phase) || r.phase == DeniedTPM(true))
  }
  function GrantedTokens(c: Config): Req -> int {
    (r: Req) => if r.phase.Admitted? || r.phase.TpmPassed? then Tokens(c, r.est) else 0
  }
  function AdmittedOrPast(inst: int): Req -> int {
    (r: Req) => One((r.phase.Admitted? || PastRPM(r.phase)) && r.inst == inst)
  }

  ghost predicate TokensShared(c: Config) { c.tpm > 0 && c.tpmCounter }

  ghost predicate Coherent(c: Config, r: Req) {
    && (Holds(r.phase) ==> UsesShared(c, r.est))
    && (r.phase.TpmOver? ==> UsesTPM(c, r.est))
    && (r.phase.RpmOver? || r.phase.TpmRolledBack? || r.phase == DeniedTPM(true) ==> UsesRPM(c))
    && (r.phase == DeniedTPM(true) ==> !UsesTPM(c, r.est))
    && r.est <= MAX_INT64 - c.tpm
  }

  /** The counters are what the requests account for. */
  ghost predicate Counts(c: Config, s: Sys) {
    && s.rpmCount == (if UsesRPM(c) then SumBy(s.reqs, CountedRPM()) else 0)
    && s.tpmCount == (if TokensShared(c) then SumBy(s.reqs, CountedTokens(c)) else 0)
  }

  ghost predicate SharedBounds(c: Config, s: Sys) {
    && (UsesRPM(c) ==> SumBy(s.reqs, GrantedRPM()) <= c.rpm)
    && (TokensShared(c) ==> SumBy(s.reqs, GrantedTokens(c)) <= c.tpm)
  }

  /** `slack` is 1 when requests of both paths mix, else 0. */
  ghost predicate LocalBounds(c: Config, s: Sys, slack: nat, inst: int) {
    && SumBy(s.reqs, HoldsAt(inst)) <= 1
    && (c.rpm > 0 && !c.rpmCounter ==> SumBy(s.reqs, AdmittedOrPast(inst)) <= c.rpm + slack)
    && (c.tpm > 0 && !c.tpmCounter ==> SumBy(s.reqs, TokensAt(c, inst)) <= c.tpm)
  }

  ghost predicate SamePath(c: Config, s: Sys) {
    forall q, r :: q in s.reqs && r in s.reqs ==> UsesTPM(c, q.est) == UsesTPM(c, r.est)
  }

  ghost predicate Inv(c: Config, s: Sys, slack: nat) {
    && c.tpm <= MAX_INT64
    && (forall r :: r in s.reqs ==> Coherent(c, r))
    && Counts(c, s) && SharedBounds(c, s)
    && (forall inst :: LocalBounds(c, s, slack, inst))
    && (slack == 0 ==> SamePath(c, s))
  }

  // ---------- one step ----------

  /** One request's move shifts each sum by that request's change of weight. */
  lemma Moved(c: Config, s: Sys, i: nat, w: Req -> int)
    requires i < |s.reqs|
    ensures SumBy(Advanced(c, s, i).reqs, w) ==
            SumBy(s.reqs, w) - w(s.reqs[i]) + w(s.reqs[i].(phase := Next(c, s, s.reqs[i]).phase))
  {
    SumUpdate(s.reqs, i, s.reqs[i].(phase := Next(c, s, s.reqs[i]).phase), w);
  }

  /** A counted reservation can always be rolled back in full: the floor at 0 is never hit. */
  lemma RollbackIsExact(c: Config, s: Sys, i: nat, slack: nat)
    requires Inv(c, s, slack) && i < |s.reqs|
    ensures s.reqs[i].phase.RpmOver? || s.reqs[i].phase.TpmRolledBack? ==> Rollback(s.rpmCount, 1) == s.rpmCount - 1
    ensures s.reqs[i].phase.TpmOver? ==> Rollback(s.tpmCount, s.reqs[i].est) == s.tpmCount - s.reqs[i].est
  {
    assert Coherent(c, s.reqs[i]);
    SumPositive(s.reqs, i, CountedRPM());
    SumPositive(s.reqs, i, CountedTokens(c));
  }

  lemma CountsKept(c: Config, s: Sys, i: nat, slack: nat)
    requires Inv(c, s, slack) && i < |s.reqs|
    ensures Counts(c, Advanced(c, s, i))
  {
    var r := s.reqs[i];
    assert Coherent(c, r);
    RollbackIsExact(c, s, i, slack);
    Moved(c, s, i, CountedRPM());
    Moved(c, s, i, CountedTokens(c));
  }

  lemma GrantedIsCounted(c: Config, s: Sys)
    ensures SumBy(s.reqs, GrantedRPM()) <= SumBy(s.reqs, CountedRPM())
    ensures SumBy(s.reqs, GrantedTokens(c)) <= SumBy(s.reqs, CountedTokens(c))
  {
    SumLe(s.reqs, GrantedRPM(), CountedRPM());
    SumLe(s.reqs, GrantedTokens(c), CountedTokens(c));
  }

  lemma SharedBoundsKept(c: Config, s: Sys, i: nat, slack: nat)
    requires Inv(c, s, slack) && i < |s.reqs|
    ensures SharedBounds(c, Advanced(c, s, i))
  {
    var r := s.reqs[i];
    assert Coherent(c, r);
    GrantedIsCounted(c, s);
    Moved(c, s, i, GrantedRPM());
    Moved(c, s, i, GrantedTokens(c));
  }

  /** An admitted request weighs at least its own part of "admitted or past the RPM check". */
  lemma LocalCounts(c: Config, s: Sys, inst: int)
    ensures SumBy(s.reqs, AdmittedOrPast(inst)) <= SumBy(s.reqs, AdmittedAt(inst)) + SumBy(s.reqs, HoldsAt(inst))
    ensures SumBy(s.reqs, AdmittedAt(inst)) <= SumBy(s.reqs, AdmittedOrPast(inst))
    ensures 0 <= SumBy(s.reqs, TokensAt(c, inst)) && 0 <= SumBy(s.reqs, AdmittedAt(inst))
  {
    SumLe(s.reqs, AdmittedAt(inst), AdmittedOrPast(inst));
    SumNonNegative(s.reqs, TokensAt(c, inst));
    SumNonNegative(s.reqs, AdmittedAt(inst));
    AdmittedPlusHolds(s.reqs, inst);
  }

  lemma {:induction false} AdmittedPlusHolds(reqs: seq<Req>, inst: int)
    ensures SumBy(reqs, AdmittedOrPast(inst)) <= SumBy(reqs, AdmittedAt(inst)) + SumBy(reqs, HoldsAt(inst))
  {
    if reqs != [] {
      AdmittedPlusHolds(reqs[..|reqs| - 1], inst);
    }
  }

  /** The holder of the mutex is alone, so besides it only admitted requests weigh. */
  lemma {:induction false} HolderIsAlone(reqs: seq<Req>, i: nat, inst: int)
    requires i < |reqs| && reqs[i].phase.Locked? && reqs[i].inst == inst && SumBy(reqs, HoldsAt(inst)) <= 1
    ensures SumBy(reqs, AdmittedOrPast(inst)) == SumBy(reqs, AdmittedAt(inst))
  {
    SumSplit(reqs, i, HoldsAt(inst));
    NoHolder(reqs[..i], inst);
    NoHolder(reqs[i + 1..], inst);
    SumSplit(reqs, i, AdmittedAt(inst));
    SumSplit(reqs, i, AdmittedOrPast(inst));
  }

  lemma {:induction false} NoHolder(reqs: seq<Req>, inst: int)
    ensures SumBy(reqs, HoldsAt(inst)) >= 0
    ensures SumBy(reqs, HoldsAt(inst)) == 0 ==> SumBy(reqs, AdmittedOrPast(inst)) == SumBy(reqs, AdmittedAt(inst))
  {
    if reqs != [] {
      NoHolder(reqs[..|reqs| - 1], inst);
    }
  }

  /** On one common path, a request that skips the counters means nobody holds the mutex. */
  lemma NobodyHolds(c: Config, s: Sys, i: nat, inst: int)
    requires Inv(c, s, 0) && i < |s.reqs| && !UsesShared(c, s.reqs[i].est)
    ensures SumBy(s.reqs, HoldsAt(inst)) == 0
  {
    forall r | r in s.reqs ensures HoldsAt(inst)(r) == 0 {
      assert Coherent(c, r);
      assert s.reqs[i] in s.reqs;
    }
    SumZero(s.reqs, HoldsAt(inst));
  }

  lemma TokenCheckIsExact(c: Config, s: Sys, i: nat, slack: nat)
    requires Inv(c, s, slack) && i < |s.reqs| && c.tpm > 0 && !c.tpmCounter
    ensures var r := s.reqs[i];
            LocalTPMFull(c, s, r.inst, r.est) <==> r.est > 0 && SumBy(s.reqs, TokensAt(c, r.inst)) + r.est > c.tpm
  {
    var r := s.reqs[i];
    assert Coherent(c, r);
    assert LocalBounds(c, s, slack, r.inst);
    LocalCounts(c, s, r.inst);
  }

  lemma MutexKept(c: Config, s: Sys, i: nat, slack: nat, inst: int)
    requires Inv(c, s, slack) && i < |s.reqs|
    ensures SumBy(Advanced(c, s, i).reqs, HoldsAt(inst)) <= 1
  {
    assert LocalBounds(c, s, slack, inst);
    SumPositive(s.reqs, i, HoldsAt(inst));
    Moved(c, s, i, HoldsAt(inst));
  }

  lemma LocalRequestsKept(c: Config, s: Sys, i: nat, slack: nat, inst: int)
    requires Inv(c, s, slack) && i < |s.reqs| && c.rpm > 0 && !c.rpmCounter
    ensures SumBy(Advanced(c, s, i).reqs, AdmittedOrPast(inst)) <= c.rpm + slack
  {
    var r := s.reqs[i];
    assert Coherent(c, r) && LocalBounds(c, s, slack, inst);
    LocalCounts(c, s, inst);
    if r.phase.Locked? && r.inst == inst {
      HolderIsAlone(s.reqs, i, inst);
    }
    if slack == 0 && !UsesShared(c, r.est) {
      NobodyHolds(c, s, i, inst);
    }
    Moved(c, s, i, AdmittedOrPast(inst));
  }

  lemma LocalTokensKept(c: Config, s: Sys, i: nat, slack: nat, inst: int)
    requires Inv(c, s, slack) && i < |s.reqs| && c.tpm > 0 && !c.tpmCounter
    ensures SumBy(Advanced(c, s, i).reqs, TokensAt(c, inst)) <= c.tpm
  {
    assert LocalBounds(c, s, slack, inst);
    TokenCheckIsExact(c, s, i, slack);
    Moved(c, s, i, TokensAt(c, inst));
  }

  lemma AdvanceKeepsInv(c: Config, s: Sys, i: nat, slack: nat)
    requires Inv(c, s, slack) && i < |s.reqs|
    ensures Inv(c, Advanced(c, s, i), slack)
  {
    CountsKept(c, s, i, slack);
    SharedBoundsKept(c, s, i, slack);
    forall inst ensures LocalBounds(c, Advanced(c, s, i), slack, inst) {
      MutexKept(c, s, i, slack, inst);
      if c.rpm > 0 && !c.rpmCounter {
        LocalRequestsKept(c, s, i, slack, inst);
      }
      if c.tpm > 0 && !c.tpmCounter {
        LocalTokensKept(c, s, i, slack, inst);
      }
    }
    assert Coherent(c, s.reqs[i]);
    assert s.reqs[i] in s.reqs;
    var t := Advanced(c, s, i);
    forall r | r in t.reqs ensures Coherent(c, r) && exists q :: q in s.reqs && q.est == r.est {
      var k :| 0 <= k < |t.reqs| && t.reqs[k] == r;
      assert s.reqs[k] in s.reqs && s.reqs[k].est == r.est;
    }
  }

  lemma ArriveKeepsInv(c: Config, s: Sys, inst: int, est: int, slack: nat)
    requires Inv(c, s, slack) && est <= MAX_INT64 - c.tpm
    requires slack == 0 ==> forall r :: r in s.reqs ==> UsesTPM(c, r.est) == UsesTPM(c, est)
    ensures Inv(c, Step(c, s, Arrive(inst, est)), slack)
  {
    var r := Req(inst, est, Arrived);
    SumSnoc(s.reqs, r, CountedRPM());
    SumSnoc(s.reqs, r, CountedTokens(c));
    SumSnoc(s.reqs, r, GrantedRPM());
    SumSnoc(s.reqs, r, GrantedTokens(c));
    forall k ensures LocalBounds(c, Step(c, s, Arrive(inst, est)), slack, k) {
      assert LocalBounds(c, s, slack, k);
      SumSnoc(s.reqs, r, HoldsAt(k));
      SumSnoc(s.reqs, r, AdmittedOrPast(k));
      SumSnoc(s.reqs, r, TokensAt(c, k));
    }
  }

  lemma {:induction false} RequestsArrived(c: Config, events: seq<Event>)
    ensures forall r :: r in Run(c, events).reqs ==> Arrive(r.inst, r.est) in events
  {
    if events != [] {
      var init, e := events[..|events| - 1], events[|events| - 1];
      RequestsArrived(c, init);
      var s, t := Run(c, init), Run(c, events);
      assert e in events;
      forall r | r in t.reqs ensures Arrive(r.inst, r.est) in events {
        var k :| 0 <= k < |t.reqs| && t.reqs[k] == r;
        if k < |s.reqs| {
          assert s.reqs[k] in s.reqs;
          assert s.reqs[k].inst == r.inst && s.reqs[k].est == r.est;
        }
      }
    }
  }

  lemma {:induction false} RunKeepsInv(c: Config, events: seq<Event>, slack: nat)
    requires EstimatesFit(c, events) && (slack == 0 ==> Uniform(c, events))
    ensures Inv(c, Run(c, events), slack)
  {
    if events != [] {
      var init, e := events[..|events| - 1], events[|events| - 1];
      RunKeepsInv(c, init, slack);
      RequestsArrived(c, init);
      var s := Run(c, init);
      assert e in events;
      match e
      case Arrive(inst, est) => ArriveKeepsInv(c, s, inst, est, slack);
      case Advance(i) =>
        if 0 <= i < |s.reqs| {
          AdvanceKeepsInv(c, s, i, slack);
        }
    }
  }

  // ---------- theorems over every interleaving ----------

  /**
    The shared RPM count is the admitted requests, plus the reservations still in flight, plus the
    requests that the local TPM check denied after they were counted; the shared token count is the
    admitted tokens plus the tokens in flight.
  */
  lemma CountersAccountForEveryRequest(c: Config, events: seq<Event>)
    requires EstimatesFit(c, events)
    ensures var s := Run(c, events);
            UsesRPM(c) ==> s.rpmCount == SumBy(s.reqs, IsAdmitted()) + SumBy(s.reqs, InFlight()) + SumBy(s.reqs, LeftCounted())
    ensures var s := Run(c, events);
            TokensShared(c) ==> s.tpmCount == SumBy(s.reqs, AdmittedTokens(c)) + SumBy(s.reqs, TokensInFlight(c))
  {
    RunKeepsInv(c, events, 1);
    var reqs := Run(c, events).reqs;
    SplitCounted(reqs);
    SumAdd(reqs, AdmittedTokens(c), TokensInFlight(c), CountedTokens(c));
  }

  lemma {:induction false} SplitCounted(reqs: seq<Req>)
    ensures SumBy(reqs, CountedRPM()) == SumBy(reqs, IsAdmitted()) + SumBy(reqs, InFlight()) + SumBy(reqs, LeftCounted())
  {
    if reqs != [] {
      SplitCounted(reqs[..|reqs| - 1]);
    }
  }

  /** Across all instances, requests and tokens admitted under a shared counter stay within its limit. */
  lemma SharedLimitsHold(c: Config, events: seq<Event>)
    requires EstimatesFit(c, events)
    ensures var s := Run(c, events);
            UsesRPM(c) ==> SumBy(s.reqs, IsAdmitted()) + SumBy(s.reqs, LeftCounted()) <= c.rpm
    ensures var s := Run(c, events);
            TokensShared(c) ==> SumBy(s.reqs, AdmittedTokens(c)) <= c.tpm
  {
    RunKeepsInv(c, events, 1);
    var reqs := Run(c, events).reqs;
    AdmittedIsGranted(reqs);
    SumLe(reqs, AdmittedTokens(c), GrantedTokens(c));
  }

  lemma {:induction false} AdmittedIsGranted(reqs: seq<Req>)
    ensures SumBy(reqs, IsAdmitted()) + SumBy(reqs, LeftCounted()) <= SumBy(reqs, GrantedRPM())
  {
    if reqs != [] {
      AdmittedIsGranted(reqs[..|reqs| - 1]);
    }
  }

  /**
    Without a shared counter the limit is per instance. Tokens never exceed it. Requests never
    exceed it when all requests take the same path, and exceed it by at most one otherwise.
  */
  lemma LocalLimitsHold(c: Config, events: seq<Event>, inst: int)
    requires EstimatesFit(c, events)
    ensures var s := Run(c, events);
            c.tpm > 0 && !c.tpmCounter ==> SumBy(s.reqs, TokensAt(c, inst)) <= c.tpm
    ensures var s := Run(c, events);
            c.rpm > 0 && !c.rpmCounter ==> SumBy(s.reqs, AdmittedAt(inst)) <= c.rpm + 1
    ensures var s := Run(c, events);
            c.rpm > 0 && !c.rpmCounter && Uniform(c, events) ==> SumBy(s.reqs, AdmittedAt(inst)) <= c.rpm
  {
    RunKeepsInv(c, events, 1);
    assert LocalBounds(c, Run(c, events), 1, inst);
    LocalCounts(c, Run(c, events), inst);
    if Uniform(c, events) {
      RunKeepsInv(c, events, 0);
      assert LocalBounds(c, Run(c, events), 0, inst);
    }
  }

  /** With nothing else in flight, the shared RPM verdict is exact in the requests that occupy the window. */
  lemma QuietVerdictIsExact(c: Config, events: seq<Event>, i: nat)
    requires EstimatesFit(c, events) && UsesRPM(c) && i < |Run(c, events).reqs|
    requires var s := Run(c, events); s.reqs[i].phase.Locked? && SumBy(s.reqs, InFlight()) == 0
    ensures var s := Run(c, events);
            Next(c, s, s.reqs[i]).phase.RpmPassed? <==>
            SumBy(s.reqs, IsAdmitted()) + SumBy(s.reqs, LeftCounted()) < c.rpm
  {
    CountersAccountForEveryRequest(c, events);
  }

  lemma {:induction false} RunSnoc(c: Config, events: seq<Event>, e: Event)
    ensures Run(c, events + [e]) == Step(c, Run(c, events), e)
  {
    assert (events + [e])[..|events|] == events;
  }
}
