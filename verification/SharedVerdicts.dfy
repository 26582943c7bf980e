/** Every step of the shared gate is exact in the requests of the run (`auth/key_admission.go`, `Allow`). */
module SharedVerdicts {
  // Each lemma gives the whole outcome of one phase after every interleaving, in sums over the requests:
  // a step goes on if and only if the window has room, and every other step is the rollback it owes.
  import opened Seqs
  import opened Int64
  import opened SharedAdmission

  /** The phase of request `i` once it has taken its next step. */
  function After(c: Config, events: seq<Event>, i: nat): Phase
    requires i < |Run(c, events).reqs|
  {
    RunSnoc(c, events, Advance(i));
    Run(c, events + [Advance(i)]).reqs[i].phase
  }

  /** What the sums of this module count: admitted requests and their tokens, of one instance or of all, and shares in flight. */
  lemma WhatIsCounted(c: Config, r: Req, inst: int)
    ensures var admitted, est := r.phase == Admitted, if r.est > 0 && c.tpm > 0 then r.est else 0;
            && IsAdmitted()(r) == (if admitted then 1 else 0)
            && AdmittedAt(inst)(r) == (if admitted && r.inst == inst then 1 else 0)
            && AdmittedTokens(c)(r) == (if admitted then est else 0)
            && TokensAt(c, inst)(r) == (if admitted && r.inst == inst then est else 0)
            && TokensInFlight(c)(r) == (if r.phase == TpmOver || r.phase == TpmPassed then est else 0)
            && LeftCounted()(r) == (if r.phase == DeniedTPM(true) then 1 else 0)
            && InFlight()(r) == (if r.phase in {RpmOver, RpmPassed, TpmOver, TpmRolledBack, TpmPassed} then 1 else 0)
  {}

  /** A step moves one request's phase and nothing else of any request. */
  lemma StepMovesOneRequest(c: Config, events: seq<Event>, i: nat)
    requires i < |Run(c, events).reqs|
    ensures var s, t := Run(c, events).reqs, Run(c, events + [Advance(i)]).reqs;
            && |t| == |s| && t[i].inst == s[i].inst && t[i].est == s[i].est
            && forall j :: 0 <= j < |s| && j != i ==> t[j] == s[j]
    ensures var s := Run(c, events);
            s.reqs[i].phase.Admitted? || s.reqs[i].phase.DeniedRPM? || s.reqs[i].phase.DeniedTPM? ==>
            Run(c, events + [Advance(i)]) == s
  {
    RunSnoc(c, events, Advance(i));
    var s := Run(c, events);
    assert s.reqs[i := s.reqs[i]] == s.reqs;
  }

  lemma MemoryOnlyStep(c: Config, s: Sys, i: nat)
    requires Inv(c, s, 1) && i < |s.reqs| && s.reqs[i].phase.Arrived? && !UsesShared(c, s.reqs[i].est)
    ensures var r := s.reqs[i];
            var rpmFull := c.rpm > 0 && SumBy(s.reqs, AdmittedAt(r.inst)) >= c.rpm;
            var tpmFull := c.tpm > 0 && r.est > 0 && SumBy(s.reqs, TokensAt(c, r.inst)) + r.est > c.tpm;
            Next(c, s, r).phase == if rpmFull then DeniedRPM else if tpmFull then DeniedTPM(false) else Admitted
  {
    if c.tpm > 0 && s.reqs[i].est > 0 {
      TokenCheckIsExact(c, s, i, 1);
    }
  }

  /** Without a shared counter in use, the arriving request is decided at once by its own instance's log. */
  lemma MemoryOnlyVerdict(c: Config, events: seq<Event>, i: nat)
    requires EstimatesFit(c, events) && i < |Run(c, events).reqs|
    requires var r := Run(c, events).reqs[i];
             r.phase.Arrived? && !(c.rpm > 0 && c.rpmCounter) && !(c.tpm > 0 && r.est > 0 && c.tpmCounter)
    ensures var s := Run(c, events).reqs; var r := s[i];
            var rpmFull := c.rpm > 0 && SumBy(s, AdmittedAt(r.inst)) >= c.rpm;
            var tpmFull := c.tpm > 0 && r.est > 0 && SumBy(s, TokensAt(c, r.inst)) + r.est > c.tpm;
            && (After(c, events, i) == Admitted <==> !rpmFull && !tpmFull)
            && (After(c, events, i) == DeniedRPM <==> rpmFull)
            && (After(c, events, i) == DeniedTPM(false) <==> !rpmFull && tpmFull)
  {
    RunKeepsInv(c, events, 1);
    RunSnoc(c, events, Advance(i));
    MemoryOnlyStep(c, Run(c, events), i);
  }

  /** Outside of any call: not yet begun, or finished. */
  ghost predicate Idle(p: Phase) { p.Arrived? || p.Admitted? || p.DeniedRPM? || p.DeniedTPM? }

  ghost predicate Free(reqs: seq<Req>, inst: int) { forall r :: r in reqs && r.inst == inst ==> Idle(r.phase) }

  lemma {:induction false} FreeIsUnheld(reqs: seq<Req>, inst: int)
    ensures Free(reqs, inst) <==> SumBy(reqs, HoldsAt(inst)) == 0
    ensures SumBy(reqs, HoldsAt(inst)) >= 0
  {
    if reqs != [] {
      FreeIsUnheld(reqs[..|reqs| - 1], inst);
    }
  }

  /** With a shared counter in use, the request takes its instance's mutex exactly when nobody there is in flight. */
  lemma MutexIsTakenWhenFree(c: Config, events: seq<Event>, i: nat)
    requires i < |Run(c, events).reqs|
    requires var r := Run(c, events).reqs[i];
             r.phase.Arrived? && ((c.rpm > 0 && c.rpmCounter) || (c.tpm > 0 && r.est > 0 && c.tpmCounter))
    ensures var s := Run(c, events).reqs; After(c, events, i) == if Free(s, s[i].inst) then Locked else Arrived
  {
    RunSnoc(c, events, Advance(i));
    FreeIsUnheld(Run(c, events).reqs, Run(c, events).reqs[i].inst);
  }

  /** The request verdict: the shared count while it is in use, else the log of the instance. */
  lemma RequestVerdict(c: Config, events: seq<Event>, i: nat)
    requires EstimatesFit(c, events) && i < |Run(c, events).reqs| && Run(c, events).reqs[i].phase.Locked?
    ensures var s := Run(c, events).reqs;
            c.rpm > 0 && c.rpmCounter ==>
              var taken := SumBy(s, IsAdmitted()) + SumBy(s, InFlight()) + SumBy(s, LeftCounted());
              After(c, events, i) == if taken < c.rpm then RpmPassed else RpmOver
    ensures var s := Run(c, events).reqs;
            c.rpm == 0 || !c.rpmCounter ==>
              After(c, events, i) == if c.rpm == 0 || SumBy(s, AdmittedAt(s[i].inst)) < c.rpm then RpmPassed else DeniedRPM
  {
    CountersAccountForEveryRequest(c, events);
    RunSnoc(c, events, Advance(i));
  }

  /** The token verdict: a request that uses the shared count passes if and only if its estimate still fits. */
  lemma TokenVerdict(c: Config, events: seq<Event>, i: nat)
    requires EstimatesFit(c, events) && i < |Run(c, events).reqs| && Run(c, events).reqs[i].phase.RpmPassed?
    ensures var s := Run(c, events).reqs; var est := s[i].est;
            c.tpm > 0 && est > 0 && c.tpmCounter ==>
              var taken := SumBy(s, AdmittedTokens(c)) + SumBy(s, TokensInFlight(c));
              After(c, events, i) == if taken + est <= c.tpm then TpmPassed else TpmOver
    ensures var est := Run(c, events).reqs[i].est;
            c.tpm == 0 || est <= 0 || !c.tpmCounter ==> After(c, events, i) == TpmPassed
  {
    CountersAccountForEveryRequest(c, events);
    RunSnoc(c, events, Advance(i));
  }

  lemma FinalStep(c: Config, s: Sys, i: nat)
    requires Inv(c, s, 1) && i < |s.reqs| && s.reqs[i].phase.TpmPassed?
    ensures var r := s.reqs[i];
            var full := c.tpm > 0 && r.est > 0 && !c.tpmCounter && SumBy(s.reqs, TokensAt(c, r.inst)) + r.est > c.tpm;
            Next(c, s, r).phase == if full then DeniedTPM(UsesRPM(c)) else Admitted
  {
    if c.tpm > 0 && !c.tpmCounter {
      TokenCheckIsExact(c, s, i, 1);
    }
  }

  /** The last hold: shared tokens are already granted; local tokens are decided by the instance's log. */
  lemma FinalVerdict(c: Config, events: seq<Event>, i: nat)
    requires EstimatesFit(c, events) && i < |Run(c, events).reqs| && Run(c, events).reqs[i].phase.TpmPassed?
    ensures var s := Run(c, events).reqs; var r := s[i];
            var full := c.tpm > 0 && r.est > 0 && !c.tpmCounter && SumBy(s, TokensAt(c, r.inst)) + r.est > c.tpm;
            After(c, events, i) == if full then DeniedTPM(c.rpm > 0 && c.rpmCounter) else Admitted
  {
    RunKeepsInv(c, events, 1);
    RunSnoc(c, events, Advance(i));
    FinalStep(c, Run(c, events), i);
  }

  /** What a request beyond a limit was counted for is taken back in full before its denial. */
  lemma OverLimitIsRolledBack(c: Config, events: seq<Event>, i: nat)
    requires EstimatesFit(c, events) && i < |Run(c, events).reqs|
    ensures var s, t := Run(c, events), Run(c, events + [Advance(i)]);
            s.reqs[i].phase.RpmOver? ==>
              After(c, events, i) == DeniedRPM && t.rpmCount == s.rpmCount - 1 && t.tpmCount == s.tpmCount
    ensures var s, t := Run(c, events), Run(c, events + [Advance(i)]);
            s.reqs[i].phase.TpmOver? ==>
              && After(c, events, i) == (if c.rpm > 0 && c.rpmCounter then TpmRolledBack else DeniedTPM(false))
              && t.rpmCount == s.rpmCount && t.tpmCount == s.tpmCount - s.reqs[i].est
    ensures var s, t := Run(c, events), Run(c, events + [Advance(i)]);
            s.reqs[i].phase.TpmRolledBack? ==>
              After(c, events, i) == DeniedTPM(false) && t.rpmCount == s.rpmCount - 1 && t.tpmCount == s.tpmCount
  {
    RunKeepsInv(c, events, 1);
    RunSnoc(c, events, Advance(i));
    RollbackIsExact(c, Run(c, events), i, 1);
  }

  // ---------- a whole call ----------

  /** Request `i` takes its next `n` steps while nobody else moves. */
  function Alone(events: seq<Event>, i: nat, n: nat): seq<Event>
    decreases n
  {
    if n == 0 then events else Alone(events + [Advance(i)], i, n - 1)
  }

  /** Room for a request when only finished requests weigh. */
  predicate RequestRoom(c: Config, s: seq<Req>, r: Req) {
    c.rpm == 0 || c.rpm > (if c.rpmCounter then SumBy(s, IsAdmitted()) + SumBy(s, LeftCounted()) else SumBy(s, AdmittedAt(r.inst)))
  }
  predicate TokenRoom(c: Config, s: seq<Req>, r: Req) {
    c.tpm == 0 || r.est <= 0 ||
    c.tpm >= r.est + (if c.tpmCounter then SumBy(s, AdmittedTokens(c)) else SumBy(s, TokensAt(c, r.inst)))
  }

  function Verdict(c: Config, s: seq<Req>, r: Req): Phase {
    if !RequestRoom(c, s, r) then DeniedRPM
    else if !TokenRoom(c, s, r) then DeniedTPM(c.rpm > 0 && c.rpmCounter && !c.tpmCounter)
    else Admitted
  }

  /** The verdict that request `r`, at phase `p`, is on its way to. */
  ghost function Ahead(c: Config, s: seq<Req>, r: Req, p: Phase): Phase {
    match p
    case Arrived => Verdict(c, s, r)
    case Locked => Verdict(c, s, r)
    case RpmPassed => if TokenRoom(c, s, r) then Admitted else DeniedTPM(c.rpm > 0 && c.rpmCounter && !c.tpmCounter)
    case TpmPassed => if c.tpmCounter || TokenRoom(c, s, r) then Admitted else DeniedTPM(c.rpm > 0 && c.rpmCounter)
    case RpmOver => DeniedRPM
    case TpmOver => DeniedTPM(false)
    case TpmRolledBack => DeniedTPM(false)
    case _ => p
  }

  ghost function StepsLeft(p: Phase): nat {
    match p
    case Arrived => 5
    case Locked => 4
    case RpmPassed => 3
    case TpmOver => 2
    case RpmOver => 1
    case TpmRolledBack => 1
    case TpmPassed => 1
    case _ => 0
  }

  /** A run in which nobody but request `i` is inside a call; it is at phase `p`, the others stand as in `s`. */
  ghost predicate At(c: Config, events: seq<Event>, s: seq<Req>, i: nat, p: Phase) {
    && EstimatesFit(c, events) && i < |s| && s[i].phase.Arrived?
    && (forall r :: r in s ==> Idle(r.phase))
    && Run(c, events).reqs == s[i := s[i].(phase := p)]
  }

  /** Moving one request through the middle of its call changes only its own in-flight share. */
  lemma Midway(c: Config, s: seq<Req>, i: nat, p: Phase)
    requires i < |s| && s[i].phase.Arrived? && (p.Arrived? || Holds(p)) && forall r :: r in s ==> Idle(r.phase)
    ensures var t, inst := s[i := s[i].(phase := p)], s[i].inst;
            && SumBy(t, IsAdmitted()) == SumBy(s, IsAdmitted()) && SumBy(t, LeftCounted()) == SumBy(s, LeftCounted())
            && SumBy(t, AdmittedAt(inst)) == SumBy(s, AdmittedAt(inst))
            && SumBy(t, AdmittedTokens(c)) == SumBy(s, AdmittedTokens(c))
            && SumBy(t, TokensAt(c, inst)) == SumBy(s, TokensAt(c, inst))
            && SumBy(t, InFlight()) == InFlight()(t[i]) && SumBy(t, TokensInFlight(c)) == TokensInFlight(c)(t[i])
  {
    var x := s[i].(phase := p);
    SumUpdate(s, i, x, IsAdmitted());
    SumUpdate(s, i, x, LeftCounted());
    SumUpdate(s, i, x, AdmittedAt(x.inst));
    SumUpdate(s, i, x, AdmittedTokens(c));
    SumUpdate(s, i, x, TokensAt(c, x.inst));
    SumUpdate(s, i, x, InFlight());
    SumUpdate(s, i, x, TokensInFlight(c));
    SumZero(s, InFlight());
    SumZero(s, TokensInFlight(c));
  }

  lemma SumsAt(c: Config, events: seq<Event>, s: seq<Req>, i: nat, p: Phase)
    requires At(c, events, s, i, p) && Holds(p)
    ensures var t, inst := Run(c, events).reqs, s[i].inst;
            && i < |t| && t[i] == s[i].(phase := p)
            && SumBy(t, IsAdmitted()) == SumBy(s, IsAdmitted()) && SumBy(t, LeftCounted()) == SumBy(s, LeftCounted())
            && SumBy(t, AdmittedAt(inst)) == SumBy(s, AdmittedAt(inst))
            && SumBy(t, AdmittedTokens(c)) == SumBy(s, AdmittedTokens(c))
            && SumBy(t, TokensAt(c, inst)) == SumBy(s, TokensAt(c, inst))
            && SumBy(t, InFlight()) == InFlight()(t[i]) && SumBy(t, TokensInFlight(c)) == TokensInFlight(c)(t[i])
  {
    Midway(c, s, i, p);
  }

  lemma StepsAt(c: Config, events: seq<Event>, s: seq<Req>, i: nat, p: Phase)
    requires At(c, events, s, i, p)
    ensures At(c, events + [Advance(i)], s, i, After(c, events, i))
  {
    StepMovesOneRequest(c, events, i);
    assert forall e :: e in events + [Advance(i)] && e.Arrive? ==> e in events;
  }

  lemma ArrivedIsAhead(c: Config, events: seq<Event>, s: seq<Req>, i: nat)
    requires At(c, events, s, i, Arrived)
    ensures var q := After(c, events, i); Ahead(c, s, s[i], q) == Verdict(c, s, s[i]) && StepsLeft(q) <= 4
  {
    assert s[i := s[i].(phase := Arrived)] == s;
    if UsesShared(c, s[i].est) {
      MutexIsTakenWhenFree(c, events, i);
    } else {
      MemoryOnlyVerdict(c, events, i);
    }
  }

  lemma LockedIsAhead(c: Config, events: seq<Event>, s: seq<Req>, i: nat)
    requires At(c, events, s, i, Locked)
    ensures var q := After(c, events, i); Ahead(c, s, s[i], q) == Verdict(c, s, s[i]) && StepsLeft(q) <= 3
  {
    SumsAt(c, events, s, i, Locked);
    RequestVerdict(c, events, i);
  }

  lemma RpmPassedIsAhead(c: Config, events: seq<Event>, s: seq<Req>, i: nat)
    requires At(c, events, s, i, RpmPassed)
    ensures var q := After(c, events, i); Ahead(c, s, s[i], q) == Ahead(c, s, s[i], RpmPassed) && StepsLeft(q) <= 2
  {
    SumsAt(c, events, s, i, RpmPassed);
    TokenVerdict(c, events, i);
  }

  lemma TpmPassedIsAhead(c: Config, events: seq<Event>, s: seq<Req>, i: nat)
    requires At(c, events, s, i, TpmPassed)
    ensures var q := After(c, events, i); Ahead(c, s, s[i], q) == Ahead(c, s, s[i], TpmPassed) && StepsLeft(q) == 0
  {
    SumsAt(c, events, s, i, TpmPassed);
    FinalVerdict(c, events, i);
  }

  lemma StepStaysAhead(c: Config, events: seq<Event>, s: seq<Req>, i: nat, p: Phase)
    requires At(c, events, s, i, p)
    ensures var q := After(c, events, i);
            Ahead(c, s, s[i], q) == Ahead(c, s, s[i], p) && (if StepsLeft(p) == 0 then q == p else StepsLeft(q) < StepsLeft(p))
  {
    match p
    case Arrived => ArrivedIsAhead(c, events, s, i);
    case Locked => LockedIsAhead(c, events, s, i);
    case RpmPassed => RpmPassedIsAhead(c, events, s, i);
    case TpmPassed => TpmPassedIsAhead(c, events, s, i);
    case RpmOver => OverLimitIsRolledBack(c, events, i);
    case TpmOver => OverLimitIsRolledBack(c, events, i);
    case TpmRolledBack => OverLimitIsRolledBack(c, events, i);
    case _ => StepMovesOneRequest(c, events, i);
  }

  lemma Progress(c: Config, events: seq<Event>, s: seq<Req>, i: nat, p: Phase) returns (q: Phase)
    requires At(c, events, s, i, p)
    ensures At(c, events + [Advance(i)], s, i, q)
    ensures Ahead(c, s, s[i], q) == Ahead(c, s, s[i], p) && (if StepsLeft(p) == 0 then q == p else StepsLeft(q) < StepsLeft(p))
  {
    StepsAt(c, events, s, i, p);
    StepStaysAhead(c, events, s, i, p);
    q := After(c, events, i);
  }

  lemma {:induction false} ArrivesAhead(c: Config, events: seq<Event>, s: seq<Req>, i: nat, p: Phase, n: nat)
    requires At(c, events, s, i, p) && StepsLeft(p) <= n
    ensures At(c, Alone(events, i, n), s, i, Ahead(c, s, s[i], p))
    decreases n
  {
    if n > 0 {
      var q := Progress(c, events, s, i, p);
      ArrivesAhead(c, events + [Advance(i)], s, i, q, n - 1);
    }
  }

  /**
    A whole call made while nobody else is inside one, after any run: within five steps the request is
    admitted if and only if both limits have room for it beside the finished requests, and no other
    request has moved.
  */
  lemma QuietCallIsExact(c: Config, events: seq<Event>, i: nat)
    requires EstimatesFit(c, events) && i < |Run(c, events).reqs| && Run(c, events).reqs[i].phase.Arrived?
    requires forall r :: r in Run(c, events).reqs ==> Idle(r.phase)
    ensures var s := Run(c, events).reqs;
            Run(c, Alone(events, i, 5)).reqs == s[i := s[i].(phase := Verdict(c, s, s[i]))]
  {
    var s := Run(c, events).reqs;
    assert s[i := s[i].(phase := Arrived)] == s;
    ArrivesAhead(c, events, s, i, Arrived, 5);
  }
}
