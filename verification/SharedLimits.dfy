/** Exactly when the shared gate of `auth/key_admission.go` keeps its promises. */
module SharedLimits {
  // For which estimates a local request limit can be passed, and for which configurations a denied request
  // stays counted. Both failing sides come with a run for every such configuration.
  import opened Seqs
  import opened Int64
  import KeyAdmission
  import opened SharedAdmission

  // ---------- runs ending in a known request ----------

  /** The next step of the request at `i` leads to `r`. */
  lemma StepTo(c: Config, events: seq<Event>, s: Sys, i: nat, p: Phase, rpmCount: int, tpmCount: int)
    requires Run(c, events) == s && i < |s.reqs| && Next(c, s, s.reqs[i]) == Outcome(p, rpmCount, tpmCount)
    ensures Run(c, events + [Advance(i)]) == Sys(rpmCount, tpmCount, s.reqs[i := s.reqs[i].(phase := p)])
  {
    RunSnoc(c, events, Advance(i));
  }

  function Copies(n: nat, r: Req): (s: seq<Req>)
    ensures |s| == n && forall i :: 0 <= i < n ==> s[i] == r
  {
    seq(n, _ => r)
  }

  lemma CopiesSnoc(n: nat, r: Req)
    ensures Copies(n, r) + [r] == Copies(n + 1, r)
  {}

  lemma {:induction false} SumCopies(n: nat, r: Req, w: Req -> int)
    ensures SumBy(Copies(n, r), w) == n * w(r)
  {
    if n > 0 {
      SumCopies(n - 1, r, w);
      assert Copies(n, r)[..n - 1] == Copies(n - 1, r);
    }
  }

  lemma SumAround(n: nat, r: Req, x: Req, w: Req -> int)
    ensures SumBy(Copies(n, r) + [x], w) == n * w(r) + w(x)
  {
    SumCopies(n, r, w);
    SumSnoc(Copies(n, r), x, w);
  }

  lemma SumAroundTwo(n: nat, r: Req, x: Req, y: Req, w: Req -> int)
    ensures SumBy(Copies(n, r) + [x] + [y], w) == n * w(r) + w(x) + w(y)
  {
    SumAround(n, r, x, w);
    SumSnoc(Copies(n, r) + [x], y, w);
  }

  lemma LastChanges(front: seq<Req>, x: Req, y: Req)
    ensures (front + [x])[|front| := y] == front + [y]
  {}

  lemma InnerChanges(front: seq<Req>, x: Req, y: Req, last: Req)
    ensures (front + [x] + [last])[|front| := y] == front + [y] + [last]
  {}

  // ---------- estimates ----------

  ghost predicate DrawnFrom(events: seq<Event>, estimates: iset<int>) {
    forall e :: e in events && e.Arrive? ==> e.est in estimates
  }

  ghost predicate Representable(c: Config, estimates: iset<int>) {
    c.tpm <= MAX_INT64 && forall est :: est in estimates ==> est <= MAX_INT64 - c.tpm
  }

  /** A request that skips the token counter can meet one that the counter can admit. */
  ghost predicate Mixes(c: Config, estimates: iset<int>) {
    exists e0, e1 :: e0 in estimates && e1 in estimates && e0 <= 0 && 1 <= e1 <= c.tpm
  }

  ghost predicate KeepsLocalLimit(c: Config, estimates: iset<int>) {
    forall events, inst :: DrawnFrom(events, estimates) ==> SumBy(Run(c, events).reqs, AdmittedAt(inst)) <= c.rpm
  }

  // ---------- the limit holds ----------

  /** Requests that the token counter always refuses never pass it; the others decide under the shard lock. */
  ghost predicate OnlyMemoryAdmits(c: Config, s: Sys) {
    && (forall r :: r in s.reqs ==> (UsesTPM(c, r.est) ==> r.est > c.tpm && !r.phase.TpmPassed? && !r.phase.Admitted?))
    && forall inst :: SumBy(s.reqs, AdmittedAt(inst)) <= c.rpm
  }

  lemma AdvanceOnlyMemoryAdmits(c: Config, s: Sys, i: nat)
    requires c.rpm > 0 && !c.rpmCounter && Inv(c, s, 1) && OnlyMemoryAdmits(c, s) && i < |s.reqs|
    ensures OnlyMemoryAdmits(c, Advanced(c, s, i))
  {
    var r, t := s.reqs[i], Advanced(c, s, i);
    assert r in s.reqs && Coherent(c, r);
    SumNonNegative(s.reqs, CountedTokens(c));
    forall q | q in t.reqs ensures UsesTPM(c, q.est) ==> q.est > c.tpm && !q.phase.TpmPassed? && !q.phase.Admitted? {
      var k :| 0 <= k < |t.reqs| && t.reqs[k] == q;
      assert s.reqs[k] in s.reqs;
    }
    forall inst ensures SumBy(t.reqs, AdmittedAt(inst)) <= c.rpm {
      Moved(c, s, i, AdmittedAt(inst));
    }
  }

  lemma {:induction false} RunOnlyMemoryAdmits(c: Config, events: seq<Event>)
    requires c.rpm > 0 && !c.rpmCounter && EstimatesFit(c, events)
    requires forall e :: e in events && e.Arrive? && UsesTPM(c, e.est) ==> e.est > c.tpm
    ensures OnlyMemoryAdmits(c, Run(c, events))
  {
    if events != [] {
      var init, e := events[..|events| - 1], events[|events| - 1];
      RunOnlyMemoryAdmits(c, init);
      RunKeepsInv(c, init, 1);
      assert e in events;
      var s := Run(c, init);
      match e
      case Arrive(inst, est) =>
        forall k ensures SumBy(Step(c, s, e).reqs, AdmittedAt(k)) <= c.rpm {
          SumSnoc(s.reqs, Req(inst, est, Arrived), AdmittedAt(k));
        }
      case Advance(i) =>
        if 0 <= i < |s.reqs| {
          AdvanceOnlyMemoryAdmits(c, s, i);
        }
    }
  }

  lemma UnmixedKeepsLimit(c: Config, estimates: iset<int>, events: seq<Event>, inst: int)
    requires c.rpm > 0 && !c.rpmCounter && Representable(c, estimates) && DrawnFrom(events, estimates)
    requires !(c.tpm > 0 && c.tpmCounter && Mixes(c, estimates))
    ensures SumBy(Run(c, events).reqs, AdmittedAt(inst)) <= c.rpm
  {
    assert EstimatesFit(c, events);
    if exists e0 :: e0 in estimates && e0 <= 0 {
      var e0 :| e0 in estimates && e0 <= 0;
      forall e | e in events && e.Arrive? && UsesTPM(c, e.est) ensures e.est > c.tpm {
        assert e0 in estimates && e.est in estimates;
      }
      RunOnlyMemoryAdmits(c, events);
    } else {
      assert Uniform(c, events);
      LocalLimitsHold(c, events, inst);
    }
  }

  // ---------- the limit is passed ----------

  lemma AdmittedCopies(n: nat, e0: int)
    ensures SumBy(Copies(n, Req(0, e0, Admitted)), AdmittedAt(0)) == n
  {
    SumCopies(n, Req(0, e0, Admitted), AdmittedAt(0));
  }

  /** `n` requests without a token estimate, all admitted by one instance. */
  lemma {:induction false} FillLocally(c: Config, e0: int, n: nat) returns (events: seq<Event>)
    requires !c.rpmCounter && n <= c.rpm && e0 <= 0
    ensures Run(c, events) == Sys(0, 0, Copies(n, Req(0, e0, Admitted)))
    ensures forall e :: e in events && e.Arrive? ==> e.est == e0
  {
    if n == 0 {
      events := [];
      assert Copies(0, Req(0, e0, Admitted)) == [];
    } else {
      var before := FillLocally(c, e0, n - 1);
      var front := Copies(n - 1, Req(0, e0, Admitted));
      AdmittedCopies(n - 1, e0);
      events := JoinLocally(c, before, 0, 0, front, e0);
      CopiesSnoc(n - 1, Req(0, e0, Admitted));
    }
  }

  /** A request without tokens, while the local window has room, is admitted in one step. */
  lemma MemoryAdmits(c: Config, s: Sys, e0: int)
    requires !c.rpmCounter && e0 <= 0 && SumBy(s.reqs, AdmittedAt(0)) < c.rpm
    ensures Next(c, s, Req(0, e0, Arrived)) == Outcome(Admitted, s.rpmCount, s.tpmCount)
  {}

  /** One more such request joins, whatever the others are waiting for, while the local window has room. */
  lemma JoinLocally(c: Config, before: seq<Event>, rpmCount: int, tpmCount: int, front: seq<Req>, e0: int)
    returns (events: seq<Event>)
    requires !c.rpmCounter && e0 <= 0 && Run(c, before) == Sys(rpmCount, tpmCount, front)
    requires SumBy(front, AdmittedAt(0)) < c.rpm
    ensures Run(c, events) == Sys(rpmCount, tpmCount, front + [Req(0, e0, Admitted)])
    ensures events == before + [Arrive(0, e0)] + [Advance(|front|)]
  {
    var s := Sys(rpmCount, tpmCount, front + [Req(0, e0, Arrived)]);
    RunSnoc(c, before, Arrive(0, e0));
    SumSnoc(front, Req(0, e0, Arrived), AdmittedAt(0));
    MemoryAdmits(c, s, e0);
    StepTo(c, before + [Arrive(0, e0)], s, |front|, Admitted, rpmCount, tpmCount);
    LastChanges(front, Req(0, e0, Arrived), Req(0, e0, Admitted));
    events := before + [Arrive(0, e0)] + [Advance(|front|)];
  }

  /** A request with tokens locks the mutex and passes the local request check. */
  lemma PassLocally(c: Config, before: seq<Event>, n: nat, e0: int, e1: int) returns (events: seq<Event>)
    requires !c.rpmCounter && c.tpmCounter && n < c.rpm && e0 <= 0 && 1 <= e1 <= c.tpm
    requires Run(c, before) == Sys(0, 0, Copies(n, Req(0, e0, Admitted)))
    ensures Run(c, events) == Sys(0, 0, Copies(n, Req(0, e0, Admitted)) + [Req(0, e1, RpmPassed)])
    ensures events == before + [Arrive(0, e1)] + [Advance(n)] + [Advance(n)]
  {
    var front := Copies(n, Req(0, e0, Admitted));
    RunSnoc(c, before, Arrive(0, e1));
    var arrived := before + [Arrive(0, e1)];
    SumAround(n, Req(0, e0, Admitted), Req(0, e1, Arrived), HoldsAt(0));
    StepTo(c, arrived, Sys(0, 0, front + [Req(0, e1, Arrived)]), n, Locked, 0, 0);
    LastChanges(front, Req(0, e1, Arrived), Req(0, e1, Locked));
    SumAround(n, Req(0, e0, Admitted), Req(0, e1, Locked), AdmittedAt(0));
    StepTo(c, arrived + [Advance(n)], Sys(0, 0, front + [Req(0, e1, Locked)]), n, RpmPassed, 0, 0);
    LastChanges(front, Req(0, e1, Locked), Req(0, e1, RpmPassed));
    events := arrived + [Advance(n)] + [Advance(n)];
  }

  /** The waiting request takes its tokens and is admitted without another look at the request limit. */
  lemma FinishWaiting(c: Config, before: seq<Event>, n: nat, e0: int, e1: int) returns (events: seq<Event>)
    requires !c.rpmCounter && c.tpmCounter && e0 <= 0 && 1 <= e1 <= c.tpm
    requires Run(c, before) == Sys(0, 0, Copies(n, Req(0, e0, Admitted)) + [Req(0, e1, RpmPassed)] + [Req(0, e0, Admitted)])
    ensures Run(c, events).reqs == Copies(n, Req(0, e0, Admitted)) + [Req(0, e1, Admitted)] + [Req(0, e0, Admitted)]
    ensures events == before + [Advance(n)] + [Advance(n)]
  {
    var front, last := Copies(n, Req(0, e0, Admitted)), Req(0, e0, Admitted);
    StepTo(c, before, Sys(0, 0, front + [Req(0, e1, RpmPassed)] + [last]), n, TpmPassed, 0, e1);
    InnerChanges(front, Req(0, e1, RpmPassed), Req(0, e1, TpmPassed), last);
    StepTo(c, before + [Advance(n)], Sys(0, e1, front + [Req(0, e1, TpmPassed)] + [last]), n, Admitted, 0, e1);
    InnerChanges(front, Req(0, e1, TpmPassed), Req(0, e1, Admitted), last);
    events := before + [Advance(n)] + [Advance(n)];
  }

  /**
    The overshoot by one, in every configuration with a local request limit and a token counter:
    while a request that passed the request check waits for the counter, a request without a token
    estimate is decided without the mutex and fills the last place.
  */
  lemma OvershootReached(c: Config, e0: int, e1: int) returns (events: seq<Event>)
    requires c.rpm > 0 && !c.rpmCounter && c.tpmCounter && e0 <= 0 && 1 <= e1 <= c.tpm
    ensures forall e :: e in events && e.Arrive? ==> e.est == e0 || e.est == e1
    ensures SumBy(Run(c, events).reqs, AdmittedAt(0)) == c.rpm + 1
  {
    var n := c.rpm - 1;
    var filled := FillLocally(c, e0, n);
    var waiting := PassLocally(c, filled, n, e0, e1);
    var front := Copies(n, Req(0, e0, Admitted)) + [Req(0, e1, RpmPassed)];
    PlacesTaken(n, e0, e1);
    var joined := JoinLocally(c, waiting, 0, 0, front, e0);
    events := FinishWaiting(c, joined, n, e0, e1);
  }

  lemma PlacesTaken(n: nat, e0: int, e1: int)
    ensures var front := Copies(n, Req(0, e0, Admitted));
            && SumBy(front + [Req(0, e1, RpmPassed)], AdmittedAt(0)) == n
            && SumBy(front + [Req(0, e1, Admitted)] + [Req(0, e0, Admitted)], AdmittedAt(0)) == n + 2
  {
    SumAround(n, Req(0, e0, Admitted), Req(0, e1, RpmPassed), AdmittedAt(0));
    SumAroundTwo(n, Req(0, e0, Admitted), Req(0, e1, Admitted), Req(0, e0, Admitted), AdmittedAt(0));
  }

  /**
    An instance without a shared request counter keeps its request limit in every run if and only if
    the estimates do not mix, under a token counter, a non-positive one with one that fits the token
    limit.
  */
  lemma LocalRequestLimitExactIff(c: Config, estimates: iset<int>)
    requires c.rpm > 0 && !c.rpmCounter && Representable(c, estimates)
    ensures KeepsLocalLimit(c, estimates) <==> !(c.tpm > 0 && c.tpmCounter && Mixes(c, estimates))
  {
    if c.tpm > 0 && c.tpmCounter && Mixes(c, estimates) {
      var e0, e1 :| e0 in estimates && e1 in estimates && e0 <= 0 && 1 <= e1 <= c.tpm;
      var events := OvershootReached(c, e0, e1);
      assert DrawnFrom(events, estimates);
    } else {
      forall events, inst | DrawnFrom(events, estimates) ensures SumBy(Run(c, events).reqs, AdmittedAt(inst)) <= c.rpm {
        UnmixedKeepsLimit(c, estimates, events, inst);
      }
    }
  }

  // ---------- denied requests that stay counted ----------

  /** The request counter is shared and the token limit is local. */
  predicate SplitCounters(c: Config) { UsesRPM(c) && c.tpm > 0 && !c.tpmCounter }

  lemma {:induction false} NoneStaysCounted(c: Config, events: seq<Event>)
    requires !SplitCounters(c)
    ensures forall r :: r in Run(c, events).reqs ==> r.phase != DeniedTPM(true)
  {
    if events != [] {
      var init, e := events[..|events| - 1], events[|events| - 1];
      NoneStaysCounted(c, init);
      var s, t := Run(c, init), Run(c, events);
      forall r | r in t.reqs ensures r.phase != DeniedTPM(true) {
        var k :| 0 <= k < |t.reqs| && t.reqs[k] == r;
        if k < |s.reqs| {
          assert s.reqs[k] in s.reqs;
        }
      }
    }
  }

  function StillCounted(c: Config): Req { Req(0, c.tpm + 1, DeniedTPM(true)) }

  /** With no tokens admitted, the local check denies more tokens than the limit. */
  lemma LocalCheckDenies(c: Config, s: Sys, k: nat)
    requires SplitCounters(c) && c.tpm + 1 <= MAX_INT64 - c.tpm
    requires s.reqs == Copies(k, StillCounted(c)) + [Req(0, c.tpm + 1, TpmPassed)]
    ensures Next(c, s, Req(0, c.tpm + 1, TpmPassed)) == Outcome(DeniedTPM(true), s.rpmCount, s.tpmCount)
  {
    SumAround(k, StillCounted(c), Req(0, c.tpm + 1, TpmPassed), TokensAt(c, 0));
    assert Wrap64(0) == 0 && Wrap64(c.tpm + 1) == c.tpm + 1;
  }

  /** A request for more tokens than the limit counts in the shared window, is denied locally, and stays counted. */
  lemma DenyLocally(c: Config, before: seq<Event>, k: nat) returns (events: seq<Event>)
    requires SplitCounters(c) && c.tpm + 1 <= MAX_INT64 - c.tpm && k < c.rpm
    requires Run(c, before) == Sys(k, 0, Copies(k, StillCounted(c)))
    ensures Run(c, events) == Sys(k + 1, 0, Copies(k, StillCounted(c)) + [StillCounted(c)])
    ensures events == before + [Arrive(0, c.tpm + 1)] + [Advance(k)] + [Advance(k)] + [Advance(k)] + [Advance(k)]
  {
    var est := c.tpm + 1;
    var locked := LockAndCount(c, before, k, est);
    var front := Copies(k, StillCounted(c));
    StepTo(c, locked, Sys(k + 1, 0, front + [Req(0, est, RpmPassed)]), k, TpmPassed, k + 1, 0);
    LastChanges(front, Req(0, est, RpmPassed), Req(0, est, TpmPassed));
    var passed := Sys(k + 1, 0, front + [Req(0, est, TpmPassed)]);
    LocalCheckDenies(c, passed, k);
    StepTo(c, locked + [Advance(k)], passed, k, DeniedTPM(true), k + 1, 0);
    LastChanges(front, Req(0, est, TpmPassed), StillCounted(c));
    events := locked + [Advance(k)] + [Advance(k)];
  }

  lemma LockAndCount(c: Config, before: seq<Event>, k: nat, est: int) returns (events: seq<Event>)
    requires UsesRPM(c) && k < c.rpm && Run(c, before) == Sys(k, 0, Copies(k, StillCounted(c)))
    ensures Run(c, events) == Sys(k + 1, 0, Copies(k, StillCounted(c)) + [Req(0, est, RpmPassed)])
    ensures events == before + [Arrive(0, est)] + [Advance(k)] + [Advance(k)]
  {
    var front := Copies(k, StillCounted(c));
    RunSnoc(c, before, Arrive(0, est));
    var arrived := before + [Arrive(0, est)];
    SumAround(k, StillCounted(c), Req(0, est, Arrived), HoldsAt(0));
    StepTo(c, arrived, Sys(k, 0, front + [Req(0, est, Arrived)]), k, Locked, k, 0);
    LastChanges(front, Req(0, est, Arrived), Req(0, est, Locked));
    StepTo(c, arrived + [Advance(k)], Sys(k, 0, front + [Req(0, est, Locked)]), k, RpmPassed, k + 1, 0);
    LastChanges(front, Req(0, est, Locked), Req(0, est, RpmPassed));
    events := arrived + [Advance(k)] + [Advance(k)];
  }

  lemma {:induction false} DenyMany(c: Config, k: nat) returns (events: seq<Event>)
    requires SplitCounters(c) && c.tpm + 1 <= MAX_INT64 - c.tpm && k <= c.rpm
    ensures EstimatesFit(c, events) && Run(c, events) == Sys(k, 0, Copies(k, StillCounted(c)))
  {
    if k == 0 {
      events := [];
      assert Copies(0, StillCounted(c)) == [];
    } else {
      var before := DenyMany(c, k - 1);
      events := DenyLocally(c, before, k - 1);
      CopiesSnoc(k - 1, StillCounted(c));
    }
  }

  /** With split counters, denied requests alone can fill the shared window although nothing was admitted. */
  lemma DeniedRequestsCanFillTheWindow(c: Config) returns (events: seq<Event>)
    requires SplitCounters(c) && c.tpm + 1 <= MAX_INT64 - c.tpm
    ensures EstimatesFit(c, events)
    ensures var s := Run(c, events);
            && s.rpmCount == SumBy(s.reqs, LeftCounted()) == c.rpm
            && SumBy(s.reqs, IsAdmitted()) == 0 && SumBy(s.reqs, InFlight()) == 0
  {
    events := DenyMany(c, c.rpm);
    StillCountedSums(c, c.rpm);
  }

  lemma StillCountedSums(c: Config, n: nat)
    ensures SumBy(Copies(n, StillCounted(c)), LeftCounted()) == n
    ensures SumBy(Copies(n, StillCounted(c)), IsAdmitted()) == SumBy(Copies(n, StillCounted(c)), InFlight()) == 0
  {
    SumCopies(n, StillCounted(c), LeftCounted());
    SumCopies(n, StillCounted(c), IsAdmitted());
    SumCopies(n, StillCounted(c), InFlight());
  }

  /** No denied request ever stays counted if and only if the two counters are not split. */
  lemma NoDeniedStaysCountedIff(c: Config)
    requires c.tpm + 1 <= MAX_INT64 - c.tpm
    ensures (forall events :: EstimatesFit(c, events) ==> SumBy(Run(c, events).reqs, LeftCounted()) == 0) <==> !SplitCounters(c)
  {
    if SplitCounters(c) {
      var events := DeniedRequestsCanFillTheWindow(c);
    } else {
      forall events ensures SumBy(Run(c, events).reqs, LeftCounted()) == 0 {
        NoneStaysCounted(c, events);
        SumZero(Run(c, events).reqs, LeftCounted());
      }
    }
  }
}
