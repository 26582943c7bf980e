/** A turn that nobody interrupts takes its four atomic steps to exactly the answer of the whole chain (`auth/downstream.go`). */
module TurnRefinement {
  // `AdmissionChain.Turn` is the chain in one go, `TurnInterleaving.Step` one atomic step of one turn among
  // many; this ties the small steps to the whole.
  import opened Seqs
  import KA = KeyAdmission
  import QL = QuotaLedger
  import QV = QuotaVerdicts
  import opened AdmissionChain
  import opened TurnInterleaving

  /** Turn `i` takes `n` steps in a row with the same clock reading and random id. */
  function Alone(s: Sys, e: Event, n: nat): Sys
    decreases n
  {
    if n == 0 then s else Alone(Step(s, e), e, n - 1)
  }

  function GateOf(s: Sys): Gate { Gate(s.row, s.ledger, s.run.win) }
  function WorldOf(e: Event, a: Attempt): World
    requires e.Advance?
  {
    World(e.now, e.newID, a.listed, e.works)
  }

  /** The phase in which an answered turn ends; only the UPDATE answers late with the request budget. */
  function Landed(r: Result, late: bool): Phase {
    if r.ok then Admitted(r.reservationID)
    else if late && r.reason == Some(OverRequests) then OutOfBudget(r.reservationID)
    else Denied(r)
  }

  predicate Answered(p: Phase) { p.Admitted? || p.Denied? || p.OutOfBudget? }

  /** The system has done to the key what the chain does, and turn `i` has its answer. */
  ghost predicate Reached(s: Sys, i: nat, after: Gate, p: Phase) {
    i < |s.turns| && s.row == after.row && s.ledger == after.ledger && s.run.win == after.win && s.turns[i].phase == p
  }

  lemma {:induction false} AnsweredStays(s: Sys, e: Event, n: nat)
    requires e.Advance? && 0 <= e.i < |s.turns| && Answered(s.turns[e.i].phase)
    ensures Alone(s, e, n) == s
  {
    if n > 0 {
      assert s.turns[e.i := s.turns[e.i]] == s.turns;
      assert Step(s, e) == s;
      AnsweredStays(s, e, n - 1);
    }
  }

  /** The last step: the conditional UPDATE. */
  lemma UpdateLands(s: Sys, e: Event, id: string)
    requires e.Advance? && 0 <= e.i < |s.turns| && s.turns[e.i].phase == Recorded(id) && !RequestsSpent(s.row)
    ensures var t := Alone(s, e, 1);
            var row := if e.works then s.row.(usedRequests := s.row.usedRequests + 1) else s.row;
            Reached(t, e.i, Gate(row, s.ledger, s.run.win), Landed(Consumed(id, e.works), true))
  {
    assert Alone(s, e, 1) == Step(s, e);
  }

  /** The rate gate with its history does to the window what the rate gate alone does. */
  lemma RateOutcomeIsRateGate(s: Sys, row: KeyRow, id: string, ip: Option<Reason>, now: int, est: int)
    ensures var o, (win, denial) := RateOutcome(s, row, id, ip, now, est), RateGate(row, s.run.win, id, ip, now, est);
            && o.run.win == win && o.row == s.row && o.ledger == s.ledger
            && o.phase == if denial.Some? then Denied(denial.value) else Recorded(id)
  {}

  lemma LateSteps(s: Sys, e: Event, id: string, ip: Option<Reason>)
    requires e.Advance? && 0 <= e.i < |s.turns| && s.turns[e.i].phase == Reserved(s.row, id) && !RequestsSpent(s.row)
    requires var a := s.turns[e.i].attempt; ip == CheckDownstreamKeyIP(s.row, a.clientIP, a.listed)
    ensures var a := s.turns[e.i].attempt;
            var (after, r) := AfterReservation(GateOf(s), id, ip, e.now, a.est, e.works);
            Reached(Alone(s, e, 2), e.i, after, Landed(r, true))
  {
    var a, t := s.turns[e.i].attempt, Step(s, e);
    RateOutcomeIsRateGate(s, s.row, id, ip, e.now, a.est);
    AddressIsNoBudget(s.row, a.clientIP, a.listed);
    IPReasons(ip, s.row, s.run.win, id, e.now, a.est);
    assert Alone(s, e, 2) == Alone(t, e, 1);
    if t.turns[e.i].phase == Recorded(id) {
      UpdateLands(t, e, id);
    } else {
      AnsweredStays(t, e, 1);
    }
  }

  lemma StepsAfterStaticGates(s: Sys, e: Event, ip: Option<Reason>)
    requires e.Advance? && 0 <= e.i < |s.turns| && s.turns[e.i].phase == Cleared(s.row) && !RequestsSpent(s.row)
    requires var a := s.turns[e.i].attempt; ip == CheckDownstreamKeyIP(s.row, a.clientIP, a.listed)
    ensures var a := s.turns[e.i].attempt;
            var (after, r) := AfterStaticGates(GateOf(s), WorldOf(e, a), ip, a.est);
            Reached(Alone(s, e, 3), e.i, after, Landed(r, true))
  {
    var a, t := s.turns[e.i].attempt, Step(s, e);
    var (ledger, blocker) := QuotaStep(s.row, s.ledger, WorldOf(e, a), a.est);
    assert Alone(s, e, 3) == Alone(t, e, 2);
    if blocker.Clear? {
      LateSteps(t, e, if QuotaOf(s.row).Some? then e.newID else "", ip);
    } else {
      BlockedReserveKeeps(s.row, s.ledger, WorldOf(e, a), a.est);
      AnsweredStays(t, e, 2);
    }
  }

  lemma BlockedReserveKeeps(row: KeyRow, ledger: QL.Ledger, w: World, est: int)
    requires !QuotaStep(row, ledger, w, est).1.Clear?
    ensures QuotaStep(row, ledger, w, est).0 == ledger
  {}

  /**
    From any state of any number of turns, four uninterrupted steps of an arrived turn do to the row, the
    ledger and the rate window exactly what the whole chain does, and end in its answer.
  */
  lemma UninterruptedTurnIsTurn(s: Sys, e: Event)
    requires e.Advance? && 0 <= e.i < |s.turns| && s.turns[e.i].phase.Arrived?
    ensures var a := s.turns[e.i].attempt;
            var (after, r) := Turn(GateOf(s), WorldOf(e, a), a.clientIP, a.est);
            Reached(Alone(s, e, 4), e.i, after, Landed(r, StaticDenial(s.row, e.now).None?))
  {
    var a, t := s.turns[e.i].attempt, Step(s, e);
    assert Alone(s, e, 4) == Alone(t, e, 3);
    if StaticDenial(s.row, e.now).Some? {
      StaticDenialDenies(s.row, e.now);
      AnsweredStays(t, e, 3);
    } else {
      StepsAfterStaticGates(t, e, CheckDownstreamKeyIP(s.row, a.clientIP, a.listed));
    }
  }

  lemma StaticDenialDenies(row: KeyRow, now: int)
    ensures StaticDenial(row, now).Some? ==> !StaticDenial(row, now).value.ok
    ensures StaticDenial(row, now).None? ==> !RequestsSpent(row)
  {}

  // ---------- settlements ----------

  function Settlements(start: KeyRow, usage: seq<QL.UsageRow>, events: seq<Event>): nat {
    if events == [] then 0
    else
      var init, e := events[..|events| - 1], events[|events| - 1];
      var s := Run(start, usage, init);
      Settlements(start, usage, init) +
      if e.Settle? && 0 <= e.i < |s.turns| && s.turns[e.i].phase.Admitted? then 1 else 0
  }

  /** Settling an admitted turn adds its usage row, takes its hold and touches nothing else; a booked cost goes to the row. */
  lemma SettlementIsARow(s: Sys, i: int, tokens: Option<int>, cost: Option<real>, now: int, amount: real)
    requires 0 <= i < |s.turns| && s.turns[i].phase.Admitted? && s.row.id > 0
    ensures var t, id := Step(s, Settle(i, tokens, cost, now)), s.turns[i].phase.id;
            && t == s.(ledger := t.ledger)
            && t.ledger.usage == s.ledger.usage + [QL.UsageRow(s.row.id, now, 1, if tokens.Some? && tokens.value >= 0 then tokens else None,
                                                               if cost.Some? && cost.value >= 0.0 then cost else None)]
            && forall h :: h in t.ledger.holds <==> h in s.ledger.holds && (id == "" || h.id != id || h.key != s.row.id)
    ensures Step(s, Spend(amount)) == s.(row := s.row.(usedCost := s.row.usedCost + amount))
  {
    QV.SettlementAndRelease(s.ledger, s.row.id, s.turns[i].phase.id, tokens, cost, now);
  }

  /** In every interleaving each settlement of an admitted turn leaves one usage row, and nothing else does. */
  lemma {:induction false} EverySettlementIsARow(start: KeyRow, usage: seq<QL.UsageRow>, events: seq<Event>)
    requires start.id > 0
    ensures |Run(start, usage, events).ledger.usage| == |usage| + Settlements(start, usage, events)
  {
    if events != [] {
      var init, e := events[..|events| - 1], events[|events| - 1];
      var s := Run(start, usage, init);
      EverySettlementIsARow(start, usage, init);
      RunKeepsCounts(start, usage, init);
      assert s.row.id == start.id;
      match e
      case Settle(i, tokens, cost, now) =>
        if 0 <= i < |s.turns| && s.turns[i].phase.Admitted? {
          SettlementIsARow(s, i, tokens, cost, now, 0.0);
        }
      case Advance(i, now, newID, works) =>
        if 0 <= i < |s.turns| {
          AdvanceAddsNoRow(s, i, e);
        }
      case _ =>
    }
  }

  lemma AdvanceAddsNoRow(s: Sys, i: nat, e: Event)
    requires e.Advance? && i < |s.turns|
    ensures Advanced(s, i, e).ledger.usage == s.ledger.usage
  {
    match s.turns[i].phase
    case Cleared(row) =>
      var w := World(e.now, e.newID, s.turns[i].attempt.listed, e.works);
      if QuotaOf(row).Some? {
        QL.ReserveAddsOneHold(s.ledger, row.id, QuotaOf(row).value, AtLeastOne(s.turns[i].attempt.est), w.now, w.newID);
      }
    case Reserved(row, id) =>
      var a := s.turns[i].attempt;
      RateOutcomeIsRateGate(s, row, id, CheckDownstreamKeyIP(row, a.clientIP, a.listed), e.now, a.est);
    case _ =>
  }
}
