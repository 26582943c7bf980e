/** Many turns of one managed key at once (`auth/downstream.go`). */
module TurnInterleaving {
  // Each turn loads the key row, reserves, passes the rate gate and counts its request in separate atomic
  // steps, and the steps of different turns interleave freely; a loaded row may be stale by then. Callers
  // release what denied turns hold, settle admitted ones, and costs are booked at any time.
  import opened Seqs
  import KA = KeyAdmission
  import QL = QuotaLedger
  import opened AdmissionChain

  datatype Attempt = Attempt(clientIP: string, est: int, listed: (string, seq<string>) -> bool)

  datatype Phase =
    | Arrived
    | Cleared(row: KeyRow)                // passed the static gates on the row it loaded
    | Reserved(row: KeyRow, id: string)
    | Recorded(id: string)                // passed the rate gate; the UPDATE comes next
    | Admitted(id: string)
    | Denied(result: Result)              // by a gate before the UPDATE
    | OutOfBudget(id: string)             // by the UPDATE
    | Released(recorded: bool)            // a denied turn whose caller gave the reservation back

  datatype TurnState = TurnState(attempt: Attempt, phase: Phase)

  /** `whose` names the turn of each entry in the full admission log, `calls` the limiter's history. */
  datatype Sys = Sys(row: KeyRow, ledger: QL.Ledger, run: KA.Run, calls: seq<KA.Call>, whose: seq<nat>, turns: seq<TurnState>)

  datatype Event =
    | Arrive(attempt: Attempt)
    | Advance(i: int, now: int, newID: string, works: bool)
    | GiveBack(i: int)
    | Settle(i: int, tokens: Option<int>, cost: Option<real>, now: int)
    | Spend(amount: real)

  function Reservation(p: Phase): string {
    match p
    case Reserved(_, id) => id
    case Recorded(id) => id
    case Admitted(id) => id
    case Denied(result) => result.reservationID
    case OutOfBudget(id) => id
    case _ => ""
  }

  /** The parts of the system a step may change, and the phase it leads to. */
  datatype Outcome = Outcome(phase: Phase, row: KeyRow, ledger: QL.Ledger, run: KA.Run, calls: seq<KA.Call>, entry: bool)

  /** The rate gate with its history: a rated key's call reaches the limiter unless the address is denied. */
  function RateOutcome(s: Sys, row: KeyRow, id: string, ip: Option<Reason>, now: int, est: int): Outcome {
    var denial := RateGate(row, s.run.win, id, ip, now, est).1;
    var call := KA.Admit(now, RateTokens(row, est));
    var asks := ip.None? && Rated(row);
    var run := if asks then KA.ExecStep(s.run, KA.Effective(row.maxRPM), KA.Effective(row.maxTPM), call) else s.run;
    Outcome(if denial.Some? then Denied(denial.value) else Recorded(id), s.row, s.ledger, run,
            if asks then s.calls + [call] else s.calls, asks && denial.None?)
  }

  function Next(s: Sys, t: TurnState, e: Event): Outcome
    requires e.Advance?
  {
    var stay := Outcome(t.phase, s.row, s.ledger, s.run, s.calls, false);
    match t.phase
    case Arrived =>
      var early := StaticDenial(s.row, e.now);
      stay.(phase := if early.Some? then Denied(early.value) else Cleared(s.row))
    case Cleared(row) =>
      var (ledger, blocker) := QuotaStep(row, s.ledger, World(e.now, e.newID, t.attempt.listed, e.works), t.attempt.est);
      if blocker.Clear? then
        stay.(phase := Reserved(row, if QuotaOf(row).Some? then e.newID else ""), ledger := ledger)
      else stay.(phase := Denied(Deny(QuotaStatus(blocker), QuotaBlocked(blocker))))
    case Reserved(row, id) =>
      RateOutcome(s, row, id, CheckDownstreamKeyIP(row, t.attempt.clientIP, t.attempt.listed), e.now, t.attempt.est)
    case Recorded(id) =>
      if e.works && !RequestsSpent(s.row) then
        stay.(phase := Admitted(id), row := s.row.(usedRequests := s.row.usedRequests + 1))
      else stay.(phase := OutOfBudget(id))
    case _ => stay
  }

  function Advanced(s: Sys, i: nat, e: Event): Sys
    requires i < |s.turns| && e.Advance?
  {
    var o := Next(s, s.turns[i], e);
    Sys(o.row, o.ledger, o.run, o.calls, if o.entry then s.whose + [i] else s.whose, s.turns[i := s.turns[i].(phase := o.phase)])
  }

  function GivenBack(s: Sys, i: nat): Sys
    requires i < |s.turns|
  {
    match s.turns[i].phase
    case Denied(result) =>
      s.(ledger := QL.Release(s.ledger, result.reservationID), turns := s.turns[i := s.turns[i].(phase := Released(false))])
    case OutOfBudget(id) =>
      s.(ledger := QL.Release(s.ledger, id), turns := s.turns[i := s.turns[i].(phase := Released(true))])
    case _ => s
  }

  function Step(s: Sys, e: Event): Sys {
    match e
    case Arrive(attempt) => s.(turns := s.turns + [TurnState(attempt, Arrived)])
    case Advance(i, _, _, _) => if 0 <= i < |s.turns| then Advanced(s, i, e) else s
    case GiveBack(i) => if 0 <= i < |s.turns| then GivenBack(s, i) else s
    case Settle(i, tokens, cost, now) =>
      if 0 <= i < |s.turns| && s.turns[i].phase.Admitted?
      then s.(ledger := QL.Record(s.ledger, s.row.id, s.turns[i].phase.id, tokens, cost, now)) else s
    case Spend(amount) => s.(row := s.row.(usedCost := s.row.usedCost + amount))
  }

  /** From a key row, usage of the past, no holds and an empty rate window. */
  function Run(start: KeyRow, usage: seq<QL.UsageRow>, events: seq<Event>): Sys {
    if events == [] then Sys(start, QL.Ledger(usage, []), KA.Run(KA.EMPTY_WIN, KA.EMPTY_WIN), [], [], [])
    else Step(Run(start, usage, events[..|events| - 1]), events[|events| - 1])
  }

  // ---------- what holds in every interleaving ----------

  function One(b: bool): nat { if b then 1 else 0 }
  function IsAdmitted(): TurnState -> int { (t: TurnState) => One(t.phase.Admitted?) }
  function InFlight(): TurnState -> int { (t: TurnState) => One(t.phase.Recorded?) }
  predicate LostAtUpdate(p: Phase) { p.OutOfBudget? || p == Released(true) }
  function Lost(): TurnState -> int { (t: TurnState) => One(LostAtUpdate(t.phase)) }

  predicate HasEntry(start: KeyRow, p: Phase) {
    Rated(start) && (p.Recorded? || p.Admitted? || LostAtUpdate(p))
  }
  function Entries(start: KeyRow): TurnState -> int { (t: TurnState) => One(HasEntry(start, t.phase)) }
  function Is(i: nat): nat -> int { (j: nat) => One(i == j) }

  /** Only the counters of the row move. */
  ghost predicate SameKey(start: KeyRow, row: KeyRow) {
    row == start.(usedRequests := row.usedRequests, usedCost := row.usedCost)
  }

  ghost predicate Counted(start: KeyRow, s: Sys) {
    && SameKey(start, s.row)
    && s.row.usedRequests == start.usedRequests + SumBy(s.turns, IsAdmitted())
    && (start.maxRequests.Some? && SumBy(s.turns, IsAdmitted()) > 0 ==> s.row.usedRequests <= start.maxRequests.value)
  }

  ghost predicate Loaded(start: KeyRow, s: Sys) {
    forall t :: t in s.turns ==>
      && (t.phase.Cleared? ==> SameKey(start, t.phase.row))
      && (t.phase.Reserved? ==> SameKey(start, t.phase.row))
  }

  ghost predicate Logged(start: KeyRow, s: Sys) {
    && s.run == KA.Exec(KA.Effective(start.maxRPM), KA.Effective(start.maxTPM), s.calls)
    && |s.run.full.req| == |s.whose| == SumBy(s.turns, Entries(start))
    && (forall i: nat :: SumBy(s.whose, Is(i)) == One(i < |s.turns| && HasEntry(start, s.turns[i].phase)))
  }

  predicate Owns(s: Sys, j: int, id: string) {
    0 <= j < |s.turns| && Reservation(s.turns[j].phase) == id && id != ""
  }

  predicate HeldBySome(s: Sys, id: string) { exists j :: 0 <= j < |s.turns| && Owns(s, j, id) }

  /** Every hold belongs to a turn that has not given it back. */
  ghost predicate Owned(s: Sys) {
    forall h :: h in s.ledger.holds ==> HeldBySome(s, h.id)
  }

  ghost predicate FreshIDs(events: seq<Event>) {
    forall e :: e in events && e.Advance? ==> e.newID != ""
  }

  // ---------- one step ----------

  lemma Moved(s: Sys, i: nat, e: Event, w: TurnState -> int)
    requires i < |s.turns| && e.Advance?
    ensures SumBy(Advanced(s, i, e).turns, w) ==
            SumBy(s.turns, w) - w(s.turns[i]) + w(s.turns[i].(phase := Next(s, s.turns[i], e).phase))
  {
    SumUpdate(s.turns, i, s.turns[i].(phase := Next(s, s.turns[i], e).phase), w);
  }

  lemma GivenBackMoved(s: Sys, i: nat, w: TurnState -> int)
    requires i < |s.turns| && w(GivenBack(s, i).turns[i]) == w(s.turns[i])
    ensures SumBy(GivenBack(s, i).turns, w) == SumBy(s.turns, w)
  {
    SumUpdate(s.turns, i, GivenBack(s, i).turns[i], w);
    assert s.turns[i := s.turns[i]] == s.turns;
  }

  /** Asking the limiter extends its history by one call, and its log by one entry exactly on admission. */
  lemma RateOutcomeLogs(s: Sys, row: KeyRow, id: string, ip: Option<Reason>, now: int, est: int)
    ensures var o := RateOutcome(s, row, id, ip, now, est);
            && o.row == s.row && o.ledger == s.ledger
            && (o.phase == Recorded(id) || o.phase.Denied?)
            && (o.entry <==> Rated(row) && o.phase.Recorded?)
            && |o.run.full.req| == |s.run.full.req| + One(o.entry)
  {}

  /** The row moves only on admission, by one request that the budget still had. */
  lemma NextCounts(s: Sys, t: TurnState, e: Event)
    requires e.Advance?
    ensures var o := Next(s, t, e);
            if !t.phase.Admitted? && o.phase.Admitted?
            then !RequestsSpent(s.row) && o.row == s.row.(usedRequests := s.row.usedRequests + 1)
            else o.row == s.row && (o.phase.Admitted? <==> t.phase.Admitted?)
  {
    if t.phase.Reserved? {
      var ip := CheckDownstreamKeyIP(t.phase.row, t.attempt.clientIP, t.attempt.listed);
      RateOutcomeLogs(s, t.phase.row, t.phase.id, ip, e.now, t.attempt.est);
    }
  }

  lemma AdvanceCounts(start: KeyRow, s: Sys, i: nat, e: Event)
    requires Counted(start, s) && i < |s.turns| && e.Advance?
    ensures Counted(start, Advanced(s, i, e))
  {
    NextCounts(s, s.turns[i], e);
    Moved(s, i, e, IsAdmitted());
    SumNonNegative(s.turns, IsAdmitted());
  }

  lemma CountedKept(start: KeyRow, s: Sys, e: Event)
    requires Counted(start, s)
    ensures Counted(start, Step(s, e))
  {
    match e
    case Arrive(attempt) => SumSnoc(s.turns, TurnState(attempt, Arrived), IsAdmitted());
    case Advance(i, _, _, _) =>
      if 0 <= i < |s.turns| {
        AdvanceCounts(start, s, i, e);
      }
    case GiveBack(i) =>
      if 0 <= i < |s.turns| {
        GivenBackMoved(s, i, IsAdmitted());
      }
    case Settle(_, _, _, _) =>
    case Spend(_) =>
  }

  lemma LoadedKept(start: KeyRow, s: Sys, e: Event)
    requires Counted(start, s) && Loaded(start, s)
    ensures Loaded(start, Step(s, e))
  {
    var t := Step(s, e);
    forall k | 0 <= k < |t.turns|
      ensures t.turns[k].phase.Cleared? ==> SameKey(start, t.turns[k].phase.row)
      ensures t.turns[k].phase.Reserved? ==> SameKey(start, t.turns[k].phase.row)
    {
      if k < |s.turns| {
        assert s.turns[k] in s.turns;
      }
    }
  }

  lemma RateOutcomeRuns(start: KeyRow, s: Sys, row: KeyRow, id: string, ip: Option<Reason>, now: int, est: int)
    requires Logged(start, s) && SameKey(start, row)
    ensures var o := RateOutcome(s, row, id, ip, now, est);
            o.run == KA.Exec(KA.Effective(start.maxRPM), KA.Effective(start.maxTPM), o.calls)
  {
    var call := KA.Admit(now, RateTokens(row, est));
    assert (s.calls + [call])[..|s.calls|] == s.calls;
  }

  /** Steps away from the rate gate leave the log alone, and only they leave an entry's turn with one. */
  lemma OtherStepsDoNotLog(start: KeyRow, s: Sys, t: TurnState, e: Event)
    requires e.Advance? && !t.phase.Reserved?
    ensures var o := Next(s, t, e);
            o.run == s.run && o.calls == s.calls && !o.entry && (HasEntry(start, o.phase) <==> HasEntry(start, t.phase))
  {}

  ghost predicate Logs(start: KeyRow, s: Sys, t: TurnState, o: Outcome) {
    && o.run == KA.Exec(KA.Effective(start.maxRPM), KA.Effective(start.maxTPM), o.calls)
    && |o.run.full.req| == |s.run.full.req| + One(o.entry)
    && (HasEntry(start, o.phase) <==> o.entry || HasEntry(start, t.phase))
    && (o.entry ==> !HasEntry(start, t.phase))
  }

  lemma RateGateLogs(start: KeyRow, s: Sys, t: TurnState, ip: Option<Reason>, now: int)
    requires Logged(start, s) && t.phase.Reserved? && SameKey(start, t.phase.row)
    ensures Logs(start, s, t, RateOutcome(s, t.phase.row, t.phase.id, ip, now, t.attempt.est))
  {
    RateOutcomeLogs(s, t.phase.row, t.phase.id, ip, now, t.attempt.est);
    RateOutcomeRuns(start, s, t.phase.row, t.phase.id, ip, now, t.attempt.est);
  }

  /** The step of turn `i` seen from the log: an entry appears exactly when its phase comes to have one. */
  lemma NextLogs(start: KeyRow, s: Sys, i: nat, e: Event)
    requires Logged(start, s) && Loaded(start, s) && i < |s.turns| && e.Advance?
    ensures Logs(start, s, s.turns[i], Next(s, s.turns[i], e))
  {
    var t := s.turns[i];
    assert t in s.turns;
    if t.phase.Reserved? {
      RateGateLogs(start, s, t, CheckDownstreamKeyIP(t.phase.row, t.attempt.clientIP, t.attempt.listed), e.now);
    } else {
      OtherStepsDoNotLog(start, s, t, e);
    }
  }

  /** The tags after a step of turn `i` that leads to `o`. */
  lemma TagsKept(start: KeyRow, s: Sys, i: nat, o: Outcome, k: nat)
    requires Logged(start, s) && i < |s.turns| && Logs(start, s, s.turns[i], o)
    ensures var turns := s.turns[i := s.turns[i].(phase := o.phase)];
            SumBy(if o.entry then s.whose + [i] else s.whose, Is(k)) == One(k < |turns| && HasEntry(start, turns[k].phase))
  {
    SumSnoc(s.whose, i, Is(k));
    assert SumBy(s.whose, Is(k)) == One(k < |s.turns| && HasEntry(start, s.turns[k].phase));
  }

  lemma AdvanceKeepsLog(start: KeyRow, s: Sys, i: nat, e: Event)
    requires Logged(start, s) && Loaded(start, s) && i < |s.turns| && e.Advance?
    ensures Logged(start, Advanced(s, i, e))
  {
    NextLogs(start, s, i, e);
    Moved(s, i, e, Entries(start));
    var o, t := Next(s, s.turns[i], e), Advanced(s, i, e);
    forall k: nat ensures SumBy(t.whose, Is(k)) == One(k < |t.turns| && HasEntry(start, t.turns[k].phase)) {
      TagsKept(start, s, i, o, k);
    }
  }

  lemma GiveBackKeepsLog(start: KeyRow, s: Sys, i: nat)
    requires Logged(start, s) && i < |s.turns|
    ensures Logged(start, GivenBack(s, i))
  {
    var t := GivenBack(s, i);
    GivenBackMoved(s, i, Entries(start));
    forall k: nat ensures SumBy(t.whose, Is(k)) == One(k < |t.turns| && HasEntry(start, t.turns[k].phase)) {
      assert SumBy(s.whose, Is(k)) == One(k < |s.turns| && HasEntry(start, s.turns[k].phase));
    }
  }

  lemma ArriveKeepsLog(start: KeyRow, s: Sys, attempt: Attempt)
    requires Logged(start, s)
    ensures Logged(start, Step(s, Arrive(attempt)))
  {
    var t := Step(s, Arrive(attempt));
    SumSnoc(s.turns, TurnState(attempt, Arrived), Entries(start));
    forall k: nat ensures SumBy(t.whose, Is(k)) == One(k < |t.turns| && HasEntry(start, t.turns[k].phase)) {
      assert SumBy(s.whose, Is(k)) == One(k < |s.turns| && HasEntry(start, s.turns[k].phase));
    }
  }

  lemma LoggedKept(start: KeyRow, s: Sys, e: Event)
    requires Logged(start, s) && Loaded(start, s)
    ensures Logged(start, Step(s, e))
  {
    match e
    case Arrive(attempt) => ArriveKeepsLog(start, s, attempt);
    case Advance(i, _, _, _) =>
      if 0 <= i < |s.turns| {
        AdvanceKeepsLog(start, s, i, e);
      }
    case GiveBack(i) =>
      if 0 <= i < |s.turns| {
        GiveBackKeepsLog(start, s, i);
      }
    case Settle(_, _, _, _) =>
    case Spend(_) =>
  }

  /** A turn keeps its reservation until it is given back. */
  lemma StillHeld(s: Sys, t: Sys, i: nat, id: string)
    requires HeldBySome(s, id) && i < |s.turns| && |t.turns| == |s.turns|
    requires forall k :: 0 <= k < |s.turns| && k != i ==> t.turns[k] == s.turns[k]
    requires Reservation(s.turns[i].phase) == id ==> Reservation(t.turns[i].phase) == id
    ensures HeldBySome(t, id)
  {
    var j :| 0 <= j < |s.turns| && Owns(s, j, id);
    assert Owns(t, j, id);
  }

  /** Reserving adds at most one hold, under the new id. */
  lemma ReservingAdds(row: KeyRow, ledger: QL.Ledger, w: World, est: int)
    ensures var (after, blocker) := QuotaStep(row, ledger, w, est);
            forall h :: h in after.holds ==> h in ledger.holds || (blocker.Clear? && QuotaOf(row).Some? && h.id == w.newID)
  {
    if QuotaOf(row).Some? {
      QL.ReserveAddsOneHold(ledger, row.id, QuotaOf(row).value, AtLeastOne(est), w.now, w.newID);
    }
  }

  lemma ReserveKeepsOwned(s: Sys, i: nat, e: Event)
    requires Owned(s) && i < |s.turns| && e.Advance? && e.newID != "" && s.turns[i].phase.Cleared?
    ensures Owned(Advanced(s, i, e))
  {
    var turn, t := s.turns[i], Advanced(s, i, e);
    ReservingAdds(turn.phase.row, s.ledger, World(e.now, e.newID, turn.attempt.listed, e.works), turn.attempt.est);
    forall h | h in t.ledger.holds ensures HeldBySome(t, h.id) {
      if h in s.ledger.holds {
        NoIDIsHeldEmpty(s, h.id);
        StillHeld(s, t, i, h.id);
      } else {
        assert Owns(t, i, h.id);
      }
    }
  }

  lemma NoIDIsHeldEmpty(s: Sys, id: string)
    requires HeldBySome(s, id)
    ensures id != ""
  {}

  lemma AdvanceKeepsOwned(s: Sys, i: nat, e: Event)
    requires Owned(s) && i < |s.turns| && e.Advance? && e.newID != ""
    ensures Owned(Advanced(s, i, e))
  {
    var turn := s.turns[i];
    if turn.phase.Cleared? {
      ReserveKeepsOwned(s, i, e);
    } else {
      NextKeepsID(s, i, e);
      forall h | h in s.ledger.holds ensures HeldBySome(Advanced(s, i, e), h.id) {
        NoIDIsHeldEmpty(s, h.id);
        StillHeld(s, Advanced(s, i, e), i, h.id);
      }
    }
  }

  lemma NextKeepsID(s: Sys, i: nat, e: Event)
    requires i < |s.turns| && e.Advance? && !s.turns[i].phase.Cleared?
    ensures var o := Next(s, s.turns[i], e);
            o.ledger == s.ledger &&
            (Reservation(s.turns[i].phase) != "" ==> Reservation(o.phase) == Reservation(s.turns[i].phase))
  {
    var turn := s.turns[i];
    if turn.phase.Reserved? {
      var ip := CheckDownstreamKeyIP(turn.phase.row, turn.attempt.clientIP, turn.attempt.listed);
      RateDenialKeepsID(s, turn.phase.row, turn.phase.id, ip, e.now, turn.attempt.est);
    }
  }

  lemma RateDenialKeepsID(s: Sys, row: KeyRow, id: string, ip: Option<Reason>, now: int, est: int)
    ensures var o := RateOutcome(s, row, id, ip, now, est);
            o.ledger == s.ledger && Reservation(o.phase) == id
  {}

  lemma GiveBackKeepsOwned(s: Sys, i: nat)
    requires Owned(s) && i < |s.turns|
    ensures Owned(GivenBack(s, i))
  {
    var t, id := GivenBack(s, i), Reservation(s.turns[i].phase);
    if t != s {
      forall h | h in t.ledger.holds ensures HeldBySome(t, h.id) {
        ReleasedIsGone(s.ledger, id, h);
        NoIDIsHeldEmpty(s, h.id);
        StillHeld(s, t, i, h.id);
      }
    }
  }

  lemma ReleasedIsGone(l: QL.Ledger, id: string, h: QL.Hold)
    requires h in QL.Release(l, id).holds
    ensures h in l.holds && (id != "" ==> h.id != id)
  {}

  /** A step that leaves the turns alone and adds no hold. */
  lemma SameTurnsOwned(s: Sys, t: Sys)
    requires Owned(s) && s.turns <= t.turns && forall h :: h in t.ledger.holds ==> h in s.ledger.holds
    ensures Owned(t)
  {
    forall h | h in t.ledger.holds ensures HeldBySome(t, h.id) {
      var j :| 0 <= j < |s.turns| && Owns(s, j, h.id);
      assert Owns(t, j, h.id);
    }
  }

  lemma OwnedKept(s: Sys, e: Event)
    requires Owned(s) && (e.Advance? ==> e.newID != "")
    ensures Owned(Step(s, e))
  {
    match e
    case Arrive(_) => SameTurnsOwned(s, Step(s, e));
    case Advance(i, _, _, _) =>
      if 0 <= i < |s.turns| {
        AdvanceKeepsOwned(s, i, e);
      }
    case GiveBack(i) =>
      if 0 <= i < |s.turns| {
        GiveBackKeepsOwned(s, i);
      }
    case Settle(_, _, _, _) => SameTurnsOwned(s, Step(s, e));
    case Spend(_) => SameTurnsOwned(s, Step(s, e));
  }

  lemma {:induction false} RunKeepsCounts(start: KeyRow, usage: seq<QL.UsageRow>, events: seq<Event>)
    ensures Counted(start, Run(start, usage, events)) && Loaded(start, Run(start, usage, events))
    ensures Logged(start, Run(start, usage, events))
  {
    if events != [] {
      var init, e := events[..|events| - 1], events[|events| - 1];
      RunKeepsCounts(start, usage, init);
      CountedKept(start, Run(start, usage, init), e);
      LoadedKept(start, Run(start, usage, init), e);
      LoggedKept(start, Run(start, usage, init), e);
    }
  }

  lemma {:induction false} RunKeepsOwned(start: KeyRow, usage: seq<QL.UsageRow>, events: seq<Event>)
    requires FreshIDs(events)
    ensures Owned(Run(start, usage, events))
  {
    if events != [] {
      var init, e := events[..|events| - 1], events[|events| - 1];
      RunKeepsOwned(start, usage, init);
      assert e in events;
      OwnedKept(Run(start, usage, init), e);
    }
  }

  // ---------- theorems over every interleaving ----------

  /**
    Whatever turns interleave and however stale the rows they loaded, used_requests grows by exactly
    the admitted turns and never passes the maximum by them.
  */
  lemma EveryAdmittedTurnCountsOnce(start: KeyRow, usage: seq<QL.UsageRow>, events: seq<Event>)
    ensures var s := Run(start, usage, events);
            && s.row.usedRequests == start.usedRequests + SumBy(s.turns, IsAdmitted())
            && (start.maxRequests.Some? && SumBy(s.turns, IsAdmitted()) > 0 ==> s.row.usedRequests <= start.maxRequests.value)
    ensures SameKey(start, Run(start, usage, events).row)
  {
    RunKeepsCounts(start, usage, events);
  }

  /**
    The admission log of a rated key holds one entry for every turn that is admitted, waits for the
    UPDATE, or was denied by it, and none for any other turn: a denied turn left an entry behind if
    and only if it was the UPDATE that denied it.
  */
  lemma WindowRemembersEveryRecordedTurn(start: KeyRow, usage: seq<QL.UsageRow>, events: seq<Event>, i: nat)
    requires Rated(start) && i < |Run(start, usage, events).turns|
    ensures var s := Run(start, usage, events);
            && SumBy(s.whose, Is(i)) == One(s.turns[i].phase.Recorded? || s.turns[i].phase.Admitted? || LostAtUpdate(s.turns[i].phase))
            && |s.run.full.req| == |s.whose| == SumBy(s.turns, IsAdmitted()) + SumBy(s.turns, InFlight()) + SumBy(s.turns, Lost())
  {
    RunKeepsCounts(start, usage, events);
    SplitEntries(start, Run(start, usage, events).turns);
  }

  lemma {:induction false} SplitEntries(start: KeyRow, turns: seq<TurnState>)
    requires Rated(start)
    ensures SumBy(turns, Entries(start)) == SumBy(turns, IsAdmitted()) + SumBy(turns, InFlight()) + SumBy(turns, Lost())
  {
    if turns != [] {
      SplitEntries(start, turns[..|turns| - 1]);
    }
  }

  /** So those left-behind entries crowd out admissions: together they stay within the rate limits in every window. */
  lemma RateLimitsHoldForRecordedTurns(start: KeyRow, usage: seq<QL.UsageRow>, events: seq<Event>, a: int)
    requires var calls := Run(start, usage, events).calls;
             KA.Ordered(calls) && KA.EstimatesFit(KA.Effective(start.maxTPM), calls)
    ensures var full := Run(start, usage, events).run.full;
            && (KA.Effective(start.maxRPM) > 0 ==> SumBy(full.req, KA.InSpan(a)) <= KA.Effective(start.maxRPM))
            && (KA.Effective(start.maxTPM) > 0 ==> SumBy(full.tok, KA.SpanTokens(a)) <= KA.Effective(start.maxTPM))
  {
    RunKeepsCounts(start, usage, events);
    KA.EverySpanWithinLimits(KA.Effective(start.maxRPM), KA.Effective(start.maxTPM), Run(start, usage, events).calls, a);
  }

  /** Once every denied turn has given back, each hold in the ledger belongs to a turn that is admitted or on its way. */
  lemma DeniedTurnsLeaveNoHold(start: KeyRow, usage: seq<QL.UsageRow>, events: seq<Event>, k: nat)
    requires FreshIDs(events) && k < |Run(start, usage, events).ledger.holds|
    requires forall t :: t in Run(start, usage, events).turns ==> !t.phase.Denied? && !t.phase.OutOfBudget?
    ensures var s := Run(start, usage, events);
            exists j :: Owns(s, j, s.ledger.holds[k].id) &&
                        (s.turns[j].phase.Admitted? || s.turns[j].phase.Recorded? || s.turns[j].phase.Reserved?)
  {
    RunKeepsOwned(start, usage, events);
    var s := Run(start, usage, events);
    assert s.ledger.holds[k] in s.ledger.holds;
    var j :| 0 <= j < |s.turns| && Owns(s, j, s.ledger.holds[k].id);
    assert s.turns[j] in s.turns;
  }

  // ---------- two turns and one request ----------

  const KEY := KeyRow(1, true, UserOK, None, None, 0.0, Some(1), 0, Some(2), None, None, false, [], [])
  const SPENT := KEY.(usedRequests := 1)
  const NO_HOLDS := QL.Ledger([], [])

  function Anyone(): Attempt { Attempt("", 1, (ip, entries) => false) }
  function Go(i: int): Event { Advance(i, 0, "hold", true) }
  function Two(p: Phase, q: Phase): seq<TurnState> { [TurnState(Anyone(), p), TurnState(Anyone(), q)] }
  function Log(n: nat): KA.Run { KA.Run(KA.Win(seq(n, _ => 0), []), KA.Win(seq(n, _ => 0), [])) }

  lemma RunSnoc(start: KeyRow, usage: seq<QL.UsageRow>, events: seq<Event>, e: Event)
    ensures Run(start, usage, events + [e]) == Step(Run(start, usage, events), e)
  {
    assert (events + [e])[..|events|] == events;
  }

  lemma BothLoad(s: Sys)
    requires s.row == KEY && s.turns == Two(Arrived, Arrived)
    ensures Step(Step(s, Go(0)), Go(1)) == s.(turns := Two(Cleared(KEY), Cleared(KEY)))
  {
    assert Step(s, Go(0)) == s.(turns := Two(Cleared(KEY), Arrived));
    assert Two(Cleared(KEY), Arrived)[1 := TurnState(Anyone(), Cleared(KEY))] == Two(Cleared(KEY), Cleared(KEY));
  }

  lemma BothReserve(s: Sys)
    requires s.turns == Two(Cleared(KEY), Cleared(KEY))
    ensures Step(Step(s, Go(0)), Go(1)) == s.(turns := Two(Reserved(KEY, ""), Reserved(KEY, "")))
  {
    assert Step(s, Go(0)) == s.(turns := Two(Reserved(KEY, ""), Cleared(KEY)));
    assert Two(Reserved(KEY, ""), Cleared(KEY))[1 := TurnState(Anyone(), Reserved(KEY, ""))] ==
           Two(Reserved(KEY, ""), Reserved(KEY, ""));
  }

  /** A window with room takes the request of a reserved turn. */
  lemma RoomRecords(s: Sys, n: nat)
    requires n < 2 && s.run == Log(n)
    ensures var o := RateOutcome(s, KEY, "", None, 0, 1);
            o == Outcome(Recorded(""), s.row, s.ledger, Log(n + 1), s.calls + [KA.Admit(0, 1)], true)
  {
    var w := Log(n).win;
    assert KA.Prune(w.req, KA.TimeAt(), 0 - KA.WINDOW_MS) == w.req;
    assert w.req + [0] == Log(n + 1).win.req;
  }

  lemma BlankAddressPasses()
    ensures CheckDownstreamKeyIP(KEY, Anyone().clientIP, Anyone().listed) == None
  {}

  lemma OneRecords(s: Sys, i: nat, n: nat)
    requires i < |s.turns| && n < 2 && s.run == Log(n) && s.turns[i] == TurnState(Anyone(), Reserved(KEY, ""))
    ensures Step(s, Go(i)) == s.(run := Log(n + 1), calls := s.calls + [KA.Admit(0, 1)], whose := s.whose + [i],
                                 turns := s.turns[i := TurnState(Anyone(), Recorded(""))])
  {
    BlankAddressPasses();
    RoomRecords(s, n);
  }

  lemma BothRecord(s: Sys)
    requires s.run == Log(0) && s.whose == [] && s.turns == Two(Reserved(KEY, ""), Reserved(KEY, ""))
    ensures var t := Step(Step(s, Go(0)), Go(1));
            t.row == s.row && t.run == Log(2) && t.whose == [0, 1] && t.turns == Two(Recorded(""), Recorded(""))
  {
    OneRecords(s, 0, 0);
    OneRecords(Step(s, Go(0)), 1, 1);
    assert [] + [0] + [1] == [0, 1];
    assert s.turns[0 := TurnState(Anyone(), Recorded(""))][1 := TurnState(Anyone(), Recorded(""))] == Two(Recorded(""), Recorded(""));
  }

  lemma OnlyOneCounts(s: Sys)
    requires s.row == KEY && s.turns == Two(Recorded(""), Recorded(""))
    ensures Step(Step(s, Go(0)), Go(1)) == s.(row := SPENT, turns := Two(Admitted(""), OutOfBudget("")))
  {
    assert Step(s, Go(0)) == s.(row := SPENT, turns := Two(Admitted(""), Recorded("")));
    assert Two(Admitted(""), Recorded(""))[1 := TurnState(Anyone(), OutOfBudget(""))] == Two(Admitted(""), OutOfBudget(""));
  }

  lemma PlayTwo(events: seq<Event>, s: Sys, e: Event, f: Event)
    requires Run(KEY, [], events) == s
    ensures Run(KEY, [], events + [e] + [f]) == Step(Step(s, e), f)
  {
    RunSnoc(KEY, [], events, e);
    RunSnoc(KEY, [], events + [e], f);
  }

  lemma BothArrive() returns (events: seq<Event>)
    ensures Run(KEY, [], events) == Sys(KEY, NO_HOLDS, Log(0), [], [], Two(Arrived, Arrived))
  {
    var s := Sys(KEY, NO_HOLDS, KA.Run(KA.EMPTY_WIN, KA.EMPTY_WIN), [], [], []);
    PlayTwo([], s, Arrive(Anyone()), Arrive(Anyone()));
    events := [] + [Arrive(Anyone())] + [Arrive(Anyone())];
    assert [] + [TurnState(Anyone(), Arrived)] + [TurnState(Anyone(), Arrived)] == Two(Arrived, Arrived);
    assert Log(0) == KA.Run(KA.EMPTY_WIN, KA.EMPTY_WIN);
  }

  /**
    The race is real: two turns pass the static gates on the same unspent budget, one is admitted,
    and the one that the UPDATE denies keeps its entry in the rate window.
  */
  lemma RacingTurnLeavesItsEntry()
    ensures exists events ::
      var s := Run(KEY, [], events);
      s.turns == Two(Admitted(""), OutOfBudget("")) && s.row.usedRequests == 1 && s.whose == [0, 1] && |s.run.win.req| == 2
  {
    var e0 := BothArrive();
    var s0 := Run(KEY, [], e0);
    PlayTwo(e0, s0, Go(0), Go(1));
    BothLoad(s0);
    var e1 := e0 + [Go(0)] + [Go(1)];
    var s1 := s0.(turns := Two(Cleared(KEY), Cleared(KEY)));
    PlayTwo(e1, s1, Go(0), Go(1));
    BothReserve(s1);
    RaceAfterReserving(e1 + [Go(0)] + [Go(1)], s1.(turns := Two(Reserved(KEY, ""), Reserved(KEY, ""))));
  }

  lemma RaceAfterReserving(events: seq<Event>, s: Sys)
    requires Run(KEY, [], events) == s && s.row == KEY && s.run == Log(0) && s.whose == []
    requires s.turns == Two(Reserved(KEY, ""), Reserved(KEY, ""))
    ensures exists events ::
      var s := Run(KEY, [], events);
      s.turns == Two(Admitted(""), OutOfBudget("")) && s.row.usedRequests == 1 && s.whose == [0, 1] && |s.run.win.req| == 2
  {
    PlayTwo(events, s, Go(0), Go(1));
    BothRecord(s);
    var e, t := events + [Go(0)] + [Go(1)], Step(Step(s, Go(0)), Go(1));
    PlayTwo(e, t, Go(0), Go(1));
    OnlyOneCounts(t);
    assert Run(KEY, [], e + [Go(0)] + [Go(1)]) == t.(row := SPENT, turns := Two(Admitted(""), OutOfBudget("")));
  }
}
