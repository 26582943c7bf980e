/** The sliding-window RPM/TPM gate of a managed key, memory-only (`auth/key_admission.go`). */
module KeyAdmission {
  // `KeyWindow` and `KeyAdmissionLimiter` mutate their logs in place as the source does; the value-level
  // `AllowStep` specifies them, and the theorems at the end speak about every run of such steps.
  import opened Seqs
  import opened Int64

  const WINDOW_MS := 60_000

  datatype TokenEvent = TokenEvent(at: int, tokens: int)

  /** The contents of one key's window: request timestamps and token events. */
  datatype Win = Win(req: seq<int>, tok: seq<TokenEvent>)

  datatype Reason = Granted | OverRPM | OverTPM

  datatype Decision = Decision(allowed: bool, reason: Reason, retryAfterMs: int, usedRPM: int, usedTPM: int)

  const EMPTY_WIN := Win([], [])

  function TimeAt(): int -> int { (t: int) => t }
  function EventAt(): TokenEvent -> int { (e: TokenEvent) => e.at }
  function Tokens(): TokenEvent -> int { (e: TokenEvent) => e.tokens }

  // ---------------------------------------------------------------- steps

  /** Drops the leading entries older than `start`; stops at the first young one. */
  function Prune<T>(s: seq<T>, at: T -> int, start: int): seq<T> {
    if s != [] && at(s[0]) < start then Prune(s[1..], at, start) else s
  }

  function PruneWin(w: Win, start: int): Win {
    Win(Prune(w.req, TimeAt(), start), Prune(w.tok, EventAt(), start))
  }

  function Max(a: int, b: int): int { if a < b then b else a }

  /** The wait reported on a local denial; `oldest` is the first entry of the pruned log. */
  function RetryAfter(oldest: Option<int>, now: int): int {
    match oldest
    case None => 1000
    case Some(t) => Max(1000, t + WINDOW_MS - now)
  }

  function Oldest<T>(s: seq<T>, at: T -> int): Option<int> {
    if s == [] then None else Some(at(s[0]))
  }

  function Record(w: Win, tpm: int, now: int, est: int): Win {
    Win(w.req + [now], if est > 0 && tpm > 0 then w.tok + [TokenEvent(now, est)] else w.tok)
  }

  /** Nil and non-positive limits mean "unlimited" (0). */
  function Effective(limit: Option<int>): (r: nat)
  {
    if limit.Some? && limit.value > 0 then limit.value else 0
  }

  /** The int64 comparison made by the token check. */
  predicate TokenCheckDenies(used: int, est: int, tpm: int) {
    Wrap64(used + est) > tpm
  }

  /** One memory-only admission against effective limits that are not both 0. */
  function AllowStep(w: Win, rpm: nat, tpm: nat, now: int, est: int): (Win, Decision) {
    var p := PruneWin(w, now - WINDOW_MS);
    var usedRPM, usedTPM := |p.req|, Wrap64(SumBy(p.tok, Tokens()));
    if rpm > 0 && usedRPM >= rpm then
      (p, Decision(false, OverRPM, RetryAfter(Oldest(p.req, TimeAt()), now), usedRPM, usedTPM))
    else if tpm > 0 && est > 0 && TokenCheckDenies(usedTPM, est, tpm) then
      (p, Decision(false, OverTPM, RetryAfter(Oldest(p.tok, EventAt()), now), usedRPM, usedTPM))
    else
      (Record(p, tpm, now, est), Decision(true, Granted, 0, usedRPM + 1, Wrap64(usedTPM + Max(est, 0))))
  }

  // ---------------------------------------------------------------- the in-place objects

  method PruneTimes(times: seq<int>, windowStart: int) returns (out: seq<int>)
    ensures out == Prune(times, TimeAt(), windowStart)
  {
    var i := 0;
    while i < |times| && times[i] < windowStart
      invariant 0 <= i <= |times|
      invariant Prune(times[i..], TimeAt(), windowStart) == Prune(times, TimeAt(), windowStart)
    {
      assert times[i..][1..] == times[i + 1..];
      i := i + 1;
    }
    out := times[i..];
  }

  method PruneTokenEvents(events: seq<TokenEvent>, windowStart: int) returns (out: seq<TokenEvent>)
    ensures out == Prune(events, EventAt(), windowStart)
  {
    var i := 0;
    while i < |events| && events[i].at < windowStart
      invariant 0 <= i <= |events|
      invariant Prune(events[i..], EventAt(), windowStart) == Prune(events, EventAt(), windowStart)
    {
      assert events[i..][1..] == events[i + 1..];
      i := i + 1;
    }
    out := events[i..];
  }

  method SumTokens(events: seq<TokenEvent>) returns (s: int)
    ensures s == Wrap64(SumBy(events, Tokens()))
  {
    s := 0;
    for i := 0 to |events|
      invariant s == Wrap64(SumBy(events[..i], Tokens()))
    {
      assert events[..i + 1] == events[..i] + [events[i]];
      SumSnoc(events[..i], events[i], Tokens());
      WrapSum(SumBy(events[..i], Tokens()), events[i].tokens);
      s := Wrap64(s + events[i].tokens);
    }
    assert events[..|events|] == events;
  }

  datatype LocalWindow = LocalWindow(usedRPM: int, usedTPM: int, retryRPM: int, retryTPM: int)

  class KeyWindow {
    var reqTimes: seq<int>
    var tokenEvents: seq<TokenEvent>

    ghost function Contents(): Win
      reads this
    {
      Win(reqTimes, tokenEvents)
    }

    constructor ()
      ensures Contents() == EMPTY_WIN
    {
      reqTimes, tokenEvents := [], [];
    }

    method SnapshotLocked(windowStart: int, nowMs: int) returns (loc: LocalWindow)
      modifies this
      ensures Contents() == PruneWin(old(Contents()), windowStart)
      ensures loc == LocalWindow(|reqTimes|, Wrap64(SumBy(tokenEvents, Tokens())),
                                 RetryAfter(Oldest(reqTimes, TimeAt()), nowMs), RetryAfter(Oldest(tokenEvents, EventAt()), nowMs))
    {
      var times := PruneTimes(reqTimes, windowStart);
      var events := PruneTokenEvents(tokenEvents, windowStart);
      reqTimes, tokenEvents := times, events;
      var used := SumTokens(tokenEvents);
      loc := LocalWindow(|reqTimes|, used,
                         RetryAfter(Oldest(reqTimes, TimeAt()), nowMs), RetryAfter(Oldest(tokenEvents, EventAt()), nowMs));
    }

    method ReserveLocked(nowMs: int, tpmLimit: int, estimatedTokens: int)
      modifies this
      ensures Contents() == Record(old(Contents()), tpmLimit, nowMs, estimatedTokens)
    {
      reqTimes := reqTimes + [nowMs];
      if estimatedTokens > 0 && tpmLimit > 0 {
        tokenEvents := tokenEvents + [TokenEvent(nowMs, estimatedTokens)];
      }
    }

    /** The body of the memory-only shard-lock hold. */
    method DecideAndReserve(rpmLimit: nat, tpmLimit: nat, nowMs: int, estimatedTokens: int) returns (d: Decision)
      modifies this
      ensures (Contents(), d) == AllowStep(old(Contents()), rpmLimit, tpmLimit, nowMs, estimatedTokens)
    {
      var loc := SnapshotLocked(nowMs - WINDOW_MS, nowMs);
      if rpmLimit > 0 && loc.usedRPM >= rpmLimit {
        return Decision(false, OverRPM, loc.retryRPM, loc.usedRPM, loc.usedTPM);
      }
      if tpmLimit > 0 && estimatedTokens > 0 && Wrap64(loc.usedTPM + estimatedTokens) > tpmLimit {
        return Decision(false, OverTPM, loc.retryTPM, loc.usedRPM, loc.usedTPM);
      }
      ReserveLocked(nowMs, tpmLimit, estimatedTokens);
      d := Decision(true, Granted, 0, loc.usedRPM + 1, Wrap64(loc.usedTPM + Max(estimatedTokens, 0)));
    }
  }

  class KeyAdmissionLimiter {
    var keys: map<int, KeyWindow>

    /** No window is shared between two keys. */
    ghost predicate Valid()
      reads this
    {
      forall a, b :: a in keys && b in keys && a != b ==> keys[a] != keys[b]
    }

    /** The window of a key; an absent key has an empty one. */
    ghost function WindowOf(key: int): Win
      reads this, keys.Values
    {
      if key in keys then keys[key].Contents() else EMPTY_WIN
    }

    constructor ()
      ensures Valid() && keys == map[]
    {
      keys := map[];
    }

    method Allow(keyID: int, maxRPM: Option<int>, maxTPM: Option<int>, estimatedTokens: int, nowMs: int)
      returns (d: Decision)
      requires Valid()
      modifies this, keys.Values
      ensures Valid()
      ensures forall k :: k != keyID ==> WindowOf(k) == old(WindowOf(k))
      ensures keyID <= 0 || Effective(maxRPM) == Effective(maxTPM) == 0 ==>
        d == Decision(true, Granted, 0, 0, 0) && WindowOf(keyID) == old(WindowOf(keyID))
      ensures keyID > 0 && Effective(maxRPM) + Effective(maxTPM) > 0 ==>
        (WindowOf(keyID), d) == AllowStep(old(WindowOf(keyID)), Effective(maxRPM), Effective(maxTPM), nowMs, estimatedTokens)
    {
      if keyID <= 0 {
        return Decision(true, Granted, 0, 0, 0);
      }
      var rpmLimit, tpmLimit := Effective(maxRPM), Effective(maxTPM);
      if rpmLimit == 0 && tpmLimit == 0 {
        return Decision(true, Granted, 0, 0, 0);
      }
      var w: KeyWindow;
      if keyID in keys {
        w := keys[keyID];
      } else {
        w := new KeyWindow();
        keys := keys[keyID := w];
      }
      d := w.DecideAndReserve(rpmLimit, tpmLimit, nowMs, estimatedTokens);
    }

    method Snapshot(keyID: int, nowMs: int) returns (usedRPM: int, usedTPM: int)
      requires Valid()
      modifies keys.Values
      ensures Valid()
      ensures forall k :: k != keyID ==> WindowOf(k) == old(WindowOf(k))
      ensures WindowOf(keyID) == if keyID <= 0 then old(WindowOf(keyID)) else PruneWin(old(WindowOf(keyID)), nowMs - WINDOW_MS)
      ensures keyID <= 0 ==> usedRPM == usedTPM == 0
      ensures keyID > 0 ==> usedRPM == |WindowOf(keyID).req| && usedTPM == Wrap64(SumBy(WindowOf(keyID).tok, Tokens()))
    {
      if keyID <= 0 || keyID !in keys {
        return 0, 0;
      }
      var loc := keys[keyID].SnapshotLocked(nowMs - WINDOW_MS, nowMs);
      usedRPM, usedTPM := loc.usedRPM, loc.usedTPM;
    }
  }

  // ---------------------------------------------------------------- runs

  /** A call that takes the shard lock: an admission, or an admin read that also prunes. */
  datatype Call = Admit(now: int, est: int) | Peek(now: int)

  /** The pruned log next to the log of everything ever admitted. */
  datatype Run = Run(win: Win, full: Win)

  function Exec(rpm: nat, tpm: nat, calls: seq<Call>): Run {
    if calls == [] then Run(EMPTY_WIN, EMPTY_WIN)
    else ExecStep(Exec(rpm, tpm, calls[..|calls| - 1]), rpm, tpm, calls[|calls| - 1])
  }

  function ExecStep(prev: Run, rpm: nat, tpm: nat, call: Call): Run {
    match call
    case Peek(now) => Run(PruneWin(prev.win, now - WINDOW_MS), prev.full)
    case Admit(now, est) =>
      var (w, d) := AllowStep(prev.win, rpm, tpm, now, est);
      Run(w, if d.allowed then Record(prev.full, tpm, now, est) else prev.full)
  }

  /** Timestamps never go back in lock order. */
  ghost predicate Ordered(calls: seq<Call>) {
    forall i, j :: 0 <= i < j < |calls| ==> calls[i].now <= calls[j].now
  }

  /** No estimate is large enough to overflow int64 on top of a full window. */
  ghost predicate EstimatesFit(tpm: nat, calls: seq<Call>) {
    tpm <= MAX_INT64 && forall c :: c in calls && c.Admit? ==> c.est <= MAX_INT64 - tpm
  }

  function Since<T>(at: T -> int, start: int): T -> bool { (x: T) => start <= at(x) }

  /** The full log cut to the entries at or after `start`. */
  function Cut(w: Win, start: int): Win {
    Win(Filter(w.req, Since(TimeAt(), start)), Filter(w.tok, Since(EventAt(), start)))
  }

  /** Weight 1 for a request inside the closed span of one window length starting at `a`. */
  function InSpan(a: int): int -> int { (t: int) => if a <= t <= a + WINDOW_MS then 1 else 0 }

  function SpanTokens(a: int): TokenEvent -> int {
    (e: TokenEvent) => if a <= e.at <= a + WINDOW_MS then e.tokens else 0
  }

  ghost predicate Sorted<T>(s: seq<T>, at: T -> int) {
    forall i, j :: 0 <= i <= j < |s| ==> at(s[i]) <= at(s[j])
  }

  // ---------------------------------------------------------------- lemmas on logs

  lemma SnocKeepsOrder<T>(s: seq<T>, x: T, at: T -> int)
    requires Sorted(s, at) && forall y :: y in s ==> at(y) <= at(x)
    ensures Sorted(s + [x], at)
  {
    forall i | 0 <= i < |s| ensures at(s[i]) <= at(x) {
      assert s[i] in s;
    }
  }

  lemma {:induction false} FilterKeepsOrder<T>(s: seq<T>, at: T -> int, p: T -> bool)
    requires Sorted(s, at)
    ensures Sorted(Filter(s, p), at)
  {
    if s != [] {
      var init, last := s[..|s| - 1], s[|s| - 1];
      FilterKeepsOrder(init, at, p);
      if p(last) {
        forall x | x in init ensures at(x) <= at(last) {}
        SnocKeepsOrder(Filter(init, p), last, at);
      }
    }
  }

  lemma {:induction false} FilterFront<T>(s: seq<T>, p: T -> bool)
    requires s != []
    ensures Filter(s, p) == (if p(s[0]) then [s[0]] else []) + Filter(s[1..], p)
  {
    if |s| > 1 {
      var init := s[..|s| - 1];
      FilterFront(init, p);
      assert s[1..][..|s| - 2] == init[1..];
    }
  }

  /** On an ordered log, pruning the old prefix is filtering by age. */
  lemma {:induction false} PruneIsCut<T>(s: seq<T>, at: T -> int, start: int)
    requires Sorted(s, at)
    ensures Prune(s, at, start) == Filter(s, Since(at, start))
  {
    if s == [] {
    } else if at(s[0]) < start {
      FilterFront(s, Since(at, start));
      PruneIsCut(s[1..], at, start);
    } else {
      assert forall x :: x in s ==> at(s[0]) <= at(x);
      FilterAll(s, Since(at, start));
    }
  }

  lemma {:induction false} CutTwice<T>(s: seq<T>, at: T -> int, early: int, late: int)
    requires early <= late
    ensures Filter(Filter(s, Since(at, early)), Since(at, late)) == Filter(s, Since(at, late))
  {
    if s != [] {
      var init, last := s[..|s| - 1], s[|s| - 1];
      CutTwice(init, at, early, late);
      if at(last) >= early {
        FilterSnoc(Filter(init, Since(at, early)), last, Since(at, late));
      }
    }
  }

  /** Pruning a log that is already a cut of an ordered history gives the later cut. */
  lemma PruneOfCut<T>(s: seq<T>, at: T -> int, early: int, late: int)
    requires Sorted(s, at) && early <= late
    ensures Prune(Filter(s, Since(at, early)), at, late) == Filter(s, Since(at, late))
  {
    FilterKeepsOrder(s, at, Since(at, early));
    PruneIsCut(Filter(s, Since(at, early)), at, late);
    CutTwice(s, at, early, late);
  }

  lemma {:induction false} SpanWithinCut(s: seq<int>, a: int, start: int)
    requires start <= a
    ensures SumBy(s, InSpan(a)) <= |Filter(s, Since(TimeAt(), start))|
  {
    if s != [] {
      SpanWithinCut(s[..|s| - 1], a, start);
    }
  }

  lemma {:induction false} TokenSpanWithinCut(s: seq<TokenEvent>, a: int, start: int)
    requires start <= a && forall e :: e in s ==> e.tokens > 0
    ensures SumBy(s, SpanTokens(a)) <= SumBy(Filter(s, Since(EventAt(), start)), Tokens())
  {
    if s != [] {
      var init, last := s[..|s| - 1], s[|s| - 1];
      TokenSpanWithinCut(init, a, start);
      if start <= last.at {
        SumSnoc(Filter(init, Since(EventAt(), start)), last, Tokens());
      }
    }
  }

  // ---------------------------------------------------------------- the run invariant

  ghost predicate History(full: Win, tpm: nat, last: int) {
    && Sorted(full.req, TimeAt()) && (forall t :: t in full.req ==> t <= last)
    && Sorted(full.tok, EventAt()) && (forall e :: e in full.tok ==> e.at <= last && e.tokens > 0)
    && (tpm == 0 ==> full.tok == [])
  }

  ghost predicate Bounded(full: Win, rpm: nat, tpm: nat) {
    && (rpm > 0 ==> forall a :: SumBy(full.req, InSpan(a)) <= rpm)
    && (tpm > 0 ==> forall a :: SumBy(full.tok, SpanTokens(a)) <= tpm)
  }

  ghost predicate Inv(run: Run, rpm: nat, tpm: nat, last: int) {
    History(run.full, tpm, last) && Bounded(run.full, rpm, tpm) && run.win == Cut(run.full, last - WINDOW_MS)
  }

  lemma PruneWinIsCut(run: Run, rpm: nat, tpm: nat, last: int, now: int)
    requires Inv(run, rpm, tpm, last) && last <= now
    ensures PruneWin(run.win, now - WINDOW_MS) == Cut(run.full, now - WINDOW_MS)
  {
    PruneOfCut(run.full.req, TimeAt(), last - WINDOW_MS, now - WINDOW_MS);
    PruneOfCut(run.full.tok, EventAt(), last - WINDOW_MS, now - WINDOW_MS);
  }

  /** A cut one window long holds at most tpm tokens, so its int64 sum is exact. */
  lemma CutTokens(full: Win, rpm: nat, tpm: nat, now: int)
    requires History(full, tpm, now) && Bounded(full, rpm, tpm) && tpm <= MAX_INT64
    ensures 0 <= SumBy(Cut(full, now - WINDOW_MS).tok, Tokens()) <= tpm
  {
    var start := now - WINDOW_MS;
    var cut := Cut(full, start).tok;
    SumNonNegative(cut, Tokens());
    SumLe(cut, Tokens(), SpanTokens(start));
    SumFilter(full.tok, Since(EventAt(), start), SpanTokens(start));
  }

  lemma RecordKeepsBounds(full: Win, rpm: nat, tpm: nat, now: int, est: int)
    requires History(full, tpm, now) && Bounded(full, rpm, tpm)
    requires rpm > 0 ==> |Cut(full, now - WINDOW_MS).req| < rpm
    requires tpm > 0 && est > 0 ==> SumBy(Cut(full, now - WINDOW_MS).tok, Tokens()) + est <= tpm
    ensures History(Record(full, tpm, now, est), tpm, now) && Bounded(Record(full, tpm, now, est), rpm, tpm)
  {
    var start := now - WINDOW_MS;
    forall a ensures rpm > 0 ==> SumBy(full.req + [now], InSpan(a)) <= rpm {
      SumSnoc(full.req, now, InSpan(a));
      if start <= a {
        SpanWithinCut(full.req, a, start);
      }
    }
    SnocKeepsOrder(full.req, now, TimeAt());
    if est > 0 && tpm > 0 {
      SnocKeepsOrder(full.tok, TokenEvent(now, est), EventAt());
      forall a ensures SumBy(full.tok + [TokenEvent(now, est)], SpanTokens(a)) <= tpm {
        SumSnoc(full.tok, TokenEvent(now, est), SpanTokens(a));
        if start <= a {
          TokenSpanWithinCut(full.tok, a, start);
        }
      }
    }
  }

  lemma AdmitKeepsInv(run: Run, rpm: nat, tpm: nat, last: int, now: int, est: int)
    requires Inv(run, rpm, tpm, last) && last <= now && tpm <= MAX_INT64 && est <= MAX_INT64 - tpm
    ensures Inv(ExecStep(run, rpm, tpm, Admit(now, est)), rpm, tpm, now)
  {
    PruneWinIsCut(run, rpm, tpm, last, now);
    CutTokens(run.full, rpm, tpm, now);
    var (w, d) := AllowStep(run.win, rpm, tpm, now, est);
    if d.allowed {
      RecordKeepsBounds(run.full, rpm, tpm, now, est);
      FilterSnoc(run.full.req, now, Since(TimeAt(), now - WINDOW_MS));
      FilterSnoc(run.full.tok, TokenEvent(now, est), Since(EventAt(), now - WINDOW_MS));
    }
  }

  lemma StepKeepsInv(run: Run, rpm: nat, tpm: nat, last: int, call: Call)
    requires Inv(run, rpm, tpm, last) && last <= call.now && tpm <= MAX_INT64
    requires call.Admit? ==> call.est <= MAX_INT64 - tpm
    ensures Inv(ExecStep(run, rpm, tpm, call), rpm, tpm, call.now)
  {
    if call.Peek? {
      PruneWinIsCut(run, rpm, tpm, last, call.now);
    } else {
      AdmitKeepsInv(run, rpm, tpm, last, call.now, call.est);
    }
  }

  lemma {:induction false} ExecKeepsInv(rpm: nat, tpm: nat, calls: seq<Call>)
    requires Ordered(calls) && EstimatesFit(tpm, calls)
    ensures calls != [] ==> Inv(Exec(rpm, tpm, calls), rpm, tpm, calls[|calls| - 1].now)
  {
    if calls != [] {
      var init, call := calls[..|calls| - 1], calls[|calls| - 1];
      var last := if init == [] then call.now else init[|init| - 1].now;
      ExecKeepsInv(rpm, tpm, init);
      assert calls[|calls| - 1] in calls;
      StepKeepsInv(Exec(rpm, tpm, init), rpm, tpm, last, call);
    }
  }

  // ---------------------------------------------------------------- theorems

  /** The pruned log is always the whole admission history cut to the last window. */
  lemma PrunedLogIsRecentHistory(rpm: nat, tpm: nat, calls: seq<Call>)
    requires calls != [] && Ordered(calls) && EstimatesFit(tpm, calls)
    ensures var run := Exec(rpm, tpm, calls);
            run.win == Cut(run.full, calls[|calls| - 1].now - WINDOW_MS)
  {
    ExecKeepsInv(rpm, tpm, calls);
  }

  /** No closed span of one window length ever holds more admissions or reserved tokens than the limits. */
  lemma EverySpanWithinLimits(rpm: nat, tpm: nat, calls: seq<Call>, a: int)
    requires Ordered(calls) && EstimatesFit(tpm, calls)
    ensures var full := Exec(rpm, tpm, calls).full;
            && (rpm > 0 ==> SumBy(full.req, InSpan(a)) <= rpm)
            && (tpm > 0 ==> SumBy(full.tok, SpanTokens(a)) <= tpm)
  {
    ExecKeepsInv(rpm, tpm, calls);
  }

  lemma {:induction false} SpanIsCut(s: seq<int>, start: int)
    requires forall i :: 0 <= i < |s| ==> s[i] <= start + WINDOW_MS
    ensures SumBy(s, InSpan(start)) == |Filter(s, Since(TimeAt(), start))|
  {
    if s != [] {
      SpanIsCut(s[..|s| - 1], start);
    }
  }

  lemma {:induction false} TokenSpanIsCut(s: seq<TokenEvent>, start: int)
    requires forall e :: e in s ==> e.at <= start + WINDOW_MS
    ensures SumBy(s, SpanTokens(start)) == SumBy(Filter(s, Since(EventAt(), start)), Tokens())
  {
    if s != [] {
      var init, last := s[..|s| - 1], s[|s| - 1];
      assert forall e :: e in init ==> e in s;
      TokenSpanIsCut(init, start);
      if start <= last.at {
        SumSnoc(Filter(init, Since(EventAt(), start)), last, Tokens());
      }
    }
  }

  /** What an admission must answer when the last window holds these requests and tokens. */
  predicate Decides(rpm: nat, tpm: nat, est: int, requests: int, tokens: int, d: Decision) {
    var rpmFull, tpmFull := rpm > 0 && requests >= rpm, tpm > 0 && est > 0 && tokens + est > tpm;
    && (d.allowed <==> !rpmFull && !tpmFull)
    && (d.reason == OverRPM <==> rpmFull)
    && (d.reason == OverTPM <==> !rpmFull && tpmFull)
    && d.usedRPM == requests + (if d.allowed then 1 else 0)
    && d.usedTPM == tokens + (if d.allowed then Max(est, 0) else 0)
  }

  /** Requests and tokens read off the full history. */
  ghost predicate DecidesByHistory(full: Win, rpm: nat, tpm: nat, now: int, est: int, d: Decision) {
    Decides(rpm, tpm, est, SumBy(full.req, InSpan(now - WINDOW_MS)), SumBy(full.tok, SpanTokens(now - WINDOW_MS)), d)
  }

  lemma PrunedWindowDecides(w: Win, p: Win, rpm: nat, tpm: nat, now: int, est: int, tokens: int)
    requires p == PruneWin(w, now - WINDOW_MS) && tokens == SumBy(p.tok, Tokens())
    requires 0 <= tokens <= tpm <= MAX_INT64 && est <= MAX_INT64 - tpm
    ensures Decides(rpm, tpm, est, |p.req|, tokens, AllowStep(w, rpm, tpm, now, est).1)
  {}

  lemma StepDecidesByHistory(run: Run, rpm: nat, tpm: nat, last: int, now: int, est: int)
    requires Inv(run, rpm, tpm, last) && last <= now && tpm <= MAX_INT64 && est <= MAX_INT64 - tpm
    ensures DecidesByHistory(run.full, rpm, tpm, now, est, AllowStep(run.win, rpm, tpm, now, est).1)
  {
    var p := Cut(run.full, now - WINDOW_MS);
    PruneWinIsCut(run, rpm, tpm, last, now);
    CutTokens(run.full, rpm, tpm, now);
    SpanIsCut(run.full.req, now - WINDOW_MS);
    TokenSpanIsCut(run.full.tok, now - WINDOW_MS);
    PrunedWindowDecides(run.win, p, rpm, tpm, now, est, SumBy(p.tok, Tokens()));
  }

  /**
    After any run, the next request is admitted exactly when the last window of the admission
    history leaves room for it; a full request window is reported before a full token window, and
    the reported usage is the history's.
  */
  lemma AdmitsExactlyWhenThereIsRoom(rpm: nat, tpm: nat, calls: seq<Call>, now: int, est: int)
    requires Ordered(calls) && EstimatesFit(tpm, calls) && est <= MAX_INT64 - tpm
    requires calls != [] ==> calls[|calls| - 1].now <= now
    ensures var run := Exec(rpm, tpm, calls);
            DecidesByHistory(run.full, rpm, tpm, now, est, AllowStep(run.win, rpm, tpm, now, est).1)
  {
    ExecKeepsInv(rpm, tpm, calls);
    StepDecidesByHistory(Exec(rpm, tpm, calls), rpm, tpm, if calls == [] then now else calls[|calls| - 1].now, now, est);
  }

  /** The int64 token check decides like exact arithmetic exactly when the sum is representable. */
  lemma TokenCheckExactIff(used: int, est: int, tpm: int)
    requires 0 <= used <= tpm <= MAX_INT64 && 0 < est <= MAX_INT64
    ensures (TokenCheckDenies(used, est, tpm) <==> used + est > tpm) <==> used + est <= MAX_INT64
  {
    if used + est > MAX_INT64 {
      assert used + est - MIN_INT64 - TWO_64 < TWO_64;
      assert (used + est - MIN_INT64) % TWO_64 == used + est - MIN_INT64 - TWO_64;
    }
  }

  /**
    Retrying after exactly the reported wait, with no other traffic, finds the oldest request gone
    if and only if the one-second floor was what was reported: otherwise the wait is one
    millisecond short and the same request is denied again.
  */
  lemma RetryAfterExactIff(w: Win, rpm: nat, tpm: nat, now: int, est: int)
    requires var d := AllowStep(w, rpm, tpm, now, est).1; !d.allowed && d.reason == OverRPM
    ensures var (p, d) := AllowStep(w, rpm, tpm, now, est);
            var again := PruneWin(p, now + d.retryAfterMs - WINDOW_MS);
            && |again.req| <= |p.req|
            && (|again.req| < |p.req| <==> p.req[0] + WINDOW_MS - now < 1000)
    ensures var (p, d) := AllowStep(w, rpm, tpm, now, est);
            p.req[0] + WINDOW_MS - now >= 1000 ==> AllowStep(p, rpm, tpm, now + d.retryAfterMs, est).1.reason == OverRPM
  {
    var (p, d) := AllowStep(w, rpm, tpm, now, est);
    PruneLength(p.req, TimeAt(), now + d.retryAfterMs - WINDOW_MS);
  }

  /** The same holds of the wait reported for tokens, when the window holds any. */
  lemma TokenRetryAfterExactIff(w: Win, rpm: nat, tpm: nat, now: int, est: int)
    requires var d := AllowStep(w, rpm, tpm, now, est).1; !d.allowed && d.reason == OverTPM
    ensures var (p, d) := AllowStep(w, rpm, tpm, now, est);
            var again := PruneWin(p, now + d.retryAfterMs - WINDOW_MS);
            && |again.tok| <= |p.tok|
            && (|again.tok| < |p.tok| <==> p.tok != [] && p.tok[0].at + WINDOW_MS - now < 1000)
    ensures var (p, d) := AllowStep(w, rpm, tpm, now, est);
            p.tok == [] || p.tok[0].at + WINDOW_MS - now >= 1000 ==> !AllowStep(p, rpm, tpm, now + d.retryAfterMs, est).1.allowed
  {
    var (p, d) := AllowStep(w, rpm, tpm, now, est);
    PruneLength(p.tok, EventAt(), now + d.retryAfterMs - WINDOW_MS);
  }

  /**
    The reported wait is the time until the oldest request of the full window is 60 000 ms old, and at
    least a second: one millisecond after it, with no other traffic, that request is always gone, and a
    window that was exactly full takes requests again.
  */
  lemma RetryAfterIsEnough(w: Win, rpm: nat, tpm: nat, now: int, est: int)
    requires var d := AllowStep(w, rpm, tpm, now, est).1; !d.allowed && d.reason == OverRPM
    ensures var (p, d) := AllowStep(w, rpm, tpm, now, est);
            var later := now + d.retryAfterMs + 1;
            && p.req != [] && d.retryAfterMs >= 1000
            && (d.retryAfterMs > 1000 ==> now + d.retryAfterMs == p.req[0] + 60_000)
            && |PruneWin(p, later - 60_000).req| < |p.req|
            && (|p.req| == rpm ==> AllowStep(p, rpm, tpm, later, est).1.reason != OverRPM)
  {
    var (p, d) := AllowStep(w, rpm, tpm, now, est);
    PruneLength(p.req, TimeAt(), now + d.retryAfterMs + 1 - WINDOW_MS);
  }

  /** The same of the wait reported for tokens; a window without tokens reports one second. */
  lemma TokenRetryAfterIsEnough(w: Win, rpm: nat, tpm: nat, now: int, est: int)
    requires var d := AllowStep(w, rpm, tpm, now, est).1; !d.allowed && d.reason == OverTPM
    ensures var (p, d) := AllowStep(w, rpm, tpm, now, est);
            && d.retryAfterMs >= 1000
            && (p.tok == [] ==> d.retryAfterMs == 1000)
            && (d.retryAfterMs > 1000 ==> now + d.retryAfterMs == p.tok[0].at + 60_000)
            && (p.tok != [] ==> |PruneWin(p, now + d.retryAfterMs + 1 - 60_000).tok| < |p.tok|)
  {
    var (p, d) := AllowStep(w, rpm, tpm, now, est);
    PruneLength(p.tok, EventAt(), now + d.retryAfterMs + 1 - WINDOW_MS);
  }

  /** An admitted request is recorded at its time, its positive estimate under a token limit with it; a denied one is not. */
  lemma AdmissionIsRecorded(w: Win, rpm: nat, tpm: nat, now: int, est: int)
    ensures var (r, d) := AllowStep(w, rpm, tpm, now, est);
            var p := PruneWin(w, now - 60_000);
            if !d.allowed then r == p
            else
              && r.req == p.req + [now]
              && r.tok == p.tok + (if est > 0 && tpm > 0 then [TokenEvent(now, est)] else [])
              && d.retryAfterMs == 0
  {}

  lemma {:induction false} PruneLength<T>(s: seq<T>, at: T -> int, start: int)
    ensures |Prune(s, at, start)| <= |s|
    ensures |Prune(s, at, start)| == |s| ==> Prune(s, at, start) == s
    ensures Prune(s, at, start) != [] ==> at(Prune(s, at, start)[0]) >= start
    ensures s != [] ==> (|Prune(s, at, start)| < |s| <==> at(s[0]) < start)
  {
    if s != [] && at(s[0]) < start {
      PruneLength(s[1..], at, start);
    }
  }
}
