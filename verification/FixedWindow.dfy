/**
  The per-IP fixed-window limiter of the proxy routes (`auth/ratelimit.go`) and its background
  sweep of idle entries: what a window admits, what any span of that length admits, and what each
  request is answered.
*/
module FixedWindow {
  import opened Seqs

  const WINDOW := 60_000
  const IDLE_GRACE := 300_000

  datatype Entry = Entry(count: nat, resetAt: int)

  type Windows = map<string, Entry>

  /** A disabled limiter reports no reset time. */
  datatype Result = Result(allowed: bool, limit: int, remaining: int, resetAt: Option<int>)

  // ---------------------------------------------------------------- steps

  function Current(w: Windows, ip: string, now: int): Entry {
    if ip !in w || now > w[ip].resetAt then Entry(0, now + WINDOW) else w[ip]
  }

  function AllowStep(w: Windows, limit: int, ip: string, now: int): (Windows, Result) {
    if limit <= 0 then (w, Result(true, 0, 0, None))
    else
      var e := Current(w, ip, now);
      var counted := e.(count := e.count + 1);
      (w[ip := counted],
       Result(counted.count <= limit, limit, if counted.count < limit then limit - counted.count else 0, Some(e.resetAt)))
  }

  function Sweep(w: Windows, now: int): Windows {
    map ip | ip in w && now <= w[ip].resetAt + IDLE_GRACE :: w[ip]
  }

  class IPRateLimiter {
    var windows: Windows
    const limit: int

    constructor (limit: int)
      ensures windows == map[] && this.limit == limit
    {
      this.limit := limit;
      windows := map[];
    }

    method Allow(ip: string, now: int) returns (r: Result)
      modifies this
      ensures (windows, r) == AllowStep(old(windows), limit, ip, now)
    {
      if limit <= 0 {
        return Result(true, 0, 0, None);
      }
      if ip !in windows || now > windows[ip].resetAt {
        windows := windows[ip := Entry(0, now + WINDOW)];
      }
      var resetAt := windows[ip].resetAt;
      windows := windows[ip := Entry(windows[ip].count + 1, resetAt)];
      assert windows == old(windows)[ip := windows[ip]];
      var remaining := limit - windows[ip].count;
      if remaining < 0 {
        remaining := 0;
      }
      if windows[ip].count > limit {
        return Result(false, limit, 0, Some(resetAt));
      }
      r := Result(true, limit, remaining, Some(resetAt));
    }

    /** One tick of the cleanup loop. */
    method CleanupTick(now: int)
      modifies this
      ensures windows == Sweep(old(windows), now)
    {
      var rest := windows.Keys;
      while rest != {}
        invariant rest <= old(windows).Keys
        invariant windows == map ip | ip in old(windows) && (ip in rest || now <= old(windows)[ip].resetAt + IDLE_GRACE) :: old(windows)[ip]
        decreases rest
      {
        var ip :| ip in rest;
        if now > windows[ip].resetAt + IDLE_GRACE {
          windows := windows - {ip};
        }
        rest := rest - {ip};
      }
    }
  }

  // ---------------------------------------------------------------- runs

  datatype Op = Request(ip: string, now: int) | Tick(now: int)

  datatype Answer = Answer(ip: string, now: int, result: Result)

  /** The windows and every answer given, oldest first. */
  function Exec(limit: int, ops: seq<Op>): (Windows, seq<Answer>) {
    if ops == [] then (map[], []) else ExecStep(Exec(limit, ops[..|ops| - 1]), limit, ops[|ops| - 1])
  }

  function ExecStep(before: (Windows, seq<Answer>), limit: int, op: Op): (Windows, seq<Answer>) {
    match op
    case Tick(now) => (Sweep(before.0, now), before.1)
    case Request(ip, now) =>
      var (w, r) := AllowStep(before.0, limit, ip, now);
      (w, before.1 + [Answer(ip, now, r)])
  }

  ghost predicate Ordered(ops: seq<Op>) {
    forall i, j :: 0 <= i < j < |ops| ==> ops[i].now <= ops[j].now
  }

  function IsRequest(): Op -> bool { (op: Op) => op.Request? }

  // ---------------------------------------------------------------- sweeping is invisible

  /** The swept windows miss only entries whose window is already over. */
  ghost predicate SameButOver(swept: Windows, kept: Windows, last: int) {
    && (forall ip :: ip in swept ==> ip in kept && kept[ip] == swept[ip])
    && (forall ip :: ip in kept && ip !in swept ==> kept[ip].resetAt < last)
  }

  lemma StepKeepsSameButOver(swept: (Windows, seq<Answer>), kept: (Windows, seq<Answer>), limit: int, op: Op, last: int)
    requires SameButOver(swept.0, kept.0, op.now) && swept.1 == kept.1 && op.now <= last
    ensures var after := if op.Request? then ExecStep(kept, limit, op) else kept;
            SameButOver(ExecStep(swept, limit, op).0, after.0, last) && ExecStep(swept, limit, op).1 == after.1
  {}

  lemma {:induction false} SweepsCommute(limit: int, ops: seq<Op>, last: int)
    requires Ordered(ops) && forall i :: 0 <= i < |ops| ==> ops[i].now <= last
    ensures Exec(limit, ops).1 == Exec(limit, Filter(ops, IsRequest())).1
    ensures SameButOver(Exec(limit, ops).0, Exec(limit, Filter(ops, IsRequest())).0, last)
  {
    if ops != [] {
      var init, op := ops[..|ops| - 1], ops[|ops| - 1];
      SweepsCommute(limit, init, op.now);
      var requests := Filter(init, IsRequest());
      FilterSnoc(init, op, IsRequest());
      assert init + [op] == ops && (requests + [op])[..|requests|] == requests;
      StepKeepsSameButOver(Exec(limit, init), Exec(limit, requests), limit, op, last);
    }
  }

  /** With a clock that never goes back, any interleaving of sweeps gives the answers of never sweeping. */
  lemma SweepsInvisible(limit: int, ops: seq<Op>)
    requires Ordered(ops)
    ensures Exec(limit, ops).1 == Exec(limit, Filter(ops, IsRequest())).1
  {
    if ops != [] {
      SweepsCommute(limit, ops, ops[|ops| - 1].now);
    }
  }

  // ---------------------------------------------------------------- one IP

  /** The request times of one IP. */
  function Times(ops: seq<Op>, ip: string): seq<int> {
    if ops == [] then []
    else
      var op := ops[|ops| - 1];
      Times(ops[..|ops| - 1], ip) + (if op.Request? && op.ip == ip then [op.now] else [])
  }

  function AdmittedTimes(log: seq<Answer>, ip: string): seq<int> {
    if log == [] then []
    else
      var a := log[|log| - 1];
      AdmittedTimes(log[..|log| - 1], ip) + (if a.ip == ip && a.result.allowed then [a.now] else [])
  }

  /** The entry and the admitted times of one IP that is never swept. */
  function PerIP(limit: int, times: seq<int>): (Option<Entry>, seq<int>) {
    if times == [] then (None, []) else PerIPStep(PerIP(limit, times[..|times| - 1]), limit, times[|times| - 1])
  }

  function PerIPStep(before: (Option<Entry>, seq<int>), limit: int, now: int): (Option<Entry>, seq<int>) {
    var e := if before.0.None? || now > before.0.value.resetAt then Entry(0, now + WINDOW) else before.0.value;
    (Some(Entry(e.count + 1, e.resetAt)), if e.count + 1 <= limit then before.1 + [now] else before.1)
  }

  lemma AdmittedTimesSnoc(log: seq<Answer>, a: Answer, ip: string)
    ensures AdmittedTimes(log + [a], ip) == AdmittedTimes(log, ip) + (if a.ip == ip && a.result.allowed then [a.now] else [])
  {
    assert (log + [a])[..|log|] == log;
  }

  /** The limiter's entry for `ip` is that of the isolated IP, or was swept after its window was over. */
  ghost predicate Projects(w: Windows, e: Option<Entry>, ip: string, last: int) {
    && (ip in w ==> e == Some(w[ip]))
    && (ip !in w ==> e.None? || e.value.resetAt < last)
  }

  lemma StepProjects(before: (Windows, seq<Answer>), alone: (Option<Entry>, seq<int>), limit: int, op: Op,
                     ip: string, last: int)
    requires limit > 0 && op.now <= last
    requires Projects(before.0, alone.0, ip, op.now) && AdmittedTimes(before.1, ip) == alone.1
    ensures var after := ExecStep(before, limit, op);
            var alone' := if op.Request? && op.ip == ip then PerIPStep(alone, limit, op.now) else alone;
            Projects(after.0, alone'.0, ip, last) && AdmittedTimes(after.1, ip) == alone'.1
  {
    if op.Request? {
      AdmittedTimesSnoc(before.1, Answer(op.ip, op.now, AllowStep(before.0, limit, op.ip, op.now).1), ip);
    }
  }

  /** A limiter serving and sweeping many IPs treats each as if it were alone and never swept. */
  lemma {:induction false} ExecProjects(limit: int, ops: seq<Op>, ip: string, last: int)
    requires Ordered(ops) && limit > 0 && forall i :: 0 <= i < |ops| ==> ops[i].now <= last
    ensures Projects(Exec(limit, ops).0, PerIP(limit, Times(ops, ip)).0, ip, last)
    ensures AdmittedTimes(Exec(limit, ops).1, ip) == PerIP(limit, Times(ops, ip)).1
  {
    if ops != [] {
      var init, op := ops[..|ops| - 1], ops[|ops| - 1];
      ExecProjects(limit, init, ip, op.now);
      StepProjects(Exec(limit, init), PerIP(limit, Times(init, ip)), limit, op, ip, last);
      if op.Request? && op.ip == ip {
        assert Times(ops, ip)[..|Times(init, ip)|] == Times(init, ip);
      } else {
        assert Times(ops, ip) == Times(init, ip);
      }
    }
  }

  // ---------------------------------------------------------------- admissions per span

  function From(start: int): int -> int { (t: int) => if start <= t then 1 else 0 }

  function InSpan(from: int): int -> int { (t: int) => if from <= t <= from + WINDOW then 1 else 0 }

  function Min(a: int, b: int): int { if a < b then a else b }

  /**
    The current window started at `start`; it admitted the lesser of its count and the limit, one
    of them at `start` itself, and the window before it contributes fewer than `limit` admissions
    to any span that reaches the current one.
  */
  ghost predicate Inv(e: Entry, admitted: seq<int>, limit: int, last: int, from: int) {
    var start := e.resetAt - WINDOW;
    && start <= last && e.count >= 1
    && (forall i :: 0 <= i < |admitted| ==> admitted[i] <= e.resetAt)
    && SumBy(admitted, From(start)) == Min(e.count, limit)
    && SumBy(admitted, From(start + 1)) < SumBy(admitted, From(start))
    && SumBy(admitted, From(start - WINDOW)) <= SumBy(admitted, From(start)) + limit - 1
    && SumBy(admitted, InSpan(from)) <= 2 * limit - 1
  }

  lemma FewerFromLater(admitted: seq<int>, early: int, late: int)
    requires early <= late
    ensures SumBy(admitted, From(late)) <= SumBy(admitted, From(early))
    ensures SumBy(admitted, InSpan(late)) <= SumBy(admitted, From(early))
  {
    SumLe(admitted, From(late), From(early));
    SumLe(admitted, InSpan(late), From(early));
  }

  lemma NoneFrom(admitted: seq<int>, start: int)
    requires forall i :: 0 <= i < |admitted| ==> admitted[i] < start
    ensures SumBy(admitted, From(start)) == 0
  {
    SumZero(admitted, From(start));
  }

  /** The first request of a window; `admitted` all belong to earlier, finished windows. */
  lemma FreshWindow(admitted: seq<int>, limit: int, now: int, from: int)
    requires limit > 0 && (forall i :: 0 <= i < |admitted| ==> admitted[i] < now)
    requires SumBy(admitted, From(now - WINDOW)) <= limit - 1 && SumBy(admitted, InSpan(from)) <= 2 * limit - 1
    ensures Inv(Entry(1, now + WINDOW), admitted + [now], limit, now, from)
  {
    NoneFrom(admitted, now);
    NoneFrom(admitted, now + 1);
    SumSnoc(admitted, now, From(now));
    SumSnoc(admitted, now, From(now + 1));
    SumSnoc(admitted, now, From(now - WINDOW));
    SumSnoc(admitted, now, InSpan(from));
    if from <= now <= from + WINDOW {
      FewerFromLater(admitted, now - WINDOW, from);
    }
  }

  /** A further request in a running window. */
  lemma RunningWindow(e: Entry, admitted: seq<int>, limit: int, last: int, now: int, from: int)
    requires Inv(e, admitted, limit, last, from) && limit > 0 && last <= now <= e.resetAt
    ensures Inv(e.(count := e.count + 1), if e.count + 1 <= limit then admitted + [now] else admitted, limit, now, from)
  {
    if e.count + 1 <= limit {
      var start := e.resetAt - WINDOW;
      SumSnoc(admitted, now, From(start));
      SumSnoc(admitted, now, From(start + 1));
      SumSnoc(admitted, now, From(start - WINDOW));
      SumSnoc(admitted, now, InSpan(from));
      if from <= now <= from + WINDOW {
        FewerFromLater(admitted, start - WINDOW, from);
      }
    }
  }

  ghost predicate Nondecreasing(times: seq<int>) {
    forall i, j :: 0 <= i < j < |times| ==> times[i] <= times[j]
  }

  lemma PerIPStepKeepsInv(e: Entry, admitted: seq<int>, limit: int, last: int, now: int, from: int)
    requires Inv(e, admitted, limit, last, from) && limit > 0 && last <= now
    ensures var after := PerIPStep((Some(e), admitted), limit, now); Inv(after.0.value, after.1, limit, now, from)
  {
    if now > e.resetAt {
      FewerFromLater(admitted, e.resetAt - WINDOW + 1, now - WINDOW);
      FreshWindow(admitted, limit, now, from);
    } else {
      RunningWindow(e, admitted, limit, last, now, from);
    }
  }

  lemma FirstStepKeepsInv(limit: int, now: int, from: int)
    requires limit > 0
    ensures var after := PerIPStep((None, []), limit, now); after.0.Some? && Inv(after.0.value, after.1, limit, now, from)
  {
    SumZero([], From(now - WINDOW));
    SumZero([], InSpan(from));
    FreshWindow([], limit, now, from);
  }

  lemma {:induction false} PerIPKeepsInv(limit: int, times: seq<int>, from: int)
    requires limit > 0 && Nondecreasing(times) && times != []
    ensures var state := PerIP(limit, times); state.0.Some? && Inv(state.0.value, state.1, limit, times[|times| - 1], from)
  {
    var init, now := times[..|times| - 1], times[|times| - 1];
    if init == [] {
      FirstStepKeepsInv(limit, now, from);
    } else {
      PerIPKeepsInv(limit, init, from);
      var before := PerIP(limit, init);
      PerIPStepKeepsInv(before.0.value, before.1, limit, init[|init| - 1], now, from);
    }
  }

  lemma {:induction false} TimesOrdered(ops: seq<Op>, ip: string, last: int)
    requires Ordered(ops) && forall i :: 0 <= i < |ops| ==> ops[i].now <= last
    ensures Nondecreasing(Times(ops, ip)) && forall i :: 0 <= i < |Times(ops, ip)| ==> Times(ops, ip)[i] <= last
  {
    if ops != [] {
      TimesOrdered(ops[..|ops| - 1], ip, ops[|ops| - 1].now);
    }
  }

  /**
    Whatever sweeps run, no span of one window length (ends included) ever sees more than
    2 * limit - 1 admissions of one IP.
  */
  lemma SpanBound(limit: int, ops: seq<Op>, ip: string, from: int)
    requires Ordered(ops) && limit > 0
    ensures SumBy(AdmittedTimes(Exec(limit, ops).1, ip), InSpan(from)) <= 2 * limit - 1
  {
    if ops != [] {
      var last := ops[|ops| - 1].now;
      ExecProjects(limit, ops, ip, last);
      TimesOrdered(ops, ip, last);
      if Times(ops, ip) != [] {
        PerIPKeepsInv(limit, Times(ops, ip), from);
      }
    }
  }

  /**
    In the window an IP is in, exactly the lesser of the requests counted and the limit were
    admitted: a window never admits more than `limit` and never refuses while it has room.
  */
  lemma WindowExact(limit: int, ops: seq<Op>, ip: string, w: Windows, log: seq<Answer>)
    requires Ordered(ops) && limit > 0 && Exec(limit, ops) == (w, log) && ip in w
    ensures SumBy(AdmittedTimes(log, ip), From(w[ip].resetAt - WINDOW)) == Min(w[ip].count, limit)
  {
    ProjectsLast(limit, ops, ip, w, log);
    PerIPExact(limit, Times(ops, ip), w[ip], AdmittedTimes(log, ip));
  }

  lemma ProjectsLast(limit: int, ops: seq<Op>, ip: string, w: Windows, log: seq<Answer>)
    requires Ordered(ops) && limit > 0 && Exec(limit, ops) == (w, log) && ip in w
    ensures PerIP(limit, Times(ops, ip)) == (Some(w[ip]), AdmittedTimes(log, ip))
    ensures Nondecreasing(Times(ops, ip))
  {
    var last := if ops == [] then 0 else ops[|ops| - 1].now;
    ExecProjects(limit, ops, ip, last);
    TimesOrdered(ops, ip, last);
  }

  lemma PerIPExact(limit: int, times: seq<int>, e: Entry, admitted: seq<int>)
    requires limit > 0 && Nondecreasing(times) && PerIP(limit, times) == (Some(e), admitted)
    ensures SumBy(admitted, From(e.resetAt - WINDOW)) == Min(e.count, limit)
  {
    PerIPKeepsInv(limit, times, 0);
  }

  function Copies(k: nat, now: int): (s: seq<int>)
    ensures |s| == k && forall i :: 0 <= i < k ==> s[i] == now
  {
    seq(k, _ => now)
  }

  /** While its window runs and has room, every request of an IP is admitted. */
  lemma {:induction false} RoomAdmits(limit: int, times: seq<int>, e: Entry, admitted: seq<int>, now: int, k: nat)
    requires PerIP(limit, times) == (Some(e), admitted) && now <= e.resetAt && e.count + k <= limit
    ensures PerIP(limit, times + Copies(k, now)) == (Some(Entry(e.count + k, e.resetAt)), admitted + Copies(k, now))
  {
    if k == 0 {
      assert times + Copies(0, now) == times && admitted + Copies(0, now) == admitted;
    } else {
      RoomAdmits(limit, times, e, admitted, now, k - 1);
      RoomAdmitsOne(limit, times + Copies(k - 1, now), Entry(e.count + k - 1, e.resetAt), admitted + Copies(k - 1, now), now);
      CopiesSnoc(times, k - 1, now);
      CopiesSnoc(admitted, k - 1, now);
    }
  }

  lemma RoomAdmitsOne(limit: int, times: seq<int>, e: Entry, admitted: seq<int>, now: int)
    requires PerIP(limit, times) == (Some(e), admitted) && now <= e.resetAt && e.count < limit
    ensures PerIP(limit, times + [now]) == (Some(Entry(e.count + 1, e.resetAt)), admitted + [now])
  {
    PerIPSnoc(limit, times, now);
  }

  lemma CopiesSnoc(s: seq<int>, k: nat, now: int)
    ensures s + Copies(k, now) + [now] == s + Copies(k + 1, now)
  {}

  lemma {:induction false} CopiesInSpan(k: nat, now: int, from: int)
    ensures SumBy(Copies(k, now), InSpan(from)) == k * InSpan(from)(now)
  {
    if k > 0 {
      CopiesInSpan(k - 1, now, from);
      assert Copies(k, now)[..k - 1] == Copies(k - 1, now);
    }
  }

  function RequestsAt(times: seq<int>, ip: string): seq<Op> {
    seq(|times|, i requires 0 <= i < |times| => Request(ip, times[i]))
  }

  lemma {:induction false} TimesOfRequests(times: seq<int>, ip: string)
    ensures Times(RequestsAt(times, ip), ip) == times
  {
    if times != [] {
      TimesOfRequests(times[..|times| - 1], ip);
      assert RequestsAt(times, ip)[..|times| - 1] == RequestsAt(times[..|times| - 1], ip);
    }
  }

  /** One request opens a window, the rest of the limit waits for its last instant, a full limit follows. */
  function AroundTheEdge(limit: nat): seq<int>
    requires limit > 0
  {
    [0] + Copies(limit - 1, WINDOW) + Copies(limit, WINDOW + 1)
  }

  lemma FirstWindowFills(limit: nat)
    requires limit > 0
    ensures var full := [0] + Copies(limit - 1, WINDOW);
            PerIP(limit, full) == (Some(Entry(limit, WINDOW)), full)
  {
    PerIPSnoc(limit, [], 0);
    assert [] + [0] == [0];
    RoomAdmits(limit, [0], Entry(1, WINDOW), [0], WINDOW, limit - 1);
  }

  lemma NextWindowOpens(limit: nat, full: seq<int>)
    requires limit > 0 && PerIP(limit, full) == (Some(Entry(limit, WINDOW)), full)
    ensures PerIP(limit, full + [WINDOW + 1]) == (Some(Entry(1, WINDOW + 1 + WINDOW)), full + [WINDOW + 1])
  {
    PerIPSnoc(limit, full, WINDOW + 1);
  }

  lemma OneMoreCopy(full: seq<int>, k: nat, now: int)
    ensures full + [now] + Copies(k, now) == full + Copies(k + 1, now)
  {}

  lemma AllAdmitted(limit: nat)
    requires limit > 0
    ensures PerIP(limit, AroundTheEdge(limit)).1 == AroundTheEdge(limit)
  {
    var full := [0] + Copies(limit - 1, WINDOW);
    FirstWindowFills(limit);
    NextWindowOpens(limit, full);
    RoomAdmits(limit, full + [WINDOW + 1], Entry(1, WINDOW + 1 + WINDOW), full + [WINDOW + 1], WINDOW + 1, limit - 1);
    OneMoreCopy(full, limit - 1, WINDOW + 1);
  }

  /** For every limit the bound is reached, by requests around the edge of a window. */
  lemma SpanBoundReached(limit: nat, ip: string) returns (ops: seq<Op>)
    requires limit > 0
    ensures Ordered(ops) && SumBy(AdmittedTimes(Exec(limit, ops).1, ip), InSpan(WINDOW)) == 2 * limit - 1
  {
    var times := AroundTheEdge(limit);
    ops := RequestsAt(times, ip);
    TimesOfRequests(times, ip);
    ExecProjects(limit, ops, ip, WINDOW + 1);
    AllAdmitted(limit);
    EdgeInSpan(limit);
  }

  lemma EdgeInSpan(limit: nat)
    requires limit > 0
    ensures SumBy(AroundTheEdge(limit), InSpan(WINDOW)) == 2 * limit - 1
  {
    SumConcat([0] + Copies(limit - 1, WINDOW), Copies(limit, WINDOW + 1), InSpan(WINDOW));
    SumConcat([0], Copies(limit - 1, WINDOW), InSpan(WINDOW));
    SumSnoc([], 0, InSpan(WINDOW));
    CopiesInSpan(limit - 1, WINDOW, WINDOW);
    CopiesInSpan(limit, WINDOW + 1, WINDOW);
    assert InSpan(WINDOW)(WINDOW) == 1 && InSpan(WINDOW)(WINDOW + 1) == 1;
  }

  lemma PerIPSnoc(limit: int, times: seq<int>, now: int)
    ensures PerIP(limit, times + [now]) == PerIPStep(PerIP(limit, times), limit, now)
  {
    assert (times + [now])[..|times|] == times;
  }

  // ---------------------------------------------------------------- answers in request times

  /** When the window of the last of these requests began: at the first request more than 60 000 ms after the previous beginning. */
  function WindowStart(times: seq<int>): int
    requires times != []
  {
    var now := times[|times| - 1];
    if |times| == 1 then now
    else
      var before := WindowStart(times[..|times| - 1]);
      if now > before + 60_000 then now else before
  }

  lemma {:induction false} EntryCountsItsWindow(limit: int, times: seq<int>)
    requires times != [] && Nondecreasing(times)
    ensures var start := WindowStart(times);
            && start <= times[|times| - 1] <= start + 60_000 && 0 <= SumBy(times, From(start))
            && PerIP(limit, times).0 == Some(Entry(SumBy(times, From(start)), start + 60_000))
  {
    var init, now := times[..|times| - 1], times[|times| - 1];
    if init == [] {
      assert times == [] + [now];
      SumSnoc([], now, From(now));
    } else {
      EntryCountsItsWindow(limit, init);
      if now > WindowStart(init) + 60_000 {
        assert forall i :: 0 <= i < |init| ==> init[i] <= init[|init| - 1];
        NoneFrom(init, now);
      }
      SumSnoc(init, now, From(WindowStart(times)));
      assert times == init + [now];
    }
  }

  lemma TimesSnoc(ops: seq<Op>, ip: string, now: int)
    ensures Times(ops + [Request(ip, now)], ip) == Times(ops, ip) + [now]
  {
    assert (ops + [Request(ip, now)])[..|ops|] == ops;
  }

  /** The next answer, from the isolated entry of the IP. */
  lemma AnswerOfEntry(w: Windows, e: Option<Entry>, admitted: seq<int>, limit: int, ip: string, now: int)
    requires limit > 0 && Projects(w, e, ip, now)
    ensures var after := PerIPStep((e, admitted), limit, now).0.value;
            AllowStep(w, limit, ip, now).1 ==
            Result(after.count <= limit, limit, if after.count < limit then limit - after.count else 0, Some(after.resetAt))
  {}

  /**
    After any run, with any sweeps in it, a request is answered by the requests of its own IP alone: it
    is the k-th since its window began, is allowed while k is within the limit, has limit - k left, and the
    window ends 60 000 ms after it began.
  */
  lemma AnswerExact(limit: int, ops: seq<Op>, ip: string, now: int)
    requires Ordered(ops) && limit > 0 && forall i :: 0 <= i < |ops| ==> ops[i].now <= now
    ensures var times := Times(ops, ip) + [now];
            var start := WindowStart(times);
            var k := SumBy(times, From(start));
            AllowStep(Exec(limit, ops).0, limit, ip, now).1 ==
            Result(k <= limit, limit, if k <= limit then limit - k else 0, Some(start + 60_000))
  {
    ExecProjects(limit, ops, ip, now);
    TimesOrdered(ops, ip, now);
    var times := Times(ops, ip);
    var alone := PerIP(limit, times);
    PerIPSnoc(limit, times, now);
    EntryCountsItsWindow(limit, times + [now]);
    AnswerOfEntry(Exec(limit, ops).0, alone.0, alone.1, limit, ip, now);
  }

  /** A limit of zero or less admits everything, keeps nothing and reports no reset time; a sweep takes what is over for 300 000 ms. */
  lemma DisabledLimitAndSweep(w: Windows, limit: int, ip: string, now: int)
    ensures limit <= 0 ==> AllowStep(w, limit, ip, now) == (w, Result(true, 0, 0, None))
    ensures forall x :: x in Sweep(w, now) <==> x in w && now - w[x].resetAt <= 300_000
    ensures forall x :: x in Sweep(w, now) ==> Sweep(w, now)[x] == w[x]
  {}
}
