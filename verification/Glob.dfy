/** The greedy glob matcher and model patterns (`routing/matcher.go`). */
module Glob {
  // The backtracking loop against the recursive meaning of `*` and `?`, and the exact / regex / glob dispatch around it.
  import opened Text

  // ---------------------------------------------------------------- meaning

  /** `?` stands for one character, `*` for any run of characters, anything else for itself. */
  ghost predicate Matches(p: string, v: string)
    decreases |p| + |v|
  {
    if p == "" then v == ""
    else if p[0] == '*' then Matches(p[1..], v) || (v != "" && Matches(p, v[1..]))
    else v != "" && (p[0] == '?' || p[0] == v[0]) && Matches(p[1..], v[1..])
  }

  // ---------------------------------------------------------------- the matcher

  predicate AllStars(p: string) {
    forall i :: 0 <= i < |p| ==> p[i] == '*'
  }

  ghost predicate Position(p: string, v: string, pi: int, vi: int, pStar: int, vStar: int) {
    && 0 <= pi <= |p| && 0 <= vStar <= vi <= |v| && -1 <= pStar < pi
    && (pStar >= 0 ==> p[pStar] == '*')
  }

  /** The matcher's verdict from one scan position with one remembered star (-1: none). */
  function Greedy(p: string, v: string, pi: int, vi: int, pStar: int, vStar: int): bool
    requires Position(p, v, pi, vi, pStar, vStar)
    decreases |p| - pStar, |v| - vStar, |v| - vi
  {
    if vi == |v| then AllStars(p[pi..])
    else if pi < |p| && (p[pi] == '?' || p[pi] == v[vi]) then Greedy(p, v, pi + 1, vi + 1, pStar, vStar)
    else if pi < |p| && p[pi] == '*' then Greedy(p, v, pi + 1, vi, pi, vi)
    else if pStar != -1 then Greedy(p, v, pStar + 1, vStar + 1, pStar, vStar + 1)
    else false
  }

  function GlobMatches(p: string, v: string): bool {
    Greedy(p, v, 0, 0, -1, 0)
  }

  method GlobMatch(pattern: string, value: string) returns (r: bool)
    ensures r == GlobMatches(pattern, value)
    ensures r ==> Matches(pattern, value)
    ensures '*' !in value ==> (r <==> Matches(pattern, value))
  {
    GlobCorrect(pattern, value);
    var p, v := 0, 0;
    var pStar, vStar := -1, 0;
    while v < |value|
      invariant Position(pattern, value, p, v, pStar, vStar)
      invariant Greedy(pattern, value, p, v, pStar, vStar) == GlobMatches(pattern, value)
      decreases |pattern| - pStar, |value| - vStar, |value| - v
    {
      if p < |pattern| && (pattern[p] == '?' || pattern[p] == value[v]) {
        p, v := p + 1, v + 1;
      } else if p < |pattern| && pattern[p] == '*' {
        pStar, vStar := p, v;
        p := p + 1;
      } else if pStar != -1 {
        p := pStar + 1;
        vStar := vStar + 1;
        v := vStar;
      } else {
        return false;
      }
    }
    ghost var rest := p;
    while p < |pattern| && pattern[p] == '*'
      invariant rest <= p <= |pattern|
      invariant forall i :: rest <= i < p ==> pattern[i] == '*'
    {
      p := p + 1;
    }
    if p < |pattern| {
      assert pattern[rest..][p - rest] == pattern[p];
    }
    r := p == |pattern|;
  }

  // ---------------------------------------------------------------- soundness

  /** A star may swallow any stretch of the value. */
  lemma {:induction false} StarSwallows(p: string, v: string, j: nat, k: nat)
    requires p != "" && p[0] == '*' && j <= k <= |v|
    requires Matches(p[1..], v[k..]) || Matches(p, v[k..])
    ensures Matches(p, v[j..])
    decreases k - j
  {
    if j < k {
      assert v[j..][1..] == v[j + 1..];
      StarSwallows(p, v, j + 1, k);
    }
  }

  lemma {:induction false} StarsMatchNothing(p: string)
    ensures AllStars(p) <==> Matches(p, "")
  {
    if p != "" {
      StarsMatchNothing(p[1..]);
      assert p == [p[0]] + p[1..];
    }
  }

  /** A positive verdict is justified from the scan position or from the remembered star. */
  lemma {:induction false} GreedySound(p: string, v: string, pi: int, vi: int, pStar: int, vStar: int)
    requires Position(p, v, pi, vi, pStar, vStar) && Greedy(p, v, pi, vi, pStar, vStar)
    ensures Matches(p[pi..], v[vi..]) || (pStar >= 0 && Matches(p[pStar..], v[vStar..]))
    decreases |p| - pStar, |v| - vStar, |v| - vi
  {
    if vi == |v| {
      StarsMatchNothing(p[pi..]);
    } else if pi < |p| && (p[pi] == '?' || p[pi] == v[vi]) {
      assert p[pi..][1..] == p[pi + 1..] && v[vi..][1..] == v[vi + 1..];
      GreedySound(p, v, pi + 1, vi + 1, pStar, vStar);
      if Matches(p[pi + 1..], v[vi + 1..]) && p[pi] == '*' {
        StarSwallows(p[pi..], v, vi, vi + 1);
      }
    } else if pi < |p| && p[pi] == '*' {
      assert p[pi..][1..] == p[pi + 1..];
      GreedySound(p, v, pi + 1, vi, pi, vi);
    } else {
      assert p[pStar..][1..] == p[pStar + 1..];
      GreedySound(p, v, pStar + 1, vStar + 1, pStar, vStar + 1);
      StarSwallows(p[pStar..], v, vStar, vStar + 1);
    }
  }

  // ---------------------------------------------------------------- completeness

  ghost predicate StarFree(p: string) {
    '*' !in p
  }

  /** A star-free stretch consumes exactly its own length. */
  lemma {:induction false} SegmentConsumes(p: string, v: string, n: nat)
    requires n <= |p| && StarFree(p[..n]) && Matches(p, v)
    ensures n <= |v| && Matches(p[n..], v[n..])
  {
    if n > 0 {
      assert p[0] == p[..n][0] && p[0] != '*';
      assert p[1..][..n - 1] == p[..n][1..];
      SegmentConsumes(p[1..], v[1..], n - 1);
      assert p[1..][n - 1..] == p[n..] && v[1..][n - 1..] == v[n..];
    }
  }

  /** A match through a star places the rest of the pattern somewhere later. */
  lemma {:induction false} StarPlaces(p: string, v: string, j: nat) returns (k: nat)
    requires p != "" && p[0] == '*' && j <= |v| && Matches(p, v[j..])
    ensures j <= k <= |v| && Matches(p[1..], v[k..])
    decreases |v| - j
  {
    if Matches(p[1..], v[j..]) {
      k := j;
    } else {
      assert v[j..][1..] == v[j + 1..];
      k := StarPlaces(p, v, j + 1);
    }
  }

  /** The match is still reachable: here, or by moving the remembered star's segment further right. */
  ghost predicate Reachable(p: string, v: string, pi: int, vi: int, pStar: int, vStar: int)
    requires Position(p, v, pi, vi, pStar, vStar)
  {
    Matches(p[pi..], v[vi..]) || (pStar >= 0 && exists k :: vStar < k <= |v| && Matches(p[pStar + 1..], v[k..]))
  }

  /** Since the remembered star only ordinary characters were consumed, one for one. */
  ghost predicate Aligned(p: string, pi: int, vi: int, pStar: int, vStar: int) {
    pStar >= 0 ==> 0 <= pStar < pi <= |p| && StarFree(p[pStar + 1..pi]) && pi - (pStar + 1) == vi - vStar
  }

  /** Sliding the remembered segment to `k` leaves the rest of the pattern at `k` plus its length. */
  lemma SlideSegment(p: string, v: string, pi: int, vi: int, pStar: int, vStar: int, k: int)
    requires Position(p, v, pi, vi, pStar, vStar) && Aligned(p, pi, vi, pStar, vStar)
    requires pStar >= 0 && vStar < k <= |v| && Matches(p[pStar + 1..], v[k..])
    ensures vi < k + (vi - vStar) <= |v| && Matches(p[pi..], v[k + (vi - vStar)..])
  {
    var n := vi - vStar;
    assert p[pStar + 1..][..n] == p[pStar + 1..pi];
    SegmentConsumes(p[pStar + 1..], v[k..], n);
    assert p[pStar + 1..][n..] == p[pi..] && v[k..][n..] == v[k + n..];
  }

  /** Committing to the newest star loses nothing. */
  lemma StarKeepsReachable(p: string, v: string, pi: int, vi: int, pStar: int, vStar: int)
    requires Position(p, v, pi, vi, pStar, vStar) && Aligned(p, pi, vi, pStar, vStar)
    requires Reachable(p, v, pi, vi, pStar, vStar) && pi < |p| && p[pi] == '*'
    ensures Reachable(p, v, pi + 1, vi, pi, vi)
  {
    var start := vi;
    if !Matches(p[pi..], v[vi..]) {
      var k :| vStar < k <= |v| && Matches(p[pStar + 1..], v[k..]);
      SlideSegment(p, v, pi, vi, pStar, vStar, k);
      start := k + (vi - vStar);
    }
    assert p[pi..][1..] == p[pi + 1..];
    var k := StarPlaces(p[pi..], v, start);
  }

  lemma BacktrackKeepsReachable(p: string, v: string, pi: int, vi: int, pStar: int, vStar: int)
    requires Position(p, v, pi, vi, pStar, vStar) && pStar >= 0 && vi < |v|
    requires Reachable(p, v, pi, vi, pStar, vStar) && !Matches(p[pi..], v[vi..])
    ensures Reachable(p, v, pStar + 1, vStar + 1, pStar, vStar + 1)
  {
    var k :| vStar < k <= |v| && Matches(p[pStar + 1..], v[k..]);
    assert k == vStar + 1 || vStar + 1 < k;
  }

  /** At the end of the value nothing is left to slide. */
  lemma EndOfValue(p: string, v: string, pi: int, pStar: int, vStar: int)
    requires Position(p, v, pi, |v|, pStar, vStar) && Aligned(p, pi, |v|, pStar, vStar)
    requires Reachable(p, v, pi, |v|, pStar, vStar)
    ensures AllStars(p[pi..])
  {
    StarsMatchNothing(p[pi..]);
    if !Matches(p[pi..], v[|v|..]) {
      var k :| vStar < k <= |v| && Matches(p[pStar + 1..], v[k..]);
      SlideSegment(p, v, pi, |v|, pStar, vStar, k);
    }
  }

  lemma OrdinaryKeepsReachable(p: string, v: string, pi: int, vi: int, pStar: int, vStar: int)
    requires Position(p, v, pi, vi, pStar, vStar) && Aligned(p, pi, vi, pStar, vStar)
    requires Reachable(p, v, pi, vi, pStar, vStar) && pi < |p| && p[pi] != '*' && vi < |v|
    requires p[pi] == '?' || p[pi] == v[vi]
    ensures Reachable(p, v, pi + 1, vi + 1, pStar, vStar) && Aligned(p, pi + 1, vi + 1, pStar, vStar)
  {
    assert p[pi..][1..] == p[pi + 1..] && v[vi..][1..] == v[vi + 1..];
    assert pStar >= 0 ==> p[pStar + 1..pi + 1] == p[pStar + 1..pi] + [p[pi]];
  }

  /** At a character that neither matches nor is a star, only the remembered star can help. */
  lemma StuckWithoutStar(p: string, v: string, pi: int, vi: int, pStar: int, vStar: int)
    requires Position(p, v, pi, vi, pStar, vStar) && Reachable(p, v, pi, vi, pStar, vStar) && vi < |v|
    requires pi < |p| ==> p[pi] != '?' && p[pi] != v[vi] && p[pi] != '*'
    ensures pStar >= 0 && !Matches(p[pi..], v[vi..])
  {
    if pi < |p| {
      assert p[pi..][0] == p[pi] && v[vi..][0] == v[vi];
    } else {
      assert |p[pi..]| == 0;
    }
  }

  lemma NewStarIsAligned(p: string, pi: int, vi: int)
    requires 0 <= pi < |p|
    ensures Aligned(p, pi + 1, vi, pi, vi)
  {
    assert |p[pi + 1..pi + 1]| == 0;
  }

  lemma {:induction false} GreedyComplete(p: string, v: string, pi: int, vi: int, pStar: int, vStar: int)
    requires '*' !in v
    requires Position(p, v, pi, vi, pStar, vStar) && Aligned(p, pi, vi, pStar, vStar)
    requires Reachable(p, v, pi, vi, pStar, vStar)
    ensures Greedy(p, v, pi, vi, pStar, vStar)
    decreases |p| - pStar, |v| - vStar, |v| - vi
  {
    if vi == |v| {
      EndOfValue(p, v, pi, pStar, vStar);
    } else if pi < |p| && (p[pi] == '?' || p[pi] == v[vi]) {
      assert v[vi] in v;
      OrdinaryKeepsReachable(p, v, pi, vi, pStar, vStar);
      GreedyComplete(p, v, pi + 1, vi + 1, pStar, vStar);
    } else if pi < |p| && p[pi] == '*' {
      StarKeepsReachable(p, v, pi, vi, pStar, vStar);
      NewStarIsAligned(p, pi, vi);
      GreedyComplete(p, v, pi + 1, vi, pi, vi);
    } else {
      StuckWithoutStar(p, v, pi, vi, pStar, vStar);
      BacktrackKeepsReachable(p, v, pi, vi, pStar, vStar);
      NewStarIsAligned(p, pStar, vStar + 1);
      GreedyComplete(p, v, pStar + 1, vStar + 1, pStar, vStar + 1);
    }
  }

  /** Sound for every value; exact for every value without a literal star. */
  lemma GlobCorrect(p: string, v: string)
    ensures GlobMatches(p, v) ==> Matches(p, v)
    ensures '*' !in v && Matches(p, v) ==> GlobMatches(p, v)
  {
    assert p[0..] == p && v[0..] == v;
    if GlobMatches(p, v) {
      GreedySound(p, v, 0, 0, -1, 0);
    }
    if '*' !in v && Matches(p, v) {
      GreedyComplete(p, v, 0, 0, -1, 0);
    }
  }

  // ---------------------------------------------------------------- values with a literal star

  lemma {:induction false} LiteralPrefixScanned(p: string, v: string, n: nat, i: nat)
    requires i <= n <= |p| && n <= |v| && p[..n] == v[..n]
    ensures Greedy(p, v, i, i, -1, 0) == Greedy(p, v, n, n, -1, 0)
    decreases n - i
  {
    if i < n {
      assert p[i] == p[..n][i] == v[..n][i] == v[i];
      LiteralPrefixScanned(p, v, n, i + 1);
    }
  }

  lemma {:induction false} LiteralPrefixMatches(a: string, p: string, v: string)
    requires StarFree(a) && Matches(p, v)
    ensures Matches(a + p, a + v)
  {
    if a == "" {
      assert a + p == p && a + v == v;
    } else {
      LiteralPrefixMatches(a[1..], p, v);
      assert (a + p)[1..] == a[1..] + p && (a + v)[1..] == a[1..] + v;
    }
  }

  lemma {:induction false} LoneStarMatches(v: string)
    ensures Matches("*", v)
  {
    if v != "" {
      LoneStarMatches(v[1..]);
    }
  }

  /** A pattern the matcher wrongly rejects, built around the first star of the value. */
  lemma WronglyRejectedPattern(v: string) returns (p: string)
    requires '*' in v
    ensures Matches(p, v) && !GlobMatches(p, v)
  {
    var n := 0;
    while v[n] != '*'
      invariant 0 <= n < |v| && StarFree(v[..n]) && '*' in v[n..]
      decreases |v| - n
    {
      assert v[n..] == [v[n]] + v[n + 1..] && v[..n + 1] == v[..n] + [v[n]];
      n := n + 1;
    }
    var tail := if n + 1 < |v| then "*" else "*?";
    p := v[..n] + tail;
    assert v == v[..n] + v[n..] && p[n..] == tail;
    if n + 1 < |v| {
      LoneStarMatches(v[n..]);
    } else {
      assert v[n..] == "*" && Matches("?", "*") && tail[1..] == "?";
      assert Matches(tail, v[n..]);
      assert p[n + 1..] == "?" && p[n + 1..][0] == '?';
    }
    LiteralPrefixMatches(v[..n], tail, v[n..]);
    LiteralPrefixScanned(p, v, n, 0);
    assert p[n] == '*' == v[n];
    assert Greedy(p, v, n, n, -1, 0) == Greedy(p, v, n + 1, n + 1, -1, 0);
  }

  /** The matcher is right about a value for every pattern exactly when the value has no literal star. */
  lemma GlobExactIffNoStarInValue(v: string)
    ensures (forall p :: GlobMatches(p, v) <==> Matches(p, v)) <==> '*' !in v
  {
    if '*' in v {
      var p := WronglyRejectedPattern(v);
    } else {
      forall p ensures GlobMatches(p, v) <==> Matches(p, v) {
        GlobCorrect(p, v);
      }
    }
  }

  // ---------------------------------------------------------------- dispatch

  /** `re:` in any letter case. */
  predicate IsRegexPrefix(s: string) {
    |s| >= 3 && (s[0] == 'r' || s[0] == 'R') && (s[1] == 'e' || s[1] == 'E') && s[2] == ':'
  }

  /** What `regexp.Compile` and `MatchString` answer for a body; an invalid body matches nothing. */
  type Regex = (string, string) -> bool

  /** The dispatch on already trimmed names. */
  function MatchesTrimmed(m: string, p: string, regex: Regex): bool {
    if p == "" || m == "" then false
    else if p == m then true
    else if IsRegexPrefix(Trim(p)) then
      var body := Trim(Trim(p)[3..]);
      body != "" && regex(body, m)
    else GlobMatches(p, m)
  }

  function MatchesModelPattern(model: string, pattern: string, regex: Regex): bool {
    MatchesTrimmed(Trim(model), Trim(pattern), regex)
  }

  /** `re:` in one of its spellings, and a body. */
  ghost predicate MarksRegex(p: string) {
    exists rest :: p == "re:" + rest || p == "Re:" + rest || p == "rE:" + rest || p == "RE:" + rest
  }

  lemma PrefixMarksRegex(p: string)
    ensures IsRegexPrefix(p) <==> MarksRegex(p)
  {
    if IsRegexPrefix(p) {
      assert p == [p[0], p[1], p[2]] + p[3..];
    }
  }

  /** The meaning of a pattern for a name: blank never matches; else equality, regex or glob. */
  ghost predicate Means(m: string, p: string, regex: Regex) {
    m != "" && p != "" &&
    (p == m || if MarksRegex(p) then Trim(p[3..]) != "" && regex(Trim(p[3..]), m) else Matches(p, m))
  }

  /** Sound for every name; exact for regex patterns and for every name without a literal star. */
  lemma ModelPatternMeaning(model: string, pattern: string, regex: Regex)
    ensures MatchesModelPattern(model, pattern, regex) ==> Means(Trim(model), Trim(pattern), regex)
    ensures '*' !in model || MarksRegex(Trim(pattern)) ==>
      (MatchesModelPattern(model, pattern, regex) <==> Means(Trim(model), Trim(pattern), regex))
  {
    TrimTwice(pattern);
    if '*' in Trim(model) {
      TrimKeepsOnly(model, '*');
    }
    TrimmedMeaning(Trim(model), Trim(pattern), regex);
  }

  lemma TrimmedMeaning(m: string, p: string, regex: Regex)
    requires Trim(p) == p
    ensures MatchesTrimmed(m, p, regex) ==> Means(m, p, regex)
    ensures '*' !in m || MarksRegex(p) ==> (MatchesTrimmed(m, p, regex) <==> Means(m, p, regex))
  {
    PrefixMarksRegex(p);
    GlobCorrect(p, m);
  }
}
