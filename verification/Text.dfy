/**
  Strings as the router uses them: trimming of the spaces around a text, prefixes, and the order of
  names. Characters are code points; on valid UTF-8 their lexicographic order is that of the bytes that
  the source compares, and trimming drops the same characters that the source's library drops.
*/
module Text {

  /** Unicode White_Space, as Go's `unicode.IsSpace`. */
  predicate IsSpace(c: char) {
    || '\t' <= c <= '\r'
    || c == ' ' || c == '\U{85}' || c == '\U{A0}' || c == '\U{1680}'
    || '\U{2000}' <= c <= '\U{200A}'
    || c == '\U{2028}' || c == '\U{2029}' || c == '\U{202F}' || c == '\U{205F}' || c == '\U{3000}'
  }

  /** The first position from `i` on that is not a space. */
  function SkipSpace(s: string, i: nat): (r: nat)
    requires i <= |s|
    ensures i <= r <= |s| && (r < |s| ==> !IsSpace(s[r]))
    ensures i < |s| && !IsSpace(s[i]) ==> r == i
    decreases |s| - i
  {
    if i < |s| && IsSpace(s[i]) then SkipSpace(s, i + 1) else i
  }

  /** The end of the text once the spaces before `j`, but none before `low`, are dropped. */
  function DropSpace(s: string, low: nat, j: nat): (r: nat)
    requires low <= j <= |s|
    ensures low <= r <= j && (r > low ==> !IsSpace(s[r - 1]))
    ensures j > low && !IsSpace(s[j - 1]) ==> r == j
  {
    if j > low && IsSpace(s[j - 1]) then DropSpace(s, low, j - 1) else j
  }

  /** `strings.TrimSpace`. */
  function Trim(s: string): (r: string)
    ensures r != "" ==> !IsSpace(r[0]) && !IsSpace(r[|r| - 1])
    ensures (s != "" ==> !IsSpace(s[0]) && !IsSpace(s[|s| - 1])) ==> r == s
  {
    var start := SkipSpace(s, 0);
    s[start..DropSpace(s, start, |s|)]
  }

  lemma TrimTwice(s: string)
    ensures Trim(Trim(s)) == Trim(s)
  {}

  ghost predicate AllSpace(s: string) { forall i :: 0 <= i < |s| ==> IsSpace(s[i]) }

  lemma {:induction false} SkipsAll(s: string, i: nat, n: nat)
    requires i <= n <= |s| && AllSpace(s[i..n]) && (n < |s| ==> !IsSpace(s[n]))
    ensures SkipSpace(s, i) == n
    decreases n - i
  {
    if i < n {
      assert IsSpace(s[i..n][0]);
      assert s[i..n][1..] == s[i + 1..n];
      SkipsAll(s, i + 1, n);
    }
  }

  lemma {:induction false} DropsAll(s: string, low: nat, n: nat, j: nat)
    requires low <= n <= j <= |s| && AllSpace(s[n..j]) && (n > low ==> !IsSpace(s[n - 1]))
    ensures DropSpace(s, low, j) == n
  {
    if n < j {
      assert IsSpace(s[n..j][j - 1 - n]);
      assert s[n..j][..j - 1 - n] == s[n..j - 1];
      DropsAll(s, low, n, j - 1);
    }
  }

  /** Trimming drops exactly the spaces around a text. */
  lemma TrimPadded(before: string, s: string, after: string)
    requires AllSpace(before) && AllSpace(after) && (s != "" ==> !IsSpace(s[0]) && !IsSpace(s[|s| - 1]))
    ensures Trim(before + s + after) == s
  {
    var t, a, b := before + s + after, |before|, |before| + |s|;
    assert t[..a] == before && t[a..b] == s && t[b..] == after;
    if s == "" {
      SkipsAll(t, 0, |t|);
    } else {
      assert t[a] == s[0] && t[b - 1] == s[|s| - 1];
      SkipsAll(t, 0, a);
      DropsAll(t, a, b, |t|);
    }
  }

  /** Nothing is left exactly of a text of spaces. */
  lemma TrimEmptyIff(s: string)
    ensures Trim(s) == "" <==> AllSpace(s)
  {
    if AllSpace(s) {
      TrimPadded(s, "", "");
      assert s + "" + "" == s;
    } else {
      var i :| 0 <= i < |s| && !IsSpace(s[i]);
      SkipStopsBy(s, 0, i);
      DropStopsBy(s, SkipSpace(s, 0), i, |s|);
    }
  }

  lemma {:induction false} SkipStopsBy(s: string, from: nat, i: nat)
    requires from <= i < |s| && !IsSpace(s[i])
    ensures SkipSpace(s, from) <= i
    decreases i - from
  {
    if from < i {
      SkipStopsBy(s, from + 1, i);
    }
  }

  lemma {:induction false} DropStopsBy(s: string, low: nat, i: nat, j: nat)
    requires low <= i < j <= |s| && !IsSpace(s[i])
    ensures i < DropSpace(s, low, j)
  {
    if i + 1 < j {
      DropStopsBy(s, low, i, j - 1);
    }
  }

  lemma TrimKeepsOnly(s: string, c: char)
    requires c in Trim(s)
    ensures c in s
  {}

  predicate HasPrefix(s: string, prefix: string) {
    |prefix| <= |s| && s[..|prefix|] == prefix
  }

  function TrimPrefix(s: string, prefix: string): string {
    if HasPrefix(s, prefix) then s[|prefix|..] else s
  }

  /** Lexicographic order; on valid UTF-8 it coincides with Go's byte order. */
  predicate Less(a: string, b: string) {
    if b == "" then false
    else if a == "" then true
    else a[0] < b[0] || (a[0] == b[0] && Less(a[1..], b[1..]))
  }

  /** `b` goes beyond their common beginning with a larger character, or `a` ends there. */
  ghost predicate Precedes(a: string, b: string, k: int) {
    0 <= k <= |a| && k < |b| && a[..k] == b[..k] && (k == |a| || a[k] < b[k])
  }

  lemma CommonStart(a: string, b: string)
    requires a != "" && b != ""
    ensures forall k :: Precedes(a, b, k) ==> a[0] < b[0] || (a[0] == b[0] && k > 0)
  {
    forall k | Precedes(a, b, k) ensures a[0] < b[0] || (a[0] == b[0] && k > 0) {
      assert k > 0 ==> a[0] == a[..k][0] && b[0] == b[..k][0];
    }
  }

  lemma {:induction false} LessIffPrecedes(a: string, b: string)
    ensures Less(a, b) <==> exists k :: Precedes(a, b, k)
  {
    if b != "" && a == "" {
      assert Precedes(a, b, 0);
    } else if b != "" && a[0] == b[0] {
      LessIffPrecedes(a[1..], b[1..]);
      if k :| Precedes(a[1..], b[1..], k) {
        assert a[..k + 1] == [a[0]] + a[1..][..k] && b[..k + 1] == [b[0]] + b[1..][..k];
        assert Precedes(a, b, k + 1);
      }
      CommonStart(a, b);
      if k :| Precedes(a, b, k) {
        assert a[1..][..k - 1] == a[..k][1..] && b[1..][..k - 1] == b[..k][1..];
        assert Precedes(a[1..], b[1..], k - 1);
      }
    } else if b != "" && a[0] < b[0] {
      assert Precedes(a, b, 0);
    } else if b != "" {
      CommonStart(a, b);
    }
  }

  lemma {:induction false} LessTotal(a: string, b: string)
    ensures Less(a, b) || a == b || Less(b, a)
    ensures !(Less(a, b) && Less(b, a)) && !Less(a, a)
  {
    if a != "" {
      LessTotal(a[1..], a[1..]);
      if b != "" {
        LessTotal(a[1..], b[1..]);
        if a[0] == b[0] && a[1..] == b[1..] {
          assert a == [a[0]] + a[1..] && b == [b[0]] + b[1..];
        }
      }
    }
  }

  lemma {:induction false} LessTransitive(a: string, b: string, c: string)
    requires Less(a, b) && Less(b, c)
    ensures Less(a, c)
  {
    if a != "" && a[0] == b[0] == c[0] {
      LessTransitive(a[1..], b[1..], c[1..]);
    }
  }
}
