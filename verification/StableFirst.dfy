/**
  The rotation memory of stable-first routing (`routing/weights.go`), as far as the route cache clears
  it: three maps keyed by the route id in decimal, a colon and the model.
*/
module StableFirst {
  import opened Seqs
  import opened Text

  /** What is remembered of an observation round. */
  type Progress(==)

  // ---------- keys ----------

  function Digit(d: int): (c: char)
    requires 0 <= d < 10
    ensures '0' <= c <= '9'
  {
    '0' + d as char
  }

  /** `strconv.FormatInt` in base ten. */
  function Decimal(n: int): string
    decreases if n < 0 then 1 - n else n
  {
    if n < 0 then "-" + Decimal(-n)
    else if n < 10 then [Digit(n)]
    else Decimal(n / 10) + [Digit(n % 10)]
  }

  function RoutePrefix(routeID: int): string { Decimal(routeID) + ":" }

  function RotationKey(routeID: int, model: string): string { RoutePrefix(routeID) + model }

  function Value(s: string): int {
    if s == "" then 0 else Value(s[..|s| - 1]) * 10 + (s[|s| - 1] as int - '0' as int)
  }

  lemma {:induction false} DecimalReads(n: nat)
    ensures Value(Decimal(n)) == n && ':' !in Decimal(n)
  {
    if n >= 10 {
      DecimalReads(n / 10);
      assert Decimal(n)[..|Decimal(n)| - 1] == Decimal(n / 10);
    } else {
      assert Decimal(n)[..0] == "";
    }
  }

  /** Where the first colon is. */
  ghost predicate FirstColon(s: string, i: nat) { i < |s| && s[i] == ':' && forall j :: 0 <= j < i ==> s[j] != ':' }

  lemma ColonBehind(a: string, x: string)
    requires ':' !in a
    ensures FirstColon(a + ":" + x, |a|)
  {
    forall j | 0 <= j < |a| ensures (a + ":" + x)[j] != ':' {
      assert a[j] in a;
    }
  }

  /** A text is cut at its first colon in only one way. */
  lemma OneCut(a: string, b: string, x: string)
    requires ':' !in a && ':' !in b && HasPrefix(b + ":" + x, a + ":")
    ensures a == b
  {
    var s := b + ":" + x;
    ColonBehind(b, x);
    ColonBehind(a, s[|a| + 1..]);
    assert s == a + ":" + s[|a| + 1..];
    assert FirstColon(s, |a|) && FirstColon(s, |b|);
    assert s[..|a|] == a && s[..|b|] == b;
  }

  /** The prefix of a route picks out the keys of that route: route 1 does not clear route 11. */
  lemma PrefixIsTheRoute(routeID: nat, other: nat, model: string)
    ensures HasPrefix(RotationKey(other, model), RoutePrefix(routeID)) <==> routeID == other
  {
    DecimalReads(routeID);
    DecimalReads(other);
    if HasPrefix(RotationKey(other, model), RoutePrefix(routeID)) {
      OneCut(Decimal(routeID), Decimal(other), model);
    }
  }

  // ---------- clearing ----------

  function Without<V>(m: map<string, V>, prefix: string): map<string, V> {
    map k | k in m && !HasPrefix(k, prefix) :: m[k]
  }

  method DropPrefix<V>(m: map<string, V>, prefix: string) returns (r: map<string, V>)
    ensures r == Without(m, prefix)
  {
    r := m;
    var rest := m.Keys;
    while rest != {}
      invariant rest <= m.Keys
      invariant r == map k | k in m && (k in rest || !HasPrefix(k, prefix)) :: m[k]
      decreases rest
    {
      ghost var some := Inhabited(rest);
      var k :| k in rest;
      if HasPrefix(k, prefix) {
        r := r - {k};
      }
      rest := rest - {k};
    }
  }

  class Rotation {
    var lastSelectedSite: map<string, int>
    var observationProgress: map<string, Progress>
    var observationCooldown: map<string, int>

    constructor ()
      ensures lastSelectedSite == map[] && observationProgress == map[] && observationCooldown == map[]
    {
      lastSelectedSite, observationProgress, observationCooldown := map[], map[], map[];
    }

    method ClearStableFirstCachesForRoute(routeID: int)
      modifies this
      ensures lastSelectedSite == Without(old(lastSelectedSite), RoutePrefix(routeID))
      ensures observationProgress == Without(old(observationProgress), RoutePrefix(routeID))
      ensures observationCooldown == Without(old(observationCooldown), RoutePrefix(routeID))
    {
      var prefix := RoutePrefix(routeID);
      var sites := DropPrefix(lastSelectedSite, prefix);
      var progress := DropPrefix(observationProgress, prefix);
      var cooldown := DropPrefix(observationCooldown, prefix);
      lastSelectedSite, observationProgress, observationCooldown := sites, progress, cooldown;
    }

    method ClearAllStableFirstCaches()
      modifies this
      ensures lastSelectedSite == map[] && observationProgress == map[] && observationCooldown == map[]
    {
      lastSelectedSite, observationProgress, observationCooldown := map[], map[], map[];
    }
  }
}
