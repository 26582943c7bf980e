/**
  Which field names the gob scanner reads completely (`platform/newapi_userid.go`). It skips a whole
  marker after each one it finds, and so misses an overlapping one if there can be any: a name is read
  completely if and only if its marker cannot overlap itself.
*/
module GobScan {
  import opened Int64
  import opened GobIds

  /** The last bytes of a marker differ, so an overlap leaves at least three bytes in between. */
  lemma BordersAreLong(fieldName: seq<byte>, k: nat)
    requires Border(Marker(fieldName), k)
    ensures k >= 3
  {
    var m := Marker(fieldName);
    assert m[|m| - 1] == 4 && m[|m| - 2] == 116 && m[|m| - 3] == 110;
    assert m[k..][|m| - 1 - k] == m[|m| - 1] && m[..|m| - k][|m| - 1 - k] == m[|m| - 1 - k];
  }

  /** Two overlapping markers, the second one followed by the id `x`. */
  function Overlapping(m: seq<byte>, k: nat, x: byte): seq<byte>
    requires k <= |m| && x < 100
  {
    m[..k] + m + [2, 0, 2 * x]
  }

  lemma BothMatch(m: seq<byte>, k: nat, x: byte)
    requires Border(m, k) && x < 100
    ensures MatchAt(Overlapping(m, k, x), m, 0) && MatchAt(Overlapping(m, k, x), m, k)
  {
    var p := Overlapping(m, k, x);
    assert p[..|m|] == m[..k] + m[..|m| - k];
    assert m == m[..k] + m[k..];
    assert p[k..k + |m|] == m;
  }

  lemma SecondHasID(m: seq<byte>, k: nat, x: byte)
    requires k <= |m| && 0 < x < 60
    ensures ValueAt(Overlapping(m, k, x), k + |m|) == x
  {
    var p, e := Overlapping(m, k, x), k + |m|;
    assert p[e] == 2 && p[e + 1] == 0 && p[e + 2..e + 3] == [2 * x];
  }

  /** What follows the second marker does not end a marker. */
  lemma TailEndsNoMarker(m: seq<byte>, k: nat, x: byte, q: nat)
    requires k <= |m| && x < 60 && k + |m| <= q < |Overlapping(m, k, x)| && |m| > 0
    ensures Overlapping(m, k, x)[q] != 4 || Overlapping(m, k, x)[q - 1] != 116
  {
    var p := Overlapping(m, k, x);
    assert p[k + |m|] == 2 && p[k + |m| + 1] == 0 && p[k + |m| + 2] == 2 * x;
  }

  lemma MatchEnds(p: seq<byte>, fieldName: seq<byte>, i: nat)
    requires MatchAt(p, Marker(fieldName), i)
    ensures var q := i + |Marker(fieldName)| - 1;
            q < |p| && p[q] == 4 && p[q - 1] == 116
  {
    var m := Marker(fieldName);
    assert p[i..i + |m|][|m| - 1] == p[i + |m| - 1] && p[i..i + |m|][|m| - 2] == p[i + |m| - 2];
  }

  /** Behind the first marker nothing matches any more. */
  lemma NothingLater(fieldName: seq<byte>, k: nat, x: byte, i: nat)
    requires Border(Marker(fieldName), k) && x < 60 && |Marker(fieldName)| <= i
    ensures !MatchAt(Overlapping(Marker(fieldName), k, x), Marker(fieldName), i)
  {
    var m := Marker(fieldName);
    if MatchAt(Overlapping(m, k, x), m, i) {
      MatchEnds(Overlapping(m, k, x), fieldName, i);
      TailEndsNoMarker(m, k, x, i + |m| - 1);
    }
  }

  lemma {:induction false} NoScanBehind(fieldName: seq<byte>, k: nat, x: byte)
    requires Border(Marker(fieldName), k) && x < 60
    ensures var m := Marker(fieldName);
            ScanValues(Overlapping(m, k, x), m) == ValueSeq(ValueAt(Overlapping(m, k, x), |m|))
  {
    var m := Marker(fieldName);
    var p := Overlapping(m, k, x);
    BothMatch(m, k, x);
    assert NextMatch(p, m, 0) == 0;
    var next := NextMatch(p, m, |m|);
    if next < |p| {
      NothingLater(fieldName, k, x, next);
    }
    var v := [] + ValueSeq(ValueAt(p, |m|));
    assert ScanFrom(p, m, |m|, v) == v;
  }

  // ---------- the first value cannot be the missed id ----------

  lemma OddIsNoID(u: int)
    requires 0 <= u < TWO_64 && u % 2 == 1
    ensures InRange(Unzigzag(u)) == 0
  {
    var k: nat := u / 2;
    assert u == k * 2 + 1;
    UnzigzagNegative(k);
  }

  /** A decoded id comes from twice its value in the accumulator. */
  lemma SmallIDs(u: int, x: int)
    requires 0 <= u < TWO_64 && x > 0 && InRange(Unzigzag(u)) == x
    ensures u == 2 * x
  {
    if u % 2 == 1 {
      OddIsNoID(u);
    }
  }

  /** Dividing out the wraps: a last shift that leaves nothing needs a multiple of 256 two shifts before. */
  lemma TwoShiftsBack(s1: int, s2: int)
    requires 0 <= s1 < TWO_64 && s2 == (s1 * 256) % TWO_64 && (s2 * 256) % TWO_64 == 0
    ensures s1 % 256 == 0
  {
    var a, b := s2 * 256 / TWO_64, s1 * 256 / TWO_64;
    assert s2 * 256 == a * TWO_64 && s2 == s1 * 256 - b * TWO_64;
    assert s1 == 256 * (a * 0x100_0000_0000 + b * 0x1_0000_0000_0000);
  }

  lemma LastByteShows(s0: int)
    ensures ((s0 * 256) % TWO_64 + 2) % 256 == 2
  {
    var c := s0 * 256 / TWO_64;
    assert (s0 * 256) % TWO_64 == 256 * (s0 - c * 0x100_0000_0000_0000);
  }

  /** An accumulator that went through the bytes 2 and 0 is never as small as its last byte. */
  lemma TailIsLarge(front: seq<byte>, y: byte)
    ensures Shifted(front + [2] + [0] + [y]) != y
  {
    ShiftedSnoc(front, 2);
    ShiftedSnoc(front + [2], 0);
    ShiftedSnoc(front + [2] + [0], y);
    LastByteShows(Shifted(front));
    if (Shifted(front + [2] + [0]) * 256) % TWO_64 == 0 {
      TwoShiftsBack(Shifted(front + [2]), Shifted(front + [2] + [0]));
    }
  }

  /** Two payloads that differ only in their last byte: a value that ends before it is the same. */
  lemma SameValue(p: seq<byte>, q: seq<byte>, e: nat)
    requires |p| == |q| && e + 3 < |p| && p[..|p| - 1] == q[..|q| - 1]
    requires e + 1 + p[e] < |p|
    ensures ValueAt(p, e) == ValueAt(q, e)
  {
    var n := |p| - 1;
    forall i | 0 <= i < n ensures p[i] == q[i] {
      assert p[..n][i] == q[..n][i];
    }
    if p[e] > 1 {
      var end := e + 1 + p[e];
      assert p[e + 2..end] == q[e + 2..end];
    }
  }

  /** A value that reads to the very end of the payload goes through its last three bytes. */
  lemma ReadToTheEnd(front: seq<byte>, x: byte, e: nat)
    requires 1 <= x <= 2 && e + 3 <= |front|
    requires var p := front + [2, 0, 2 * x]; e + 1 + p[e] == |p| && p[e + 2] >= 0x80
    ensures ValueAt(front + [2, 0, 2 * x], e) != x
  {
    var p := front + [2, 0, 2 * x];
    var encoded := p[e + 2..];
    if ValueAt(p, e) == x {
      assert p[e + 2..e + 1 + p[e]] == encoded && encoded[0] == p[e + 2];
      assert encoded[1..] == front[e + 3..] + [2] + [0] + [2 * x];
      SmallIDs(Shifted(encoded[1..]), x);
      TailIsLarge(front[e + 3..], 2 * x);
    }
  }

  lemma OneByteValue(p: seq<byte>, q: seq<byte>, e: nat)
    requires |p| == |q| && e + 3 < |p| && p[..|p| - 1] == q[..|q| - 1] && p[e + 2] < 0x80
    ensures ValueAt(p, e) == ValueAt(q, e)
  {
    forall i | 0 <= i < |p| - 1 ensures p[i] == q[i] {
      assert p[..|p| - 1][i] == q[..|q| - 1][i];
    }
  }

  /** The value behind the first marker is not 1 in the one payload and 2 in the other. */
  lemma FirstValueIsNotBoth(m: seq<byte>, k: nat)
    requires 3 <= k <= |m|
    ensures ValueAt(Overlapping(m, k, 1), |m|) != 1 || ValueAt(Overlapping(m, k, 2), |m|) != 2
  {
    var p, q, e := Overlapping(m, k, 1), Overlapping(m, k, 2), |m|;
    assert p[..|p| - 1] == m[..k] + m + [2, 0] == q[..|q| - 1];
    if p[e + 2] < 0x80 {
      OneByteValue(p, q, e);
    } else if e + 1 + p[e] < |p| {
      SameValue(p, q, e);
    } else if e + 1 + p[e] == |p| {
      ReadToTheEnd(m[..k] + m, 1, e);
    }
  }

  // ---------- the exact condition ----------

  ghost predicate ReadsAll(fieldName: seq<byte>) {
    forall payload :: Distinct(ScanValues(payload, Marker(fieldName))) == GobFieldInts(payload, fieldName)
  }

  lemma UnreadIsLost(payload: seq<byte>, fieldName: seq<byte>, k: nat, id: int, first: int)
    requires MatchAt(payload, Marker(fieldName), k) && id == ValueAt(payload, k + |Marker(fieldName)|) && id > 0
    requires ScanValues(payload, Marker(fieldName)) == ValueSeq(first) && first != id
    ensures id in GobFieldInts(payload, fieldName) && id !in Distinct(ScanValues(payload, Marker(fieldName)))
  {
    MarkedIdIsListed(payload, fieldName, k);
  }

  /** A payload of two overlapping markers from which the scan loses the id of the second. */
  lemma OverlapLosesAnID(fieldName: seq<byte>, k: nat) returns (payload: seq<byte>, id: int)
    requires Border(Marker(fieldName), k)
    ensures id in GobFieldInts(payload, fieldName) && id !in Distinct(ScanValues(payload, Marker(fieldName)))
  {
    var m := Marker(fieldName);
    BordersAreLong(fieldName, k);
    FirstValueIsNotBoth(m, k);
    var x: byte := if ValueAt(Overlapping(m, k, 1), |m|) != 1 then 1 else 2;
    payload, id := Overlapping(m, k, x), x;
    LosesTheSecond(fieldName, k, x);
  }

  lemma LosesTheSecond(fieldName: seq<byte>, k: nat, x: byte)
    requires Border(Marker(fieldName), k) && 0 < x < 60
    requires ValueAt(Overlapping(Marker(fieldName), k, x), |Marker(fieldName)|) != x
    ensures var payload := Overlapping(Marker(fieldName), k, x);
            x in GobFieldInts(payload, fieldName) && x !in Distinct(ScanValues(payload, Marker(fieldName)))
  {
    var m := Marker(fieldName);
    var p := Overlapping(m, k, x);
    BothMatch(m, k, x);
    SecondHasID(m, k, x);
    NoScanBehind(fieldName, k, x);
    UnreadIsLost(p, fieldName, k, x, ValueAt(p, |m|));
  }

  /** The scan reads every marked id of every payload if and only if the marker cannot overlap itself. */
  lemma ReadsAllIffUnbordered(fieldName: seq<byte>)
    ensures ReadsAll(fieldName) <==> Unbordered(Marker(fieldName))
  {
    var m := Marker(fieldName);
    if Unbordered(m) {
      forall payload ensures Distinct(ScanValues(payload, m)) == GobFieldInts(payload, fieldName) {
        ScanFinds(payload, fieldName);
      }
    } else {
      var k :| Border(m, k);
      var payload, id := OverlapLosesAnID(fieldName, k);
    }
  }

  /** Such field names exist: the marker's own text around a shorter name. */
  lemma SomeMarkerOverlaps()
    ensures !ReadsAll([1, 3, 105, 110, 116, 4, 1])
  {
    var f: seq<byte> := [1, 3, 105, 110, 116, 4, 1];
    var m := Marker(f);
    assert m == [1, 3, 105, 110, 116, 4, 1, 3, 105, 110, 116, 4];
    assert m[6..] == m[..|m| - 6];
    assert Border(m, 6);
    ReadsAllIffUnbordered(f);
  }
}
