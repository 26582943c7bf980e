/**
  User ids read out of gob-encoded session payloads (`platform/newapi_userid.go`): the signed
  integer decoder against the encoding defined by Go's `encoding/gob` documentation, "Encoding
  Details", and the marker scanner around it.
*/
module GobIds {
  import opened Seqs
  import opened Int64

  type byte = b: int | 0 <= b < 256

  const MAX_ID := 10_000_000

  // ---------------------------------------------------------------- the encoding

  /** Minimal big-endian bytes. */
  function BigEndian(n: nat): (r: seq<byte>)
    ensures r != []
  {
    if n < 256 then [n] else BigEndian(n / 256) + [n % 256]
  }

  /** Small values in one byte, others as the negated byte count followed by the value. */
  function EncodeUint(n: nat): seq<byte>
    requires n < TWO_64
  {
    if n < 128 then [n]
    else
      BigEndianLength(n, 8);
      [256 - |BigEndian(n)|] + BigEndian(n)
  }

  /** Signed values move the sign to the lowest bit, complementing negative ones. */
  function EncodeInt(i: int): seq<byte>
    requires MIN_INT64 <= i <= MAX_INT64
  {
    if i < 0 then EncodeUint((-i - 1) * 2 + 1) else EncodeUint(i * 2)
  }

  function Pow256(k: nat): nat { if k == 0 then 1 else 256 * Pow256(k - 1) }

  lemma {:induction false} BigEndianLengthOf(n: nat, k: nat)
    requires k > 0 && n < Pow256(k)
    ensures |BigEndian(n)| <= k
  {
    if n >= 256 {
      BigEndianLengthOf(n / 256, k - 1);
    }
  }

  lemma BigEndianLength(n: nat, k: nat)
    requires n < TWO_64 && k == 8
    ensures |BigEndian(n)| <= 8
  {
    assert Pow256(4) == 0x1_0000_0000 && Pow256(8) == 256 * (256 * (256 * (256 * Pow256(4))));
    BigEndianLengthOf(n, 8);
  }

  // ---------------------------------------------------------------- the decoder

  /** Bytes shifted one by one into a 64-bit accumulator. */
  function Shifted(bs: seq<byte>): (r: int)
    ensures 0 <= r < TWO_64
  {
    if bs == [] then 0 else (Shifted(bs[..|bs| - 1]) * 256) % TWO_64 + bs[|bs| - 1]
  }

  function Unzigzag(unsigned: int): int {
    if unsigned % 2 == 0 then unsigned / 2 else Wrap64(-Wrap64(unsigned / 2 + 1))
  }

  function InRange(signed: int): int {
    if signed <= 0 || signed > MAX_ID then 0 else signed
  }

  function Decode(encoded: seq<byte>): int {
    if encoded == [] then 0
    else if encoded[0] < 0x80 then InRange(Unzigzag(encoded[0]))
    else if |encoded| != 0x100 - encoded[0] + 1 then 0
    else InRange(Unzigzag(Shifted(encoded[1..])))
  }

  method DecodeGobSignedInt(encoded: seq<byte>) returns (id: int)
    ensures id == Decode(encoded)
    ensures 0 <= id <= MAX_ID
  {
    if |encoded| == 0 {
      return 0;
    }
    var unsigned: int := 0;
    if encoded[0] < 0x80 {
      unsigned := encoded[0];
    } else {
      var width := 0x100 - encoded[0];
      if width <= 0 || |encoded| != width + 1 {
        return 0;
      }
      var rest := encoded[1..];
      for i := 0 to |rest|
        invariant unsigned == Shifted(rest[..i])
      {
        assert rest[..i + 1][..i] == rest[..i];
        unsigned := (unsigned * 256) % TWO_64 + rest[i];
      }
      assert rest[..|rest|] == rest;
    }
    var signed := if unsigned % 2 == 0 then unsigned / 2 else Wrap64(-Wrap64(unsigned / 2 + 1));
    if signed <= 0 || signed > MAX_ID {
      return 0;
    }
    id := signed;
  }

  lemma ShiftedSnoc(bs: seq<byte>, b: byte)
    ensures Shifted(bs + [b]) == (Shifted(bs) * 256) % TWO_64 + b
  {
    assert (bs + [b])[..|bs|] == bs;
  }

  lemma {:induction false} ShiftedBigEndian(n: nat)
    requires n < TWO_64
    ensures Shifted(BigEndian(n)) == n
  {
    if n < 256 {
      ShiftedSnoc([], n);
      assert [] + [n] == BigEndian(n);
    } else {
      var high: nat, low: byte := n / 256, n % 256;
      ShiftedBigEndian(high);
      ShiftedSnoc(BigEndian(high), low);
      assert high * 256 < TWO_64 && high * 256 + low == n;
    }
  }

  lemma DecodeEncodeUint(n: nat)
    requires n < TWO_64
    ensures Decode(EncodeUint(n)) == InRange(Unzigzag(n))
  {
    if n >= 128 {
      BigEndianLength(n, 8);
      ShiftedBigEndian(n);
      assert EncodeUint(n)[1..] == BigEndian(n);
    }
  }

  lemma UnzigzagNegative(k: nat)
    requires k <= MAX_INT64
    ensures Unzigzag(k * 2 + 1) < 0
  {
    assert (k * 2 + 1) % 2 == 1 && (k * 2 + 1) / 2 == k;
    if k < MAX_INT64 {
      assert Wrap64(k + 1) == k + 1;
    } else {
      assert Wrap64(k + 1) == MIN_INT64;
      assert Wrap64(-MIN_INT64) == MIN_INT64;
    }
  }

  /** Decoding inverts the encoding for every id in range and answers 0 for every other int64. */
  lemma DecodeInvertsEncode(i: int)
    requires MIN_INT64 <= i <= MAX_INT64
    ensures Decode(EncodeInt(i)) == if 1 <= i <= MAX_ID then i else 0
  {
    if i < 0 {
      var k: nat := -i - 1;
      DecodeEncodeUint(k * 2 + 1);
      UnzigzagNegative(k);
    } else {
      DecodeEncodeUint(i * 2);
    }
  }

  // ---------------------------------------------------------------- the scanner

  predicate MatchAt(data: seq<byte>, sub: seq<byte>, i: int) {
    0 <= i <= |data| - |sub| && data[i..i + |sub|] == sub
  }

  method IndexOf(data: seq<byte>, sub: seq<byte>, start: nat) returns (pos: int)
    ensures pos == -1 ==> forall i :: start <= i ==> !MatchAt(data, sub, i)
    ensures pos != -1 ==> start <= pos && MatchAt(data, sub, pos) && forall i :: start <= i < pos ==> !MatchAt(data, sub, i)
  {
    var i := start;
    while i <= |data| - |sub|
      invariant start <= i
      invariant forall k :: start <= k < i ==> !MatchAt(data, sub, k)
    {
      var found := true;
      var j := 0;
      while j < |sub| && found
        invariant 0 <= j <= |sub|
        invariant found ==> forall k :: 0 <= k < j ==> data[i + k] == sub[k]
        invariant !found ==> exists k :: 0 <= k < |sub| && data[i + k] != sub[k]
        decreases |sub| - j, found
      {
        if data[i + j] != sub[j] {
          found := false;
        } else {
          j := j + 1;
        }
      }
      if found {
        assert data[i..i + |sub|] == sub;
        return i;
      }
      assert !MatchAt(data, sub, i) by {
        var k :| 0 <= k < |sub| && data[i + k] != sub[k];
        assert data[i..i + |sub|][k] == data[i + k];
      }
      i := i + 1;
    }
    pos := -1;
  }

  /** The field name, then 3, "int", 4. */
  function Marker(fieldName: seq<byte>): (m: seq<byte>)
    ensures |m| == |fieldName| + 5
  {
    fieldName + [3, 105, 110, 116, 4]
  }

  /** The id stored after a marker ending at `e`: a length byte, a zero delimiter, the encoded integer. */
  function ValueAt(payload: seq<byte>, e: nat): int {
    if e + 1 >= |payload| || payload[e + 1] != 0 || payload[e] <= 1 || e + 1 + payload[e] > |payload| then 0
    else Decode(payload[e + 2..e + 1 + payload[e]])
  }

  /** A value counts only when it is an id. */
  function ValueSeq(v: int): seq<int> { if v > 0 then [v] else [] }

  /** The ids at all marker occurrences starting before position `n`, in order. */
  function ValuesBefore(payload: seq<byte>, marker: seq<byte>, n: nat): seq<int> {
    if n == 0 then []
    else
      var front := ValuesBefore(payload, marker, n - 1);
      if MatchAt(payload, marker, n - 1) && ValueAt(payload, n - 1 + |marker|) > 0
      then front + [ValueAt(payload, n - 1 + |marker|)] else front
  }

  /** The first occurrence of every element, in order. */
  function Distinct(s: seq<int>): (r: seq<int>)
    ensures forall x :: x in r <==> x in s
    ensures forall i, j :: 0 <= i < j < |r| ==> r[i] != r[j]
  {
    if s == [] then []
    else
      assert s == s[..|s| - 1] + [s[|s| - 1]];
      var front := Distinct(s[..|s| - 1]);
      if s[|s| - 1] in front then front else front + [s[|s| - 1]]
  }

  ghost predicate FirstSeenAt(s: seq<int>, x: int, k: int) {
    0 <= k < |s| && s[k] == x && forall j :: 0 <= j < k ==> s[j] != x
  }

  /** Distinct elements keep the order in which they first appear. */
  lemma {:induction false} DistinctKeepsOrder(s: seq<int>, i: nat, j: nat) returns (k: nat, l: nat)
    requires i < j < |Distinct(s)|
    ensures FirstSeenAt(s, Distinct(s)[i], k) && FirstSeenAt(s, Distinct(s)[j], l) && k < l
  {
    var front, last := Distinct(s[..|s| - 1]), |s| - 1;
    assert Distinct(s)[..|front|] == front;
    if j < |front| {
      k, l := DistinctKeepsOrder(s[..last], i, j);
    } else {
      l := last;
      k := FirstSeen(s[..last], front[i]);
    }
  }

  lemma {:induction false} FirstSeen(s: seq<int>, x: int) returns (k: nat)
    requires x in s
    ensures FirstSeenAt(s, x, k)
  {
    k := |s| - 1;
    if x in s[..k] {
      k := FirstSeen(s[..k], x);
    } else {
      assert s == s[..k] + [s[k]];
    }
  }

  /** A further value only matters when it is an id not seen before. */
  lemma DistinctGrows(vs: seq<int>, id: int)
    ensures Distinct(vs + ValueSeq(id)) ==
      if id > 0 && id !in Distinct(vs) then Distinct(vs) + [id] else Distinct(vs)
  {
    assert (vs + [id])[..|vs|] == vs && vs + [] == vs;
  }

  function GobFieldInts(payload: seq<byte>, fieldName: seq<byte>): seq<int> {
    Distinct(ValuesBefore(payload, Marker(fieldName), |payload|))
  }

  /** The word overlaps itself after `k` bytes. */
  ghost predicate Border(m: seq<byte>, k: int) { 0 < k < |m| && m[k..] == m[..|m| - k] }

  /** No proper suffix of the word is also a prefix, so its occurrences never overlap. */
  ghost predicate Unbordered(m: seq<byte>) {
    forall k :: !Border(m, k)
  }

  /** So it is for every field name without the byte 4, in particular for "id". */
  lemma MarkerUnbordered(fieldName: seq<byte>)
    requires 4 !in fieldName
    ensures Unbordered(Marker(fieldName))
  {
    var m := Marker(fieldName);
    forall k | 0 < k < |m| ensures !Border(m, k) {
      var j := |m| - k - 1;
      assert m[k..][j] == 4 && m[..|m| - k][j] == m[j];
      if j < |fieldName| {
        assert m[j] in fieldName;
      }
    }
  }

  /** Two overlapping occurrences make a border. */
  lemma OverlapIsBorder(payload: seq<byte>, marker: seq<byte>, pos: int, i: int)
    requires MatchAt(payload, marker, pos) && MatchAt(payload, marker, i) && pos < i < pos + |marker|
    ensures Border(marker, i - pos)
  {
    var k := i - pos;
    assert marker[k..] == payload[pos..pos + |marker|][k..] == payload[i..pos + |marker|];
    assert marker[..|marker| - k] == payload[i..i + |marker|][..|marker| - k] == payload[i..pos + |marker|];
  }

  lemma NoOverlap(payload: seq<byte>, marker: seq<byte>, pos: int, i: int)
    requires Unbordered(marker) && MatchAt(payload, marker, pos) && pos < i < pos + |marker|
    ensures !MatchAt(payload, marker, i)
  {
    if MatchAt(payload, marker, i) {
      OverlapIsBorder(payload, marker, pos, i);
    }
  }

  lemma {:induction false} NoValuesBetween(payload: seq<byte>, marker: seq<byte>, a: nat, b: nat)
    requires a <= b && forall i :: a <= i < b ==> !MatchAt(payload, marker, i)
    ensures ValuesBefore(payload, marker, b) == ValuesBefore(payload, marker, a)
  {
    if a < b {
      NoValuesBetween(payload, marker, a, b - 1);
    }
  }

  /** Skipping to the end of a marker loses no occurrence. */
  lemma SkipMarker(payload: seq<byte>, marker: seq<byte>, start: nat, pos: nat)
    requires Unbordered(marker) && marker != [] && start <= pos && MatchAt(payload, marker, pos)
    requires forall i :: start <= i < pos ==> !MatchAt(payload, marker, i)
    ensures ValuesBefore(payload, marker, pos + |marker|) ==
      ValuesBefore(payload, marker, start) + ValueSeq(ValueAt(payload, pos + |marker|))
  {
    NoValuesBetween(payload, marker, start, pos);
    NothingInside(payload, marker, pos);
    OneValue(payload, marker, pos);
  }

  lemma NothingInside(payload: seq<byte>, marker: seq<byte>, pos: nat)
    requires Unbordered(marker) && marker != [] && MatchAt(payload, marker, pos)
    ensures ValuesBefore(payload, marker, pos + |marker|) == ValuesBefore(payload, marker, pos + 1)
  {
    forall i | pos + 1 <= i < pos + |marker| ensures !MatchAt(payload, marker, i) {
      NoOverlap(payload, marker, pos, i);
    }
    NoValuesBetween(payload, marker, pos + 1, pos + |marker|);
  }

  lemma OneValue(payload: seq<byte>, marker: seq<byte>, pos: nat)
    requires MatchAt(payload, marker, pos)
    ensures ValuesBefore(payload, marker, pos + 1) ==
      ValuesBefore(payload, marker, pos) + ValueSeq(ValueAt(payload, pos + |marker|))
  {}

  /** The first occurrence at or after `from`, or the end of the payload. */
  function NextMatch(payload: seq<byte>, marker: seq<byte>, from: nat): (pos: nat)
    requires from <= |payload|
    ensures from <= pos <= |payload| && (pos < |payload| ==> MatchAt(payload, marker, pos))
    ensures forall i :: from <= i < pos ==> !MatchAt(payload, marker, i)
    decreases |payload| - from
  {
    if from == |payload| || MatchAt(payload, marker, from) then from else NextMatch(payload, marker, from + 1)
  }

  /** The values read so far and those the scan still reads from `start` on, skipping every marker it finds. */
  function ScanFrom(payload: seq<byte>, marker: seq<byte>, start: nat, read: seq<int>): seq<int>
    requires marker != []
    decreases |payload| - start
  {
    if start >= |payload| then read
    else
      var pos := NextMatch(payload, marker, start);
      if pos == |payload| then read
      else ScanFrom(payload, marker, pos + |marker|, read + ValueSeq(ValueAt(payload, pos + |marker|)))
  }

  function ScanValues(payload: seq<byte>, marker: seq<byte>): seq<int>
    requires marker != []
  {
    ScanFrom(payload, marker, 0, [])
  }

  lemma NextMatchIs(payload: seq<byte>, marker: seq<byte>, start: nat, pos: nat)
    requires start <= pos < |payload| && MatchAt(payload, marker, pos)
    requires forall i :: start <= i < pos ==> !MatchAt(payload, marker, i)
    ensures NextMatch(payload, marker, start) == pos
  {}

  lemma ScanEnds(payload: seq<byte>, marker: seq<byte>, start: nat, read: seq<int>)
    requires marker != [] && start <= |payload| && forall i :: start <= i ==> !MatchAt(payload, marker, i)
    ensures ScanFrom(payload, marker, start, read) == read
  {
    var pos := NextMatch(payload, marker, start);
  }

  lemma ScanContinues(payload: seq<byte>, marker: seq<byte>, start: nat, pos: nat, value: int, read: seq<int>)
    requires marker != [] && start <= pos && MatchAt(payload, marker, pos) && value == ValueAt(payload, pos + |marker|)
    requires forall i :: start <= i < pos ==> !MatchAt(payload, marker, i)
    ensures ScanFrom(payload, marker, start, read) == ScanFrom(payload, marker, pos + |marker|, read + ValueSeq(value))
  {
    NextMatchIs(payload, marker, start, pos);
  }

  /** On an unbordered marker the scan reads every marked value. */
  lemma {:induction false} UnborderedScan(payload: seq<byte>, marker: seq<byte>, start: nat)
    requires Unbordered(marker) && marker != [] && start <= |payload|
    ensures ScanFrom(payload, marker, start, ValuesBefore(payload, marker, start)) == ValuesBefore(payload, marker, |payload|)
    decreases |payload| - start
  {
    var pos := NextMatch(payload, marker, start);
    if pos == |payload| {
      NoValuesBetween(payload, marker, start, pos);
    } else {
      SkipMarker(payload, marker, start, pos);
      UnborderedScan(payload, marker, pos + |marker|);
      ScanContinues(payload, marker, start, pos, ValueAt(payload, pos + |marker|), ValuesBefore(payload, marker, start));
    }
  }

  /** On any marker the scan reads only marked values. */
  lemma {:induction false} ScanIsMarked(payload: seq<byte>, fieldName: seq<byte>, start: nat, read: seq<int>)
    requires forall x :: x in read ==> x in GobFieldInts(payload, fieldName)
    ensures forall x :: x in ScanFrom(payload, Marker(fieldName), start, read) ==> x in GobFieldInts(payload, fieldName)
    decreases |payload| - start
  {
    var marker := Marker(fieldName);
    if start < |payload| {
      var pos := NextMatch(payload, marker, start);
      if pos < |payload| {
        var v := ValueAt(payload, pos + |marker|);
        if v > 0 {
          MarkedIdIsListed(payload, fieldName, pos);
        }
        ScanIsMarked(payload, fieldName, pos + |marker|, read + ValueSeq(v));
      }
    }
  }

  /** The loop body after a marker: every malformed tail reads as 0, which is never an id. */
  method ReadValue(payload: seq<byte>, markerEnd: nat) returns (id: int)
    ensures id == ValueAt(payload, markerEnd)
  {
    if markerEnd + 1 >= |payload| {
      return 0;
    }
    var encodedLength: int, delimiter: int := payload[markerEnd], payload[markerEnd + 1];
    if delimiter != 0 {
      return 0;
    }
    var byteLength := encodedLength - 1;
    if byteLength <= 0 || markerEnd + 2 + byteLength > |payload| {
      return 0;
    }
    id := DecodeGobSignedInt(payload[markerEnd + 2..markerEnd + 2 + byteLength]);
  }

  /** Lists an id unless it is none or already listed; `read` are the values pushed so far. */
  method Push(ids: seq<int>, seen: set<int>, id: int, ghost read: seq<int>) returns (ids': seq<int>, seen': set<int>)
    requires ids == Distinct(read) && forall x :: x in seen <==> x in ids
    ensures ids' == Distinct(read + ValueSeq(id)) && forall x :: x in seen' <==> x in ids'
  {
    DistinctGrows(read, id);
    if id <= 0 || id in seen {
      return ids, seen;
    }
    return ids + [id], seen + {id};
  }

  /** One round of the loop: finds the next marker, lists its id and skips it. */
  method ScanOne(payload: seq<byte>, marker: seq<byte>, start: nat, ids: seq<int>, seen: set<int>, ghost read: seq<int>)
    returns (next: nat, ids': seq<int>, seen': set<int>, ghost read': seq<int>)
    requires marker != [] && start < |payload|
    requires ids == Distinct(read) && forall x :: x in seen <==> x in ids
    ensures start < next <= |payload|
    ensures ScanFrom(payload, marker, next, read') == ScanFrom(payload, marker, start, read)
    ensures ids' == Distinct(read') && forall x :: x in seen' <==> x in ids'
  {
    var pos := IndexOf(payload, marker, start);
    if pos < 0 {
      ScanEnds(payload, marker, start, read);
      return |payload|, ids, seen, read;
    }
    var id := ReadValue(payload, pos + |marker|);
    ScanContinues(payload, marker, start, pos, id, read);
    ids', seen' := Push(ids, seen, id, read);
    next, read' := pos + |marker|, read + ValueSeq(id);
  }

  /** The loop over the markers. */
  method ScanMarkers(payload: seq<byte>, marker: seq<byte>) returns (ids: seq<int>)
    requires marker != []
    ensures ids == Distinct(ScanValues(payload, marker))
  {
    ids := [];
    var seen: set<int> := {};
    var start := 0;
    ghost var read: seq<int> := [];
    while start < |payload|
      invariant 0 <= start <= |payload|
      invariant ScanFrom(payload, marker, start, read) == ScanValues(payload, marker)
      invariant ids == Distinct(read)
      invariant forall x :: x in seen <==> x in ids
    {
      start, ids, seen, read := ScanOne(payload, marker, start, ids, seen, read);
    }
  }

  method ExtractGobFieldInts(payload: seq<byte>, fieldName: seq<byte>) returns (ids: seq<int>)
    ensures ids == Distinct(ScanValues(payload, Marker(fieldName)))
    ensures forall x :: x in ids ==> x in GobFieldInts(payload, fieldName)
    ensures Unbordered(Marker(fieldName)) ==> ids == GobFieldInts(payload, fieldName)
  {
    ids := ScanMarkers(payload, Marker(fieldName));
    ScanFinds(payload, fieldName);
  }

  /** What the scan yields: marked ids only, and all of them on an unbordered marker. */
  lemma ScanFinds(payload: seq<byte>, fieldName: seq<byte>)
    ensures forall x :: x in Distinct(ScanValues(payload, Marker(fieldName))) ==> x in GobFieldInts(payload, fieldName)
    ensures Unbordered(Marker(fieldName)) ==> Distinct(ScanValues(payload, Marker(fieldName))) == GobFieldInts(payload, fieldName)
  {
    ScanIsMarked(payload, fieldName, 0, []);
    if Unbordered(Marker(fieldName)) {
      UnborderedScan(payload, Marker(fieldName), 0);
    }
  }

  // ---------------------------------------------------------------- what the scan finds

  lemma {:induction false} ValuesBeforeAre(payload: seq<byte>, marker: seq<byte>, n: nat, x: int)
    ensures x in ValuesBefore(payload, marker, n) <==>
      exists i :: 0 <= i < n && MatchAt(payload, marker, i) && x == ValueAt(payload, i + |marker|) && x > 0
  {
    if n > 0 {
      ValuesBeforeAre(payload, marker, n - 1, x);
    }
  }

  /** The ids found are exactly the positive values at the marker occurrences. */
  lemma FindsExactlyTheMarkedIds(payload: seq<byte>, fieldName: seq<byte>, x: int)
    ensures x in GobFieldInts(payload, fieldName) <==>
      exists i :: 0 <= i < |payload| && MatchAt(payload, Marker(fieldName), i) && x == ValueAt(payload, i + |fieldName| + 5) && x > 0
  {
    ValuesBeforeAre(payload, Marker(fieldName), |payload|, x);
  }

  lemma MarkedIdIsListed(payload: seq<byte>, fieldName: seq<byte>, pos: nat)
    requires MatchAt(payload, Marker(fieldName), pos) && ValueAt(payload, pos + |Marker(fieldName)|) > 0
    ensures ValueAt(payload, pos + |Marker(fieldName)|) in GobFieldInts(payload, fieldName)
  {
    FindsExactlyTheMarkedIds(payload, fieldName, ValueAt(payload, pos + |Marker(fieldName)|));
  }

  lemma EncodedLength(id: int)
    requires 1 <= id <= MAX_ID
    ensures 0 < |EncodeInt(id)| < 255
  {
    BigEndianLength(id * 2, 8);
  }

  /** An id written by the encoder behind its marker is found in any surrounding payload. */
  lemma EncodedIdIsFound(before: seq<byte>, after: seq<byte>, fieldName: seq<byte>, id: int)
    requires 1 <= id <= MAX_ID
    ensures |EncodeInt(id)| < 255
    ensures id in GobFieldInts(before + Marker(fieldName) + [|EncodeInt(id)| + 1, 0] + EncodeInt(id) + after, fieldName)
  {
    EncodedLength(id);
    DecodeInvertsEncode(id);
    MarkedEncodingIsFound(before, after, fieldName, id, EncodeInt(id));
  }

  lemma MarkedEncodingIsFound(before: seq<byte>, after: seq<byte>, fieldName: seq<byte>, id: int, enc: seq<byte>)
    requires 0 < |enc| < 255 && Decode(enc) == id > 0
    ensures id in GobFieldInts(before + Marker(fieldName) + [|enc| + 1, 0] + enc + after, fieldName)
  {
    var payload := before + Marker(fieldName) + [|enc| + 1, 0] + enc + after;
    MarkedValue(before, Marker(fieldName), enc, after, payload);
    MarkedIdIsListed(payload, fieldName, |before|);
  }

  lemma MarkedValue(before: seq<byte>, m: seq<byte>, enc: seq<byte>, after: seq<byte>, payload: seq<byte>)
    requires 0 < |enc| < 255 && payload == before + m + [|enc| + 1, 0] + enc + after
    ensures MatchAt(payload, m, |before|) && ValueAt(payload, |before| + |m|) == Decode(enc)
  {
    var e := |before| + |m|;
    assert payload[|before|..e] == m;
    assert payload[e] == |enc| + 1 && payload[e + 1] == 0 && payload[e + 2..e + 2 + |enc|] == enc;
  }
}
