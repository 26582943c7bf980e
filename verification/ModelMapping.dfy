/** The hand-written parser of route-level model mappings (`routing/matcher.go`). */
module ModelMapping {
  // A JSON object of strings is split at top-level commas, each pair at its first colon outside a string.
  import opened Seqs
  import opened Text

  // ---------------------------------------------------------------- splitting

  function Emit(part: string): seq<string> {
    if Trim(part) == "" then [] else [Trim(part)]
  }

  function ToggledAt(c: char, afterBackslash: bool, inString: bool): bool {
    if c == '"' && !afterBackslash then !inString else inString
  }

  /** The parts still to come: `part` is the unfinished one, `rest` the unread text. */
  function Split(rest: string, afterBackslash: bool, part: string, inString: bool, depth: int): seq<string> {
    if rest == "" then Emit(part)
    else
      var c := rest[0];
      var quoted := ToggledAt(c, afterBackslash, inString);
      if !quoted && c == ',' && depth == 0 then Emit(part) + Split(rest[1..], false, "", quoted, depth)
      else
        Split(rest[1..], c == '\\', part + [c], quoted, if quoted then depth else NestedAt(c, depth))
  }

  /** `Split` seen from position `i` of the whole text, with the unfinished part starting at `start`. */
  function SplitFrom(s: string, i: nat, start: nat, inString: bool, depth: int): seq<string>
    requires start <= i <= |s|
  {
    Split(s[i..], i > 0 && s[i - 1] == '\\', s[start..i], inString, depth)
  }

  function NestedAt(c: char, depth: int): int {
    if c == '{' || c == '[' then depth + 1 else if c == '}' || c == ']' then depth - 1 else depth
  }

  lemma SplitFromStep(s: string, i: nat, start: nat, inString: bool, depth: int)
    requires start <= i < |s|
    ensures var quoted := ToggledAt(s[i], i > 0 && s[i - 1] == '\\', inString);
            SplitFrom(s, i, start, inString, depth) ==
              if quoted then SplitFrom(s, i + 1, start, quoted, depth)
              else if s[i] == ',' && depth == 0 then Emit(s[start..i]) + SplitFrom(s, i + 1, i + 1, quoted, depth)
              else SplitFrom(s, i + 1, start, quoted, NestedAt(s[i], depth))
  {
    assert s[i..][0] == s[i] && s[i..][1..] == s[i + 1..];
    assert s[start..i + 1] == s[start..i] + [s[i]];
    assert s[i + 1..i + 1] == "";
  }

  /** The parts found so far and those still to come. */
  function Remaining(s: string, found: seq<string>, i: nat, start: nat, inString: bool, depth: int): seq<string>
    requires start <= i <= |s|
  {
    found + SplitFrom(s, i, start, inString, depth)
  }

  lemma RemainingStep(s: string, found: seq<string>, i: nat, start: nat, inString: bool, depth: int)
    requires start <= i < |s|
    ensures var quoted := ToggledAt(s[i], i > 0 && s[i - 1] == '\\', inString);
            Remaining(s, found, i, start, inString, depth) ==
              if quoted then Remaining(s, found, i + 1, start, quoted, depth)
              else if s[i] == ',' && depth == 0 then Remaining(s, found + Emit(s[start..i]), i + 1, i + 1, quoted, depth)
              else Remaining(s, found, i + 1, start, quoted, NestedAt(s[i], depth))
  {
    SplitFromStep(s, i, start, inString, depth);
    var later := SplitFrom(s, i + 1, i + 1, ToggledAt(s[i], i > 0 && s[i - 1] == '\\', inString), depth);
    assert found + (Emit(s[start..i]) + later) == (found + Emit(s[start..i])) + later;
  }

  lemma RemainingStarts(s: string)
    ensures Remaining(s, [], 0, 0, false, 0) == Split(s, false, "", false, 0)
  {
    var parts := SplitFrom(s, 0, 0, false, 0);
    assert [] + parts == parts;
    assert s[0..] == s && s[0..0] == "";
  }

  lemma RemainingEnds(s: string, found: seq<string>, start: nat, inString: bool, depth: int)
    requires start <= |s|
    ensures Remaining(s, found, |s|, start, inString, depth) == found + Emit(s[start..])
  {
    SplitEnds(s[|s|..], |s| > 0 && s[|s| - 1] == '\\', s[start..], inString, depth);
    assert s[start..|s|] == s[start..];
  }

  lemma SplitEnds(rest: string, afterBackslash: bool, part: string, inString: bool, depth: int)
    requires |rest| == 0
    ensures Split(rest, afterBackslash, part, inString, depth) == Emit(part)
  {}

  /** Appends the trimmed part unless it is blank. */
  method EmitPart(parts: seq<string>, part: string) returns (r: seq<string>)
    ensures r == parts + Emit(part)
  {
    var trimmed := Trim(part);
    r := if trimmed != "" then parts + [trimmed] else parts;
  }

  /** What one character does to the parts, the start of the open part, the string state and the depth. */
  method SplitOne(s: string, found: seq<string>, i: nat, start: nat, inString: bool, depth: int)
    returns (found': seq<string>, start': nat, inString': bool, depth': int)
    requires start <= i < |s|
    ensures start' <= i + 1
    ensures Remaining(s, found', i + 1, start', inString', depth') == Remaining(s, found, i, start, inString, depth)
  {
    RemainingStep(s, found, i, start, inString, depth);
    found', start', inString', depth' := found, start, inString, depth;
    var c := s[i];
    if c == '"' && (i == 0 || s[i - 1] != '\\') {
      inString' := !inString;
    }
    if !inString' {
      if c == '{' || c == '[' {
        depth' := depth + 1;
      } else if c == '}' || c == ']' {
        depth' := depth - 1;
      } else if c == ',' && depth == 0 {
        found' := EmitPart(found, s[start..i]);
        start' := i + 1;
      }
    }
  }

  method SplitJSONPairs(s: string) returns (result: seq<string>)
    ensures result == Split(s, false, "", false, 0)
  {
    result := [];
    var depth, start, inString := 0, 0, false;
    RemainingStarts(s);
    for i := 0 to |s|
      invariant 0 <= start <= i
      invariant Remaining(s, result, i, start, inString, depth) == Split(s, false, "", false, 0)
    {
      result, start, inString, depth := SplitOne(s, result, i, start, inString, depth);
    }
    RemainingEnds(s, result, start, inString, depth);
    result := EmitPart(result, s[start..]);
  }

  /** Where the first colon outside strings is, if anywhere. */
  function ColonAt(rest: string, afterBackslash: bool, inString: bool): (r: Option<nat>)
    ensures r.Some? ==> r.value < |rest|
  {
    if rest == "" then None
    else
      var quoted := ToggledAt(rest[0], afterBackslash, inString);
      if !quoted && rest[0] == ':' then Some(0)
      else
        match ColonAt(rest[1..], rest[0] == '\\', quoted)
        case None => None
        case Some(n) => Some(n + 1)
  }

  /** `strconv.Unquote`: the decoded literal, or none on a syntax error. */
  type Unquoter = string -> Option<string>

  function UnquoteJSON(s: string, unquote: Unquoter): string {
    if |s| >= 2 && s[0] == '"' && s[|s| - 1] == '"' && unquote(s).Some? then unquote(s).value else s
  }

  function PairOf(part: string, unquote: Unquoter): Option<(string, string)> {
    match ColonAt(part, false, false)
    case None => None
    case Some(i) => Some((UnquoteJSON(Trim(part[..i]), unquote), UnquoteJSON(Trim(part[i + 1..]), unquote)))
  }

  /** `ColonAt` seen from position `i` of the whole text. */
  function ColonFrom(s: string, i: nat, inString: bool): Option<nat>
    requires i <= |s|
  {
    match ColonAt(s[i..], i > 0 && s[i - 1] == '\\', inString)
    case None => None
    case Some(n) => Some(i + n)
  }

  lemma ColonFromStep(s: string, i: nat, inString: bool)
    requires i < |s|
    ensures var quoted := ToggledAt(s[i], i > 0 && s[i - 1] == '\\', inString);
            ColonFrom(s, i, inString) == if !quoted && s[i] == ':' then Some(i) else ColonFrom(s, i + 1, quoted)
  {
    assert s[i..][0] == s[i] && s[i..][1..] == s[i + 1..];
  }

  method SplitJSONPair(s: string, unquote: Unquoter) returns (pair: Option<(string, string)>)
    ensures pair == PairOf(s, unquote)
  {
    var inString := false;
    var i := 0;
    assert s[0..] == s;
    while i < |s|
      invariant 0 <= i <= |s|
      invariant ColonFrom(s, i, inString) == ColonAt(s, false, false)
    {
      ColonFromStep(s, i, inString);
      if s[i] == '"' && (i == 0 || s[i - 1] != '\\') {
        inString := !inString;
      }
      if !inString && s[i] == ':' {
        return Some((UnquoteJSON(Trim(s[..i]), unquote), UnquoteJSON(Trim(s[i + 1..]), unquote)));
      }
      i := i + 1;
    }
    pair := None;
  }

  // ---------------------------------------------------------------- the parser

  /** The parse; `Panics` stands for the slice error on a lone opening brace. */
  datatype Outcome = Panics | NoMapping | Mapping(entries: map<string, string>)

  function Collect(parts: seq<string>, unquote: Unquoter): map<string, string> {
    if parts == [] then map[]
    else
      var front := Collect(parts[..|parts| - 1], unquote);
      match PairOf(parts[|parts| - 1], unquote)
      case None => front
      case Some(pair) => front[pair.0 := pair.1]
  }

  function Parse(raw: Option<string>, unquote: Unquoter): Outcome {
    if raw.None? then NoMapping
    else
      var s := Trim(raw.value);
      if s == "" || s[0] != '{' then NoMapping
      else if |s| < 2 then Panics
      else if s[1..|s| - 1] == "" then NoMapping
      else
        var entries := Collect(Split(s[1..|s| - 1], false, "", false, 0), unquote);
        if entries == map[] then NoMapping else Mapping(entries)
  }

  method ParseModelMappingRecord(raw: Option<string>, unquote: Unquoter) returns (r: Outcome)
    ensures r == Parse(raw, unquote)
  {
    if raw.None? {
      return NoMapping;
    }
    var s := Trim(raw.value);
    if s == "" || s[0] != '{' {
      return NoMapping;
    }
    if |s| < 2 {
      return Panics;
    }
    var inner := s[1..|s| - 1];
    if inner == "" {
      return NoMapping;
    }
    var parts := SplitJSONPairs(inner);
    var result: map<string, string> := map[];
    for i := 0 to |parts|
      invariant result == Collect(parts[..i], unquote)
    {
      assert parts[..i + 1][..i] == parts[..i];
      var kv := SplitJSONPair(parts[i], unquote);
      if kv.Some? {
        result := result[kv.value.0 := kv.value.1];
      }
    }
    assert parts[..|parts|] == parts;
    r := if result == map[] then NoMapping else Mapping(result);
  }

  /** The parser fails to answer on exactly one text, up to surrounding space. */
  lemma PanicsOnlyOnLoneBrace(raw: Option<string>, unquote: Unquoter)
    ensures Parse(raw, unquote) == Panics <==> raw.Some? && Trim(raw.value) == "{"
  {
    if raw.Some? && Trim(raw.value) != "" && |Trim(raw.value)| < 2 {
      assert Trim(raw.value) == [Trim(raw.value)[0]];
    }
  }

  // ---------------------------------------------------------------- compact JSON objects

  /** No quote, backslash or control character: written between quotes without escapes. */
  ghost predicate Plain(t: string) {
    forall i :: 0 <= i < |t| ==> t[i] != '"' && t[i] != '\\' && t[i] >= ' '
  }

  function Quote(t: string): string { ['"'] + t + ['"'] }

  function EncodePair(p: (string, string)): string { Quote(p.0) + ":" + Quote(p.1) }

  /** The members of the object, in any order the encoder chose. */
  function EncodeMembers(ps: seq<(string, string)>): string {
    if ps == [] then "" else if |ps| == 1 then EncodePair(ps[0])
    else EncodePair(ps[0]) + "," + EncodeMembers(ps[1..])
  }

  function Encode(ps: seq<(string, string)>): string { "{" + EncodeMembers(ps) + "}" }

  /** The map a list of members denotes; a repeated key keeps its last value. */
  function MapOf(ps: seq<(string, string)>): map<string, string> {
    if ps == [] then map[] else MapOf(ps[..|ps| - 1])[ps[|ps| - 1].0 := ps[|ps| - 1].1]
  }

  ghost predicate PlainMembers(ps: seq<(string, string)>) {
    forall i :: 0 <= i < |ps| ==> Plain(ps[i].0) && Plain(ps[i].1)
  }

  /** `strconv.Unquote` returns the inside of a literal that needs no unescaping. */
  ghost predicate UnquotesPlain(unquote: Unquoter) {
    forall t :: Plain(t) ==> unquote(Quote(t)) == Some(t)
  }

  // ---------------------------------------------------------------- scanning encoded text

  lemma {:induction false} SplitInside(t: string, rest: string, part: string, depth: int)
    requires Plain(t)
    ensures Split(t + ['"'] + rest, false, part, true, depth) == Split(rest, false, part + t + ['"'], false, depth)
  {
    var text := t + ['"'] + rest;
    if t == "" {
      assert text[1..] == rest && part + t == part;
    } else {
      assert text[1..] == t[1..] + ['"'] + rest && part + [t[0]] + t[1..] == part + t;
      SplitInside(t[1..], rest, part + [t[0]], depth);
    }
  }

  lemma SplitQuoted(t: string, rest: string, part: string)
    requires Plain(t)
    ensures Split(Quote(t) + rest, false, part, false, 0) == Split(rest, false, part + Quote(t), false, 0)
  {
    assert (Quote(t) + rest)[1..] == t + ['"'] + rest;
    SplitInside(t, rest, part + ['"'], 0);
    assert part + ['"'] + t + ['"'] == part + Quote(t);
  }

  lemma SplitPair(p: (string, string), rest: string)
    requires Plain(p.0) && Plain(p.1)
    ensures Split(EncodePair(p) + rest, false, "", false, 0) == Split(rest, false, EncodePair(p), false, 0)
  {
    var tail := Quote(p.1) + rest;
    assert EncodePair(p) + rest == Quote(p.0) + (":" + tail);
    SplitQuoted(p.0, ":" + tail, "");
    assert "" + Quote(p.0) == Quote(p.0) && (":" + tail)[1..] == tail;
    SplitQuoted(p.1, rest, Quote(p.0) + ":");
  }

  lemma EmitPair(p: (string, string))
    ensures Emit(EncodePair(p)) == [EncodePair(p)]
  {
    var e := EncodePair(p);
    assert e[0] == '"' && e[|e| - 1] == '"';
    assert Trim(e) == e;
  }

  lemma SplitPairThenComma(p: (string, string), members: string)
    requires Plain(p.0) && Plain(p.1)
    ensures Split(EncodePair(p) + "," + members, false, "", false, 0) == [EncodePair(p)] + Split(members, false, "", false, 0)
  {
    assert EncodePair(p) + "," + members == EncodePair(p) + ("," + members);
    SplitPair(p, "," + members);
    assert ("," + members)[0] == ',' && ("," + members)[1..] == members;
    EmitPair(p);
  }

  lemma SplitLastPair(p: (string, string))
    requires Plain(p.0) && Plain(p.1)
    ensures Split(EncodePair(p), false, "", false, 0) == [EncodePair(p)]
  {
    EmitPair(p);
    SplitPair(p, "");
    assert EncodePair(p) + "" == EncodePair(p);
  }

  function Parts(ps: seq<(string, string)>): (r: seq<string>)
    ensures |r| == |ps|
  {
    seq(|ps|, i requires 0 <= i < |ps| => EncodePair(ps[i]))
  }

  lemma PartsCons(ps: seq<(string, string)>)
    requires ps != []
    ensures Parts(ps) == [EncodePair(ps[0])] + Parts(ps[1..])
  {}

  lemma {:induction false} SplitMembers(ps: seq<(string, string)>)
    requires ps != [] && PlainMembers(ps)
    ensures Split(EncodeMembers(ps), false, "", false, 0) == Parts(ps)
  {
    PartsCons(ps);
    if |ps| == 1 {
      SplitLastPair(ps[0]);
    } else {
      SplitPairThenComma(ps[0], EncodeMembers(ps[1..]));
      SplitMembers(ps[1..]);
    }
  }

  lemma {:induction false} ColonAfterInside(t: string, rest: string)
    requires Plain(t)
    ensures ColonAt(t + "\":" + rest, false, true) == Some(|t| + 1)
  {
    var text := t + "\":" + rest;
    if t == "" {
      assert text[0] == '"' && text[1..][0] == ':';
    } else {
      assert text[0] == t[0] && text[1..] == t[1..] + "\":" + rest;
      ColonAfterInside(t[1..], rest);
    }
  }

  lemma UnquotesBack(t: string, unquote: Unquoter)
    requires Plain(t) && UnquotesPlain(unquote)
    ensures UnquoteJSON(Trim(Quote(t)), unquote) == t
  {
    var q := Quote(t);
    assert q[0] == '"' && q[|q| - 1] == '"';
    assert Trim(q) == q;
  }

  lemma PairColon(p: (string, string))
    requires Plain(p.0)
    ensures ColonAt(EncodePair(p), false, false) == Some(|p.0| + 2)
  {
    var e := EncodePair(p);
    assert e[0] == '"' && e[1..] == p.0 + "\":" + Quote(p.1);
    ColonAfterInside(p.0, Quote(p.1));
  }

  lemma PairDecodes(p: (string, string), unquote: Unquoter)
    requires Plain(p.0) && Plain(p.1) && UnquotesPlain(unquote)
    ensures PairOf(EncodePair(p), unquote) == Some(p)
  {
    PairColon(p);
    UnquotesBack(p.0, unquote);
    UnquotesBack(p.1, unquote);
    assert EncodePair(p)[..|p.0| + 2] == Quote(p.0);
    assert EncodePair(p)[|p.0| + 3..] == Quote(p.1);
  }

  lemma {:induction false} CollectDecodes(ps: seq<(string, string)>, unquote: Unquoter)
    requires PlainMembers(ps) && UnquotesPlain(unquote)
    ensures Collect(Parts(ps), unquote) == MapOf(ps)
  {
    if ps != [] {
      var n := |ps| - 1;
      assert Parts(ps)[..n] == Parts(ps[..n]);
      PairDecodes(ps[n], unquote);
      CollectDecodes(ps[..n], unquote);
    }
  }

  /** Parsing the compact JSON of a non-empty map of plain strings returns that map. */
  lemma RoundTrip(ps: seq<(string, string)>, unquote: Unquoter)
    requires ps != [] && PlainMembers(ps) && UnquotesPlain(unquote)
    ensures Parse(Some(Encode(ps)), unquote) == Mapping(MapOf(ps))
  {
    var e, members := Encode(ps), EncodeMembers(ps);
    assert e[0] == '{' && e[|e| - 1] == '}' && e[1..|e| - 1] == members;
    assert Trim(e) == e;
    assert |members| >= |EncodePair(ps[0])| > 0;
    SplitMembers(ps);
    CollectDecodes(ps, unquote);
    assert ps[|ps| - 1].0 in MapOf(ps);
  }

  /** The members list each entry of the map exactly once, in some order. */
  ghost predicate Enumerates(ps: seq<(string, string)>, m: map<string, string>) {
    && (forall i, j :: 0 <= i < j < |ps| ==> ps[i].0 != ps[j].0)
    && (forall i :: 0 <= i < |ps| ==> ps[i].0 in m && m[ps[i].0] == ps[i].1)
    && (forall k :: k in m ==> exists i :: 0 <= i < |ps| && ps[i].0 == k)
  }

  lemma {:induction false} MapOfMembers(ps: seq<(string, string)>, k: string)
    requires forall i, j :: 0 <= i < j < |ps| ==> ps[i].0 != ps[j].0
    ensures k in MapOf(ps) <==> exists i :: 0 <= i < |ps| && ps[i].0 == k
    ensures forall i :: 0 <= i < |ps| && ps[i].0 == k ==> k in MapOf(ps) && MapOf(ps)[k] == ps[i].1
  {
    if ps != [] {
      var n := |ps| - 1;
      MapOfMembers(ps[..n], k);
      assert forall i :: 0 <= i < n ==> ps[..n][i] == ps[i];
    }
  }

  /** Whatever order the encoder writes a non-empty map of plain strings in, parsing returns that map. */
  lemma RoundTripMap(m: map<string, string>, ps: seq<(string, string)>, unquote: Unquoter)
    requires m != map[] && Enumerates(ps, m) && PlainMembers(ps) && UnquotesPlain(unquote)
    ensures Parse(Some(Encode(ps)), unquote) == Mapping(m)
  {
    var k :| k in m;
    RoundTrip(ps, unquote);
    SameMap(m, ps);
  }

  lemma SameMap(m: map<string, string>, ps: seq<(string, string)>)
    requires Enumerates(ps, m)
    ensures MapOf(ps) == m
  {
    forall k ensures k in MapOf(ps) <==> k in m
             ensures k in m ==> k in MapOf(ps) && MapOf(ps)[k] == m[k] {
      MapOfMembers(ps, k);
    }
  }
}
