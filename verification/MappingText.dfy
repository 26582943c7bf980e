/** Which object texts the mapping parser reads back (`routing/matcher.go`): spaces, escapes and nested values. */
module MappingText {
  // `ModelMapping.RoundTrip` speaks of compact objects of plain strings; here members may be spaced, strings
  // may hold escapes, and values may be any nesting, which the parser keeps as text.
  import opened Seqs
  import opened Text
  import opened ModelMapping

  // ---------- texts ----------

  /** The inside of a string literal: no quote without a backslash before it. */
  ghost predicate Inside(b: string, afterBackslash: bool) {
    b == "" || ((b[0] == '"' ==> afterBackslash) && Inside(b[1..], b[0] == '\\'))
  }

  ghost predicate EndsInBackslash(b: string, afterBackslash: bool) {
    if b == "" then afterBackslash else b[|b| - 1] == '\\'
  }

  /** The literal with this inside ends where the parser thinks it ends. */
  ghost predicate Closed(b: string) { Inside(b, false) && !EndsInBackslash(b, false) }

  /** Nothing in it is punctuation. */
  ghost predicate Unpunctuated(t: string) { forall i :: 0 <= i < |t| ==> t[i] !in {'"', '\\', ',', ':', '{', '}', '[', ']'} }

  /** A value, and what nests in it; a block is an object or a list. */
  datatype Json = Str(inside: string) | Atom(t: string) | Pair(inside: string, value: Json) | Block(curly: bool, items: seq<Json>)

  ghost predicate Proper(j: Json) {
    match j
    case Str(b) => Closed(b)
    case Atom(t) => Unpunctuated(t)
    case Pair(b, v) => Closed(b) && Proper(v)
    case Block(_, items) => forall i :: 0 <= i < |items| ==> Proper(items[i])
  }

  function Render(j: Json): string
    decreases j, 0
  {
    match j
    case Str(b) => Quote(b)
    case Atom(t) => t
    case Pair(b, v) => Quote(b) + ":" + Render(v)
    case Block(curly, items) => (if curly then "{" else "[") + RenderAll(items) + (if curly then "}" else "]")
  }

  function RenderAll(items: seq<Json>): string
    decreases items, 1
  {
    if items == [] then "" else if |items| == 1 then Render(items[0])
    else Render(items[0]) + "," + RenderAll(items[1..])
  }

  // ---------- scanning for commas ----------

  /** Read at depth `d`, `t` splits nothing and leaves the parser as it found it. */
  ghost predicate Passes(t: string, d: int) {
    forall rest, part :: PassesBefore(t, d, rest, part)
  }
  ghost predicate PassesBefore(t: string, d: int, rest: string, part: string) {
    Split(t + rest, false, part, false, d) == Split(rest, false, part + t, false, d)
  }

  lemma Shifted(a: string, b: string, c: string)
    ensures (a + b) + c == a + (b + c)
  {}

  lemma PassesConcat(a: string, b: string, d: int)
    requires Passes(a, d) && Passes(b, d)
    ensures Passes(a + b, d)
  {
    forall rest, part ensures PassesBefore(a + b, d, rest, part) {
      assert PassesBefore(a, d, b + rest, part) && PassesBefore(b, d, rest, part + a);
      Shifted(a, b, rest);
      Shifted(part, a, b);
    }
  }

  lemma StepOver(c: char, rest: string, part: string, d: int)
    requires c != '"' && c != '\\' && (c != ',' || d != 0)
    ensures Split([c] + rest, false, part, false, d) == Split(rest, false, part + [c], false, NestedAt(c, d))
  {
    assert ([c] + rest)[0] == c && ([c] + rest)[1..] == rest;
  }

  lemma CharPasses(c: char, d: int)
    requires c !in {'"', '\\', '{', '}', '[', ']'} && (c != ',' || d != 0)
    ensures Passes([c], d)
  {
    forall rest, part ensures PassesBefore([c], d, rest, part) {
      StepOver(c, rest, part, d);
    }
  }

  lemma {:induction false} UnpunctuatedPasses(t: string, d: int)
    requires Unpunctuated(t)
    ensures Passes(t, d)
  {
    if t == "" {
      forall rest, part ensures PassesBefore(t, d, rest, part) {
        assert t + rest == rest && part + t == part;
      }
    } else {
      CharPasses(t[0], d);
      UnpunctuatedPasses(t[1..], d);
      PassesConcat([t[0]], t[1..], d);
      assert [t[0]] + t[1..] == t;
    }
  }

  lemma {:induction false} InsideIsSkipped(b: string, afterBackslash: bool, rest: string, part: string, d: int)
    requires Inside(b, afterBackslash)
    ensures Split(b + ['"'] + rest, afterBackslash, part, true, d) ==
            Split(rest, false, part + b + ['"'], EndsInBackslash(b, afterBackslash), d)
  {
    var text := b + ['"'] + rest;
    if b == "" {
      assert text[1..] == rest && part + b == part;
    } else {
      assert text[0] == b[0] && text[1..] == b[1..] + ['"'] + rest;
      assert part + [b[0]] + b[1..] == part + b;
      InsideIsSkipped(b[1..], b[0] == '\\', rest, part + [b[0]], d);
    }
  }

  /** The parser leaves a literal exactly when its inside does not end in a backslash, escaped or not. */
  lemma LiteralClosesIff(b: string, rest: string, part: string, d: int)
    requires Inside(b, false)
    ensures Split(Quote(b) + rest, false, part, false, d) ==
            Split(rest, false, part + Quote(b), EndsInBackslash(b, false), d)
  {
    assert (Quote(b) + rest)[0] == '"' && (Quote(b) + rest)[1..] == b + ['"'] + rest;
    InsideIsSkipped(b, false, rest, part + ['"'], d);
    assert part + ['"'] + b + ['"'] == part + Quote(b);
  }

  lemma LiteralPasses(b: string, d: int)
    requires Closed(b)
    ensures Passes(Quote(b), d)
  {
    forall rest, part ensures PassesBefore(Quote(b), d, rest, part) {
      LiteralClosesIff(b, rest, part, d);
    }
  }

  lemma BlockPasses(curly: bool, t: string, d: int)
    requires d >= 0 && Passes(t, d + 1)
    ensures Passes((if curly then "{" else "[") + t + (if curly then "}" else "]"), d)
  {
    var open, close := if curly then '{' else '[', if curly then '}' else ']';
    forall rest, part ensures PassesBefore([open] + t + [close], d, rest, part) {
      StepOver(open, t + ([close] + rest), part, d);
      assert PassesBefore(t, d + 1, [close] + rest, part + [open]);
      StepOver(close, rest, part + [open] + t, d + 1);
      assert [open] + t + [close] + rest == [open] + (t + ([close] + rest));
      assert part + [open] + t + [close] == part + ([open] + t + [close]);
    }
  }

  lemma {:induction false} RenderPasses(j: Json, d: int)
    requires Proper(j) && d >= 0
    ensures Passes(Render(j), d)
    decreases j, 0
  {
    match j
    case Str(b) => LiteralPasses(b, d);
    case Atom(t) => UnpunctuatedPasses(t, d);
    case Pair(b, v) =>
      LiteralPasses(b, d);
      CharPasses(':', d);
      PassesConcat(Quote(b), ":", d);
      RenderPasses(v, d);
      PassesConcat(Quote(b) + ":", Render(v), d);
    case Block(curly, items) =>
      RenderAllPasses(items, d + 1);
      BlockPasses(curly, RenderAll(items), d);
  }

  lemma {:induction false} RenderAllPasses(items: seq<Json>, d: int)
    requires (forall i :: 0 <= i < |items| ==> Proper(items[i])) && d >= 1
    ensures Passes(RenderAll(items), d)
    decreases items, 1
  {
    if items == [] {
      UnpunctuatedPasses("", d);
    } else {
      RenderPasses(items[0], d);
      if |items| > 1 {
        CharPasses(',', d);
        RenderAllPasses(items[1..], d);
        PassesConcat(Render(items[0]), ",", d);
        PassesConcat(Render(items[0]) + ",", RenderAll(items[1..]), d);
      }
    }
  }

  // ---------- one spaced member ----------

  /** `"key" : value` with spaces wherever JSON allows them. */
  datatype Entry = Entry(before: string, key: string, afterKey: string, afterColon: string, value: Json, after: string)

  /** A value as it stands in an object: a string, a block, or a text without punctuation or outer spaces. */
  ghost predicate Value(j: Json) {
    Proper(j) && !j.Pair? && (j.Atom? ==> j.t != "" && !IsSpace(j.t[0]) && !IsSpace(j.t[|j.t| - 1]))
  }

  ghost predicate ProperEntry(e: Entry) {
    && AllSpace(e.before) && AllSpace(e.afterKey) && AllSpace(e.afterColon) && AllSpace(e.after)
    && Closed(e.key) && Value(e.value)
  }

  function Core(e: Entry): string { Quote(e.key) + e.afterKey + ":" + e.afterColon + Render(e.value) }
  function Member(e: Entry): string { e.before + Core(e) + e.after }

  function Members(es: seq<Entry>): string {
    if es == [] then "" else if |es| == 1 then Member(es[0]) else Member(es[0]) + "," + Members(es[1..])
  }

  /** A literal as `strconv.Unquote` decodes it, or as it stands when it cannot. */
  function Decoded(b: string, unquote: Unquoter): string {
    match unquote(Quote(b))
    case Some(t) => t
    case None => Quote(b)
  }

  /** Strings are decoded; everything else stays the text it is. */
  function ValueOf(j: Json, unquote: Unquoter): string { if j.Str? then Decoded(j.inside, unquote) else Render(j) }

  function EntryOf(e: Entry, unquote: Unquoter): (string, string) { (Decoded(e.key, unquote), ValueOf(e.value, unquote)) }

  lemma SpacesPass(t: string, d: int)
    requires AllSpace(t)
    ensures Passes(t, d)
  {
    UnpunctuatedPasses(t, d);
  }

  lemma CorePasses(e: Entry)
    requires ProperEntry(e)
    ensures Passes(Core(e), 0)
  {
    LiteralPasses(e.key, 0);
    SpacesPass(e.afterKey, 0);
    CharPasses(':', 0);
    SpacesPass(e.afterColon, 0);
    RenderPasses(e.value, 0);
    PassesConcat(Quote(e.key), e.afterKey, 0);
    PassesConcat(Quote(e.key) + e.afterKey, ":", 0);
    PassesConcat(Quote(e.key) + e.afterKey + ":", e.afterColon, 0);
    PassesConcat(Quote(e.key) + e.afterKey + ":" + e.afterColon, Render(e.value), 0);
  }

  lemma MemberPasses(e: Entry)
    requires ProperEntry(e)
    ensures Passes(Member(e), 0)
  {
    CorePasses(e);
    SpacesPass(e.before, 0);
    SpacesPass(e.after, 0);
    PassesConcat(e.before, Core(e), 0);
    PassesConcat(e.before + Core(e), e.after, 0);
  }

  lemma ValueIsTrimmed(j: Json)
    requires Value(j)
    ensures var t := Render(j); t != "" && !IsSpace(t[0]) && !IsSpace(t[|t| - 1])
  {}

  lemma MemberIsEmitted(e: Entry)
    requires ProperEntry(e)
    ensures Emit(Member(e)) == [Core(e)]
  {
    ValueIsTrimmed(e.value);
    assert Core(e)[0] == '"' && Core(e)[|Core(e)| - 1] == Render(e.value)[|Render(e.value)| - 1];
    TrimPadded(e.before, Core(e), e.after);
  }

  function Cores(es: seq<Entry>): (r: seq<string>)
    ensures |r| == |es|
  {
    seq(|es|, i requires 0 <= i < |es| => Core(es[i]))
  }

  lemma MemberPassesBefore(e: Entry, rest: string)
    requires ProperEntry(e)
    ensures Split(Member(e) + rest, false, "", false, 0) == Split(rest, false, Member(e), false, 0)
  {
    MemberPasses(e);
    assert PassesBefore(Member(e), 0, rest, "");
    assert "" + Member(e) == Member(e);
  }

  lemma SplitAtComma(rest: string, part: string)
    ensures Split("," + rest, false, part, false, 0) == Emit(part) + Split(rest, false, "", false, 0)
  {
    assert ("," + rest)[0] == ',' && ("," + rest)[1..] == rest;
  }

  lemma SplitsLastMember(e: Entry)
    requires ProperEntry(e)
    ensures Split(Member(e), false, "", false, 0) == [Core(e)]
  {
    MemberPassesBefore(e, "");
    assert Member(e) + "" == Member(e);
    MemberIsEmitted(e);
  }

  lemma Regrouped(a: string, rest: string)
    ensures a + "," + rest == a + ("," + rest)
  {}

  lemma SplitsOneMember(e: Entry, rest: string)
    requires ProperEntry(e)
    ensures Split(Member(e) + "," + rest, false, "", false, 0) == [Core(e)] + Split(rest, false, "", false, 0)
  {
    MemberPassesBefore(e, "," + rest);
    Regrouped(Member(e), rest);
    SplitAtComma(rest, Member(e));
    MemberIsEmitted(e);
  }

  lemma CoresCons(es: seq<Entry>)
    requires es != []
    ensures Cores(es) == [Core(es[0])] + Cores(es[1..])
    ensures |es| == 1 ==> Cores(es) == [Core(es[0])]
  {}

  lemma {:induction false} SplitsIntoMembers(es: seq<Entry>)
    requires es != [] && forall i :: 0 <= i < |es| ==> ProperEntry(es[i])
    ensures Split(Members(es), false, "", false, 0) == Cores(es)
  {
    CoresCons(es);
    if |es| == 1 {
      SplitsLastMember(es[0]);
    } else {
      SplitsOneMember(es[0], Members(es[1..]));
      SplitsIntoMembers(es[1..]);
    }
  }

  // ---------- the colon of a member ----------

  lemma {:induction false} ColonAfterLiteral(b: string, afterBackslash: bool, rest: string)
    requires Inside(b, afterBackslash) && !EndsInBackslash(b, afterBackslash)
    ensures ColonAt(b + ['"'] + rest, afterBackslash, true) ==
            match ColonAt(rest, false, false) case None => None case Some(n) => Some(|b| + 1 + n)
  {
    var text := b + ['"'] + rest;
    if b == "" {
      assert text[1..] == rest;
    } else {
      assert text[0] == b[0] && text[1..] == b[1..] + ['"'] + rest;
      ColonAfterLiteral(b[1..], b[0] == '\\', rest);
    }
  }

  lemma {:induction false} ColonAfterSpaces(t: string, rest: string)
    requires AllSpace(t)
    ensures ColonAt(t + ":" + rest, false, false) == Some(|t|)
  {
    var text := t + ":" + rest;
    if t != "" {
      assert text[0] == t[0] && text[1..] == t[1..] + ":" + rest;
      ColonAfterSpaces(t[1..], rest);
    }
  }

  lemma CoreColon(e: Entry)
    requires ProperEntry(e)
    ensures ColonAt(Core(e), false, false) == Some(|e.key| + 2 + |e.afterKey|)
  {
    var tail := e.afterColon + Render(e.value);
    var rest := e.afterKey + ":" + tail;
    assert Core(e)[0] == '"' && Core(e)[1..] == e.key + ['"'] + rest;
    ColonAfterLiteral(e.key, false, rest);
    ColonAfterSpaces(e.afterKey, tail);
  }

  lemma LiteralIsDecoded(b: string, unquote: Unquoter)
    ensures UnquoteJSON(Quote(b), unquote) == Decoded(b, unquote)
  {}

  lemma ValueIsRead(j: Json, unquote: Unquoter)
    requires Value(j)
    ensures UnquoteJSON(Render(j), unquote) == ValueOf(j, unquote)
  {
    if j.Str? {
      LiteralIsDecoded(j.inside, unquote);
    } else {
      assert Render(j)[0] != '"';
    }
  }

  lemma KeyHalf(e: Entry, i: nat, unquote: Unquoter)
    requires ProperEntry(e) && i == |e.key| + 2 + |e.afterKey|
    ensures i < |Core(e)| && UnquoteJSON(Trim(Core(e)[..i]), unquote) == Decoded(e.key, unquote)
  {
    assert Core(e)[..i] == "" + Quote(e.key) + e.afterKey;
    TrimPadded("", Quote(e.key), e.afterKey);
    LiteralIsDecoded(e.key, unquote);
  }

  lemma ValueHalf(e: Entry, i: nat, unquote: Unquoter)
    requires ProperEntry(e) && i == |e.key| + 2 + |e.afterKey|
    ensures i < |Core(e)| && UnquoteJSON(Trim(Core(e)[i + 1..]), unquote) == ValueOf(e.value, unquote)
  {
    assert Core(e)[i + 1..] == e.afterColon + Render(e.value) + "";
    ValueIsTrimmed(e.value);
    TrimPadded(e.afterColon, Render(e.value), "");
    ValueIsRead(e.value, unquote);
  }

  lemma HalvesArePair(s: string, i: nat, k: string, v: string, unquote: Unquoter)
    requires i < |s| && ColonAt(s, false, false) == Some(i)
    requires UnquoteJSON(Trim(s[..i]), unquote) == k && UnquoteJSON(Trim(s[i + 1..]), unquote) == v
    ensures PairOf(s, unquote) == Some((k, v))
  {}

  lemma MemberIsRead(e: Entry, unquote: Unquoter)
    requires ProperEntry(e)
    ensures PairOf(Core(e), unquote) == Some(EntryOf(e, unquote))
  {
    var i := |e.key| + 2 + |e.afterKey|;
    CoreColon(e);
    KeyHalf(e, i, unquote);
    ValueHalf(e, i, unquote);
    HalvesArePair(Core(e), i, Decoded(e.key, unquote), ValueOf(e.value, unquote), unquote);
  }

  // ---------- whole objects ----------

  function Entries(es: seq<Entry>, unquote: Unquoter): (r: seq<(string, string)>)
    ensures |r| == |es|
  {
    seq(|es|, i requires 0 <= i < |es| => EntryOf(es[i], unquote))
  }

  lemma EntriesSnoc(es: seq<Entry>, unquote: Unquoter)
    requires es != []
    ensures var n := |es| - 1;
            Entries(es, unquote)[..n] == Entries(es[..n], unquote) && Entries(es, unquote)[n] == EntryOf(es[n], unquote)
  {}

  lemma CollectLast(parts: seq<string>, p: (string, string), unquote: Unquoter)
    requires parts != [] && PairOf(parts[|parts| - 1], unquote) == Some(p)
    ensures Collect(parts, unquote) == Collect(parts[..|parts| - 1], unquote)[p.0 := p.1]
  {}

  lemma {:induction false} MembersAreCollected(es: seq<Entry>, parts: seq<string>, unquote: Unquoter)
    requires |parts| == |es| && forall i :: 0 <= i < |es| ==> ProperEntry(es[i]) && parts[i] == Core(es[i])
    ensures Collect(parts, unquote) == MapOf(Entries(es, unquote))
  {
    if es != [] {
      var n := |es| - 1;
      MembersAreCollected(es[..n], parts[..n], unquote);
      MemberIsRead(es[n], unquote);
      CollectLast(parts, EntryOf(es[n], unquote), unquote);
      EntriesSnoc(es, unquote);
    }
  }

  lemma MembersNotEmpty(es: seq<Entry>)
    requires es != []
    ensures Members(es) != ""
  {
    assert |Members(es)| >= |Member(es[0])| >= |Core(es[0])| > 0;
  }

  /** What `Parse` does with the inside of an object text. */
  lemma ParseInner(before: string, inner: string, after: string, unquote: Unquoter)
    requires inner != "" && AllSpace(before) && AllSpace(after)
    ensures var entries := Collect(Split(inner, false, "", false, 0), unquote);
            Parse(Some(before + ("{" + inner + "}") + after), unquote) == if entries == map[] then NoMapping else Mapping(entries)
  {
    var text := "{" + inner + "}";
    TrimPadded(before, text, after);
    assert text[1..|text| - 1] == inner;
  }

  lemma LastKeyIsIn(ps: seq<(string, string)>)
    requires ps != []
    ensures MapOf(ps) != map[]
  {
    assert ps[|ps| - 1].0 in MapOf(ps);
  }

  lemma MembersAreRead(es: seq<Entry>, unquote: Unquoter)
    requires es != [] && forall i :: 0 <= i < |es| ==> ProperEntry(es[i])
    ensures Collect(Split(Members(es), false, "", false, 0), unquote) == MapOf(Entries(es, unquote)) != map[]
  {
    SplitsIntoMembers(es);
    MembersAreCollected(es, Cores(es), unquote);
    LastKeyIsIn(Entries(es, unquote));
  }

  /**
    Any object whose keys and strings do not end in a backslash is read member by member, whatever the
    spaces, escapes and nesting in it: strings decoded, other values as their text, the last of equal keys winning.
  */
  lemma ObjectIsRead(es: seq<Entry>, before: string, after: string, unquote: Unquoter)
    requires es != [] && (forall i :: 0 <= i < |es| ==> ProperEntry(es[i])) && AllSpace(before) && AllSpace(after)
    ensures Parse(Some(before + ("{" + Members(es) + "}") + after), unquote) == Mapping(MapOf(Entries(es, unquote)))
  {
    MembersNotEmpty(es);
    ParseInner(before, Members(es), after, unquote);
    MembersAreRead(es, unquote);
  }

  // ---------- an object that is not read back ----------

  /** Two members; the value of the first is one backslash, escaped. */
  const MERGED := "\"a\":\"\\\\\",\"b\":\"c\""

  /** From position `i` on, where the quotes seen so far leave the parser inside a string or not, nothing splits. */
  ghost predicate Unsplit(s: string, i: nat, inString: bool) {
    i <= |s| && SplitFrom(s, i, 0, inString, 0) == [s]
  }

  lemma UnsplitBefore(s: string, i: nat, inString: bool)
    requires i < |s| && s[i] !in {'{', '}', '[', ']'}
    requires var quoted := ToggledAt(s[i], i > 0 && s[i - 1] == '\\', inString);
             (quoted || s[i] != ',') && Unsplit(s, i + 1, quoted)
    ensures Unsplit(s, i, inString)
  {
    SplitFromStep(s, i, 0, inString, 0);
  }

  ghost predicate IsMerged(s: string) {
    && |s| == 16 && s[0] == s[2] == s[4] == s[7] == s[9] == s[11] == s[13] == s[15] == '"'
    && s[1] == 'a' && s[3] == ':' && s[5] == s[6] == '\\' && s[8] == ',' && s[10] == 'b' && s[12] == ':' && s[14] == 'c'
  }

  lemma UnsplitEnd(s: string)
    requires IsMerged(s)
    ensures Unsplit(s, 16, true)
  {
    assert Trim(s) == s;
    assert s[0..16] == s && s[16..] == "";
  }

  lemma UnsplitFromComma(s: string)
    requires IsMerged(s)
    ensures Unsplit(s, 8, true)
  {
    UnsplitEnd(s);
    UnsplitBefore(s, 15, false);
    UnsplitBefore(s, 14, false);
    UnsplitBefore(s, 13, true);
    UnsplitBefore(s, 12, true);
    UnsplitBefore(s, 11, false);
    UnsplitBefore(s, 10, false);
    UnsplitBefore(s, 9, true);
    UnsplitBefore(s, 8, true);
  }

  lemma UnsplitFromStart(s: string)
    requires IsMerged(s)
    ensures Split(s, false, "", false, 0) == [s]
  {
    UnsplitFromComma(s);
    UnsplitBefore(s, 7, true);
    UnsplitBefore(s, 6, true);
    UnsplitBefore(s, 5, true);
    UnsplitBefore(s, 4, false);
    UnsplitBefore(s, 3, false);
    UnsplitBefore(s, 2, true);
    UnsplitBefore(s, 1, true);
    UnsplitBefore(s, 0, false);
    assert s[0..] == s && s[0..0] == "";
  }

  lemma MergedIsRead(s: string, unquote: Unquoter)
    requires IsMerged(s) && unquote(s[..3]) == Some("a") && unquote(s[4..]) == None
    ensures Collect([s], unquote) == map["a" := s[4..]]
  {
    ColonAfterLiteral("a", false, s[3..]);
    assert s[1..] == "a" + ['"'] + s[3..];
    assert ColonAt(s, false, false) == Some(3);
    assert Trim(s[..3]) == s[..3] && Trim(s[4..]) == s[4..];
  }

  lemma ParsePlainObject(inner: string, key: string, value: string, unquote: Unquoter)
    requires inner != "" && Collect(Split(inner, false, "", false, 0), unquote) == map[key := value]
    ensures Parse(Some("{" + inner + "}"), unquote) == Mapping(map[key := value])
  {
    ParseInner("", inner, "", unquote);
    assert "" + ("{" + inner + "}") + "" == "{" + inner + "}";
    assert key in map[key := value];
  }

  lemma MergedObjectIsRead(s: string, unquote: Unquoter)
    requires IsMerged(s) && unquote(s[..3]) == Some("a") && unquote(s[4..]) == None
    ensures Parse(Some("{" + s + "}"), unquote) == Mapping(map["a" := s[4..]])
  {
    UnsplitFromStart(s);
    MergedIsRead(s, unquote);
    ParsePlainObject(s, "a", s[4..], unquote);
  }

  /**
    The comma after an escaped backslash is taken for a part of the string: of these two members the
    parser makes one, whose value is the rest of the text.
  */
  lemma BackslashMergesMembers(unquote: Unquoter)
    requires unquote("\"a\"") == Some("a") && unquote("\"\\\\\",\"b\":\"c\"") == None
    ensures Parse(Some("{" + MERGED + "}"), unquote) == Mapping(map["a" := "\"\\\\\",\"b\":\"c\""])
  {
    assert MERGED[..3] == "\"a\"" && MERGED[4..] == "\"\\\\\",\"b\":\"c\"";
    MergedObjectIsRead(MERGED, unquote);
  }
}
