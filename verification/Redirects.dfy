/** The per-account model redirect registry (`routing/redirects.go`). */
module Redirects {
  // With its two consumers in `routing/matcher.go`: channel eligibility (reverse index) and the forwarded name
  // (forward index).
  import opened Seqs
  import opened Text
  import Glob

  type Entries = map<string, string>

  // ---------------------------------------------------------------- meaning of the two indexes

  /** The usable entries of one account: both names present. */
  function Usable(entries: Entries): Entries {
    map c | c in entries && c != "" && entries[c] != "" :: entries[c]
  }

  predicate AtMost(a: string, b: string) {
    a == b || Less(a, b)
  }

  /** `rev` sends each actual name to the smallest of its canonical names, and knows no other name. */
  ghost predicate IsReverse(fwd: Entries, rev: Entries) {
    && (forall c :: c in fwd ==> fwd[c] in rev && AtMost(rev[fwd[c]], c))
    && (forall a :: a in rev ==> rev[a] in fwd && fwd[rev[a]] == a)
  }

  ghost predicate Indexes(byAccount: map<int, Entries>, forward: map<int, Entries>, reverse: map<int, Entries>) {
    && forward.Keys == reverse.Keys
    && (forall id :: id in forward <==> id in byAccount && Usable(byAccount[id]) != map[])
    && (forall id :: id in forward ==> forward[id] == Usable(byAccount[id]) && IsReverse(forward[id], reverse[id]))
  }

  // ---------------------------------------------------------------- sorting the canonical names

  ghost predicate Ascending(s: seq<string>) {
    forall i, j :: 0 <= i < j < |s| ==> Less(s[i], s[j])
  }

  function Insert(s: seq<string>, x: string): (r: seq<string>)
    ensures forall y :: y in r <==> y in s || y == x
  {
    if s == [] then [x]
    else if Less(x, s[0]) then [x] + s
    else
      assert s == [s[0]] + s[1..];
      [s[0]] + Insert(s[1..], x)
  }

  lemma {:induction false} InsertAscends(s: seq<string>, x: string)
    requires Ascending(s) && x !in s
    ensures Ascending(Insert(s, x))
  {
    if s != [] {
      if Less(x, s[0]) {
        forall i | 0 < i < |s| ensures Less(x, s[i]) {
          LessTransitive(x, s[0], s[i]);
        }
      } else {
        LessTotal(x, s[0]);
        InsertAscends(s[1..], x);
        assert forall y :: y in s[1..] ==> Less(s[0], y);
        assert forall y :: y in Insert(s[1..], x) ==> Less(s[0], y);
      }
    }
  }

  /** `sort.Strings` over distinct names. */
  method SortStrings(names: set<string>) returns (sorted: seq<string>)
    ensures Ascending(sorted)
    ensures forall x :: x in sorted <==> x in names
  {
    sorted := [];
    var rest := names;
    while rest != {}
      invariant rest <= names && Ascending(sorted)
      invariant forall x :: x in sorted <==> x in names - rest
      decreases rest
    {
      var x :| x in rest;
      InsertAscends(sorted, x);
      sorted := Insert(sorted, x);
      rest := rest - {x};
    }
  }

  /** Both indexes of one account, filled in ascending order of canonical names. */
  method IndexAccount(entries: Entries) returns (fwd: Entries, rev: Entries)
    ensures fwd == Usable(entries) && IsReverse(fwd, rev)
  {
    var canonicals := SortStrings(set c | c in entries && c != "" && entries[c] != "");
    fwd, rev := map[], map[];
    for i := 0 to |canonicals|
      invariant forall c :: c in fwd <==> c in canonicals[..i]
      invariant forall c :: c in fwd ==> c in entries && fwd[c] == entries[c]
      invariant IsReverse(fwd, rev)
    {
      var canonical := canonicals[i];
      assert canonical in canonicals;
      assert canonicals[..i + 1] == canonicals[..i] + [canonical];
      assert forall c :: c in canonicals[..i] ==> Less(c, canonical);
      LessTotal(canonical, canonical);
      var actual := entries[canonical];
      fwd := fwd[canonical := actual];
      if actual !in rev {
        rev := rev[actual := canonical];
      }
    }
    assert canonicals[..|canonicals|] == canonicals;
  }

  // ---------------------------------------------------------------- the registry

  class RedirectRegistry {
    var forward: map<int, Entries>
    var reverse: map<int, Entries>

    constructor ()
      ensures Indexes(map[], forward, reverse)
    {
      forward, reverse := map[], map[];
    }

    method SetModelRedirects(byAccount: map<int, Entries>)
      modifies this
      ensures Indexes(byAccount, forward, reverse)
    {
      var normalized: map<int, Entries>, reversed: map<int, Entries> := map[], map[];
      var rest := byAccount.Keys;
      while rest != {}
        invariant rest <= byAccount.Keys
        invariant Indexes(byAccount - rest, normalized, reversed)
        decreases rest
      {
        ghost var someID := Inhabited(rest);
        var accountID :| accountID in rest;
        var fwd, rev := IndexAccount(byAccount[accountID]);
        if fwd != map[] {
          normalized, reversed := normalized[accountID := fwd], reversed[accountID := rev];
        }
        rest := rest - {accountID};
      }
      assert byAccount - rest == byAccount;
      forward, reverse := normalized, reversed;
    }

    function ModelRedirectActual(accountID: int, canonical: string): string
      reads this
    {
      Lookup(forward, accountID, canonical)
    }

    function ModelRedirectCanonical(accountID: int, actual: string): string
      reads this
    {
      Lookup(reverse, accountID, actual)
    }
  }

  /** A missing account or name reads as the empty name. */
  function Lookup(index: map<int, Entries>, accountID: int, name: string): string {
    if accountID in index && name in index[accountID] then index[accountID][name] else ""
  }

  // ---------------------------------------------------------------- theorems on the indexes

  /** Lookups depend on the input map alone, never on an iteration order. */
  lemma LookupsUnique(byAccount: map<int, Entries>, f: map<int, Entries>, r: map<int, Entries>,
                      f': map<int, Entries>, r': map<int, Entries>, id: int, name: string)
    requires Indexes(byAccount, f, r) && Indexes(byAccount, f', r')
    ensures Lookup(f, id, name) == Lookup(f', id, name)
    ensures Lookup(r, id, name) == Lookup(r', id, name)
  {
    ForwardUnique(byAccount, f, r, f', r', id, name);
    if id in f {
      assert IsReverse(f[id], r[id]) && IsReverse(f[id], r'[id]);
      ReverseUniqueAt(f[id], r[id], r'[id], name);
    }
  }

  lemma ForwardUnique(byAccount: map<int, Entries>, f: map<int, Entries>, r: map<int, Entries>,
                      f': map<int, Entries>, r': map<int, Entries>, id: int, name: string)
    requires Indexes(byAccount, f, r) && Indexes(byAccount, f', r')
    ensures id in f <==> id in f'
    ensures id in f ==> f[id] == f'[id]
    ensures Lookup(f, id, name) == Lookup(f', id, name)
  {}

  lemma ReverseUniqueAt(fwd: Entries, rev: Entries, rev': Entries, a: string)
    requires IsReverse(fwd, rev) && IsReverse(fwd, rev')
    ensures a in rev <==> a in rev'
    ensures a in rev ==> rev[a] == rev'[a]
  {
    ReverseUnique(fwd, rev, rev');
  }

  lemma ReverseUnique(fwd: Entries, rev: Entries, rev': Entries)
    requires IsReverse(fwd, rev) && IsReverse(fwd, rev')
    ensures rev == rev'
  {
    forall a | a in rev ensures a in rev' && rev[a] == rev'[a] {
      assert fwd[rev[a]] == a && fwd[rev'[a]] == a;
      LessTotal(rev[a], rev'[a]);
    }
    forall a | a in rev' ensures a in rev {
      assert fwd[rev'[a]] == a;
    }
  }

  /**
    Reverse lookup answers exactly when some usable entry has that actual name, and then with the
    smallest such canonical name, which looks forward to the actual name again.
  */
  lemma LookupsAgree(byAccount: map<int, Entries>, f: map<int, Entries>, r: map<int, Entries>, id: int, actual: string)
    requires Indexes(byAccount, f, r) && actual != ""
    ensures Lookup(r, id, actual) != "" <==> exists c :: c != "" && id in byAccount && c in byAccount[id] && byAccount[id][c] == actual
    ensures Lookup(r, id, actual) != "" ==> Lookup(f, id, Lookup(r, id, actual)) == actual
    ensures forall c :: c != "" && id in byAccount && c in byAccount[id] && byAccount[id][c] == actual ==>
      AtMost(Lookup(r, id, actual), c)
  {
    forall c | c != "" && id in byAccount && c in byAccount[id] && byAccount[id][c] == actual
      ensures Lookup(r, id, actual) != "" && AtMost(Lookup(r, id, actual), c)
    {
      assert c in Usable(byAccount[id]);
      assert f[id][c] == actual && r[id][actual] in f[id];
    }
  }

  // ---------------------------------------------------------------- eligibility and forwarding

  function {:tailrecursion} LastSlash(s: string, i: nat): int
    requires i <= |s|
  {
    if i == 0 then -1 else if s[i - 1] == '/' then i - 1 else LastSlash(s, i - 1)
  }

  /** Lower-cased name without its vendor prefix; `lower` is `strings.ToLower`. */
  function NormalizeModelAlias(name: string, lower: string -> string): string {
    var normalized := lower(Trim(name));
    var slash := LastSlash(normalized, |normalized|);
    if 0 <= slash < |normalized| - 1 then normalized[slash + 1..] else normalized
  }

  function ChannelSupports(source: Option<string>, requested: string, lower: string -> string, regex: Glob.Regex): bool {
    if source.None? then true
    else
      var s := Trim(source.value);
      || s == "" || s == requested
      || (NormalizeModelAlias(s, lower) != "" && NormalizeModelAlias(s, lower) == NormalizeModelAlias(requested, lower))
      || Glob.MatchesModelPattern(requested, s, regex)
  }

  function ChannelSupportsWithRedirects(reverse: map<int, Entries>, source: Option<string>, requested: string,
                                        accountID: int, lower: string -> string, regex: Glob.Regex): bool
  {
    if ChannelSupports(source, requested, lower, regex) then true
    else if source.None? || Trim(source.value) == "" then false
    else
      var canonical := Lookup(reverse, accountID, Trim(source.value));
      canonical != "" && canonical == requested
  }

  function ResolveActualModel(forward: map<int, Entries>, requested: string, displayName: Option<string>,
                              mapped: string, source: Option<string>, accountID: int): string
  {
    var sourceModel := if source.None? then "" else Trim(source.value);
    var alias := if displayName.None? then "" else Trim(displayName.value);
    if alias != "" && alias == requested && sourceModel != "" then sourceModel
    else if mapped == requested && Lookup(forward, accountID, requested) != "" then Lookup(forward, accountID, requested)
    else mapped
  }

  /**
    A channel that only the redirect makes eligible is forwarded its own source model, unless a
    route mapping rewrote the name.
  */
  lemma RedirectedChannelGetsItsOwnModel(byAccount: map<int, Entries>, f: map<int, Entries>, r: map<int, Entries>,
                                         requested: string, displayName: Option<string>, source: Option<string>,
                                         accountID: int, lower: string -> string, regex: Glob.Regex)
    requires Indexes(byAccount, f, r)
    requires ChannelSupportsWithRedirects(r, source, requested, accountID, lower, regex)
    requires !ChannelSupports(source, requested, lower, regex)
    ensures source.Some?
    ensures ResolveActualModel(f, requested, displayName, requested, source, accountID) == Trim(source.value)
  {
    LookupsAgree(byAccount, f, r, accountID, Trim(source.value));
  }

  // ---------------------------------------------------------------- the answers in the input map

  /** The actual name that the input map gives a canonical one; blank names do not count. */
  ghost predicate Redirects(byAccount: map<int, Entries>, id: int, canonical: string, actual: string) {
    canonical != "" && actual != "" && id in byAccount && canonical in byAccount[id] && byAccount[id][canonical] == actual
  }

  /** "At most" is the order of names: equal, or before it in the lexicographic order. */
  lemma AtMostIsLexicographic(a: string, b: string)
    ensures AtMost(a, b) <==> a == b || exists k :: Precedes(a, b, k)
  {
    LessIffPrecedes(a, b);
  }

  /** Forward lookup is the input map, reverse lookup the smallest of its canonical names. */
  lemma LookupsAreTheInput(byAccount: map<int, Entries>, f: map<int, Entries>, r: map<int, Entries>, id: int, name: string, other: string)
    requires Indexes(byAccount, f, r) && name != "" && other != ""
    ensures Lookup(f, id, name) == other <==> Redirects(byAccount, id, name, other)
    ensures Lookup(r, id, name) == other <==>
            Redirects(byAccount, id, other, name) &&
            forall c :: Redirects(byAccount, id, c, name) ==> AtMost(other, c)
  {
    if id in byAccount {
      assert name in Usable(byAccount[id]) <==> name in byAccount[id] && byAccount[id][name] != "";
    }
    LookupsAgree(byAccount, f, r, id, name);
    if Redirects(byAccount, id, other, name) && forall c :: Redirects(byAccount, id, c, name) ==> AtMost(other, c) {
      SmallestIsReverse(byAccount, f, r, id, name, other);
    }
  }

  lemma SmallestIsReverse(byAccount: map<int, Entries>, f: map<int, Entries>, r: map<int, Entries>, id: int, actual: string, least: string)
    requires Indexes(byAccount, f, r) && Redirects(byAccount, id, least, actual)
    requires forall c :: Redirects(byAccount, id, c, actual) ==> AtMost(least, c)
    ensures Lookup(r, id, actual) == least
  {
    assert least in Usable(byAccount[id]);
    assert f[id][least] == actual;
    var found := r[id][actual];
    assert f[id][found] == actual && found in Usable(byAccount[id]);
    assert Redirects(byAccount, id, found, actual);
    LessTotal(found, least);
  }

  /**
    The forwarded name: the channel's own model behind a display name, else the account's redirect
    of a name that no route mapping rewrote, else the mapped name.
  */
  lemma ForwardedName(byAccount: map<int, Entries>, f: map<int, Entries>, r: map<int, Entries>, requested: string,
                      displayName: Option<string>, mapped: string, source: Option<string>, id: int, actual: string)
    requires Indexes(byAccount, f, r) && requested != ""
    ensures var forwarded := ResolveActualModel(f, requested, displayName, mapped, source, id);
            var behindDisplay := displayName.Some? && Trim(displayName.value) == requested && source.Some? && !AllSpace(source.value);
            && (behindDisplay ==> forwarded == Trim(source.value))
            && (!behindDisplay && mapped == requested && Redirects(byAccount, id, requested, actual) ==> forwarded == actual)
            && (!behindDisplay && (mapped != requested || forall a :: !Redirects(byAccount, id, requested, a)) ==> forwarded == mapped)
  {
    if source.Some? {
      TrimEmptyIff(source.value);
    }
    var found := Lookup(f, id, requested);
    if found != "" {
      LookupsAreTheInput(byAccount, f, r, id, requested, found);
    }
    if actual != "" {
      LookupsAreTheInput(byAccount, f, r, id, requested, actual);
    }
  }

  lemma {:induction false} LastSlashIs(s: string, i: nat)
    requires i <= |s|
    ensures -1 <= LastSlash(s, i) < i
    ensures LastSlash(s, i) >= 0 ==> s[LastSlash(s, i)] == '/'
    ensures forall k :: LastSlash(s, i) < k < i ==> s[k] != '/'
  {
    if i > 0 && s[i - 1] != '/' {
      LastSlashIs(s, i - 1);
    }
  }

  /** An alias is the lower-cased name behind its last slash, or all of it when nothing is behind one. */
  lemma AliasDropsTheVendor(name: string, lower: string -> string, vendor: string, model: string)
    requires '/' !in model && model != ""
    ensures lower(Trim(name)) == vendor + "/" + model ==> NormalizeModelAlias(name, lower) == model
    ensures lower(Trim(name)) == model ==> NormalizeModelAlias(name, lower) == model
    ensures lower(Trim(name)) == vendor + "/" ==> NormalizeModelAlias(name, lower) == vendor + "/"
  {
    var n := lower(Trim(name));
    LastSlashIs(n, |n|);
    if n == vendor + "/" + model {
      assert n[|vendor|] == '/' && n[|vendor| + 1..] == model;
      assert forall k :: |vendor| < k < |n| ==> n[k] == model[k - |vendor| - 1];
    }
    if n == vendor + "/" {
      assert n[|n| - 1] == '/';
    }
  }

  /**
    A channel serves a name without a source model of its own, by its source model's name, alias or
    pattern, or when the name is the smallest one that its account redirects to that source model.
  */
  lemma ChannelServesIff(byAccount: map<int, Entries>, f: map<int, Entries>, r: map<int, Entries>, source: Option<string>,
                         requested: string, id: int, lower: string -> string, regex: Glob.Regex)
    requires Indexes(byAccount, f, r)
    ensures ChannelSupportsWithRedirects(r, source, requested, id, lower, regex) <==>
            || source.None? || AllSpace(source.value) || Trim(source.value) == requested
            || (NormalizeModelAlias(Trim(source.value), lower) == NormalizeModelAlias(requested, lower) != "")
            || Glob.MatchesModelPattern(requested, Trim(source.value), regex)
            || (Redirects(byAccount, id, requested, Trim(source.value)) &&
                forall c :: Redirects(byAccount, id, c, Trim(source.value)) ==> AtMost(requested, c))
  {
    if source.Some? {
      var s := Trim(source.value);
      TrimEmptyIff(source.value);
      if s != "" && requested != "" {
        LookupsAreTheInput(byAccount, f, r, id, s, requested);
      }
    }
  }
}
