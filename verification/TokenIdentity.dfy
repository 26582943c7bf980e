/** Which displayed keys a deletion takes for the same credential (`platform/newapi_tokens.go`). */
module TokenIdentity {
  // A credential is named by its bare key. The theorems restate what a deletion does in bare keys and
  // in the ways to show them, without the comparison that the adapter makes.
  import opened Seqs
  import opened Text
  import opened TokenListing
  import opened TokenHydration
  import opened TokenDelete

  /** As New API stores it: trimmed, not empty, and with neither display prefix. */
  ghost predicate Bare(k: string) {
    k != "" && !IsSpace(k[0]) && !IsSpace(k[|k| - 1]) && !HasPrefix(k, "sk-") && !HasPrefix(k, "Bearer ")
  }

  /** `s` shows the key `k`: bare or behind `sk-`, and that on its own or behind `Bearer `. */
  ghost predicate Shows(s: string, k: string) {
    var t := Trim(s);
    t == k || t == "sk-" + k || (HasPrefix(t, "Bearer ") && (Trim(t[7..]) == k || Trim(t[7..]) == "sk-" + k))
  }

  lemma PrefixOfPrefixed(p: string, k: string, q: string)
    requires |q| <= |p|
    ensures HasPrefix(p + k, q) <==> p[..|q|] == q
    ensures TrimPrefix(p + k, p) == k
  {
    assert (p + k)[..|q|] == p[..|q|];
    assert (p + k)[..|p|] == p;
  }

  lemma ShownTrims(k: string)
    requires Bare(k)
    ensures Trim(k) == k && Trim("sk-" + k) == "sk-" + k
    ensures Trim("Bearer " + k) == "Bearer " + k && Trim("Bearer sk-" + k) == "Bearer sk-" + k
  {}

  /** What the comparison reads of `t`, a trimmed text. */
  lemma IdentityOfTrimmed(s: string, t: string, core: string)
    requires t == Trim(s) && core == if HasPrefix(t, "Bearer ") then Trim(t[7..]) else t
    ensures Identity(s) == TrimPrefix(core, "sk-")
  {
    TrimTwice(s);
  }

  lemma PrefixedIs(core: string, k: string)
    requires !HasPrefix(k, "sk-")
    ensures TrimPrefix(core, "sk-") == k <==> core == k || core == "sk-" + k
  {
    if HasPrefix(core, "sk-") {
      assert core == "sk-" + core[3..];
    }
    PrefixOfPrefixed("sk-", k, "sk-");
  }

  lemma ShownIsNoBearer(k: string)
    requires Bare(k)
    ensures !HasPrefix(k, "Bearer ") && !HasPrefix("sk-" + k, "Bearer ")
  {
    assert ("sk-" + k)[0] == 's' && "Bearer "[0] == 'B';
  }

  /** The adapter takes a text for the credential `k` exactly when the text shows `k`. */
  lemma IdentityExactIff(s: string, k: string)
    requires Bare(k)
    ensures Identity(s) == k <==> Shows(s, k)
  {
    var t := Trim(s);
    var core := if HasPrefix(t, "Bearer ") then Trim(t[7..]) else t;
    IdentityOfTrimmed(s, t, core);
    PrefixedIs(core, k);
    ShownIsNoBearer(k);
  }

  /** The four ways to show a bare key; none of them shows another bare key. */
  lemma DisplaysShowOneKey(k: string, other: string, s: string)
    requires Bare(k) && Bare(other) && k != other
    requires s == k || s == "sk-" + k || s == "Bearer " + k || s == "Bearer sk-" + k
    ensures Shows(s, k) && !Shows(s, other) && Identity(s) == k && Normalize(s) != ""
  {
    ShownTrims(k);
    PrefixOfPrefixed("Bearer ", k, "Bearer ");
    PrefixOfPrefixed("Bearer ", "sk-" + k, "Bearer ");
    assert "Bearer sk-" + k == "Bearer " + ("sk-" + k);
    IdentityExactIff(s, k);
    IdentityExactIff(s, other);
  }

  // ---------- deletions in bare keys ----------

  /** A listed token with this id whose real key shows `k`. */
  ghost predicate ListsKey(t: Transport, id: int, k: string) {
    !Fetch(t.up).Failed? && exists i, key :: OwnsAt(t, Fetch(t.up).items, i, key, id) && Shows(key, k)
  }

  /** A complete listing in which no real key shows `k`. */
  ghost predicate LacksKey(t: Transport, k: string) {
    Fetch(t.up).Complete? && forall i :: 0 <= i < |Fetch(t.up).items| ==> OtherKeyAt(t, Fetch(t.up).items, i, k)
  }

  ghost predicate OtherKeyAt(t: Transport, items: seq<Item>, i: int, k: string)
    requires 0 <= i < |items|
  {
    exists key :: KeyOf(t, items, items[i], key) && !Shows(key, k)
  }

  lemma OwnsListsKey(t: Transport, id: int, k: string)
    requires Bare(k) && Owns(t, id, k, Identities())
    ensures ListsKey(t, id, k)
  {
    var items := Fetch(t.up).items;
    var i, key :| OwnsAt(t, items, i, key, id) && Identities()(items[i].(key := Some(key))) == k;
    IdentityExactIff(key, k);
  }

  lemma AbsentLacksKey(t: Transport, k: string)
    requires Bare(k) && ProvenAbsent(t, k, Identities())
    ensures LacksKey(t, k)
  {
    var items := Fetch(t.up).items;
    forall i | 0 <= i < |items| ensures OtherKeyAt(t, items, i, k) {
      var key :| KeyOf(t, items, items[i], key) && Identities()(items[i].(key := Some(key))) != k;
      IdentityExactIff(key, k);
    }
  }

  /**
    Against every upstream behaviour, deleting any text that shows the bare key `k` sends at most one
    DELETE, for a listed token whose real key shows `k`, and succeeds without one only when a complete
    listing has no real key that shows `k`.
  */
  lemma DeletionReachesOnlyItsKey(ts: seq<Transport>, tokenKey: string, k: string)
    requires Bare(k) && Shows(tokenKey, k)
    ensures var (sent, outcome) := Deletion(ts, tokenKey);
            && |sent| <= 1
            && (forall s :: s in sent ==> s.transport < |ts| && ListsKey(ts[s.transport], s.id, k))
            && (sent == [] && outcome == Succeeded ==> exists n :: 0 <= n < |ts| && LacksKey(ts[n], k))
  {
    var (sent, outcome) := Deletion(ts, tokenKey);
    IdentityExactIff(tokenKey, k);
    DeletionIsJustified(ts, tokenKey);
    forall s | s in sent ensures s.transport < |ts| && ListsKey(ts[s.transport], s.id, k) {
      OwnsListsKey(ts[s.transport], s.id, k);
    }
    if sent == [] && outcome == Succeeded {
      ShownIsNotBlank(tokenKey, k);
      var n :| 0 <= n < |ts| && ProvenAbsent(ts[n], k, Identities());
      AbsentLacksKey(ts[n], k);
    }
  }

  lemma ShownIsNotBlank(s: string, k: string)
    requires Bare(k) && Shows(s, k)
    ensures Normalize(s) != ""
  {
    IdentityExactIff(s, k);
  }

  /**
    A listed key is deleted however it is shown: when the transports before the `n`-th never answer and
    its listed items can be searched, the first item whose real key shows `k` has its DELETE sent.
  */
  lemma ShownKeyIsDeleted(ts: seq<Transport>, tokenKey: string, k: string, n: nat, after: seq<Item>, i: nat)
    requires Bare(k) && Shows(tokenKey, k)
    requires n < |ts| && forall j :: 0 <= j < n ==> ts[j].up.pages(1).Unreachable?
    requires Searchable(ts[n], after, TrimmedKeys()) && i < |after| && IDValue(after[i]) > 0
    requires after[i].key.Some? && Shows(after[i].key.value, k)
    requires forall j :: 0 <= j < i ==> after[j].key.Some? && !Shows(after[j].key.value, k)
    ensures Deletion(ts, tokenKey).0 == [Sent(n, IDValue(after[i]))]
    ensures Deletion(ts, tokenKey).1 == if ts[n].deletes(IDValue(after[i])) then Succeeded else FailedWith(false)
  {
    IdentityExactIff(tokenKey, k);
    ShownIsNotBlank(tokenKey, k);
    IdentityExactIff(after[i].key.value, k);
    forall j | 0 <= j < i ensures Identities()(after[j]) != k {
      IdentityExactIff(after[j].key.value, k);
    }
    ListedTargetIsDeleted(ts, tokenKey, n, after, i);
  }

  lemma BlankIffSpaces(s: string)
    ensures Normalize(s) == "" <==> AllSpace(s)
  {
    var t := Trim(s);
    TrimEmptyIff(s);
    if t != "" && HasPrefix(t, "Bearer ") {
      assert !IsSpace(t[|t| - 1]) && IsSpace(t[6]);
      assert t[7..][|t| - 8] == t[|t| - 1];
      TrimEmptyIff(t[7..]);
    } else {
      TrimTwice(s);
    }
  }

  /**
    What a deletion answers: a sent DELETE decides; without one a blank key is success, and an upstream
    that nobody reached, or whose listing decides nothing, is a failure of the listing.
  */
  lemma DeletionOutcome(ts: seq<Transport>, tokenKey: string)
    ensures var (sent, outcome) := Deletion(ts, tokenKey);
            && (sent != [] ==> sent[0].transport < |ts|)
            && (sent != [] ==> outcome == if ts[sent[0].transport].deletes(sent[0].id) then Succeeded else FailedWith(false))
            && (sent == [] ==> outcome == Succeeded || outcome == FailedWith(true))
    ensures AllSpace(tokenKey) ==> Deletion(ts, tokenKey) == ([], Succeeded)
    ensures !AllSpace(tokenKey) && (forall j :: 0 <= j < |ts| ==> ts[j].up.pages(1).Unreachable?) ==>
              Deletion(ts, tokenKey) == ([], FailedWith(true))
  {
    BlankIffSpaces(tokenKey);
    forall j | 0 <= j < |ts| ensures Resolve(ts[j], Identity(tokenKey)) == Unresolved(false) <==> ts[j].up.pages(1).Unreachable? {
      UnansweredIff(ts[j], Identity(tokenKey));
    }
  }
}
