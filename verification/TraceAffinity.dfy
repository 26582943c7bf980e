/** Trace affinity (`routing/key_policy.go`). */
module TraceAffinity {
  // A bounded, expiring memory of the channel that last served a scope. Ties for the oldest entry are broken by
  // map iteration order, so eviction is a relation rather than a function.
  import opened Seqs

  const TTL_MS := 1_800_000
  const CAPACITY := 4096

  datatype Entry = Entry(channelID: int, directID: int, at: int)

  type Entries = map<string, Entry>

  predicate Fresh(e: Entry, now: int) { now - e.at < TTL_MS }

  // ---------------------------------------------------------------- steps

  function Live(m: Entries, now: int): Entries {
    map k | k in m && Fresh(m[k], now) :: m[k]
  }

  ghost predicate IsOldest(m: Entries, key: string) {
    key in m && forall k :: k in m ==> m[key].at <= m[k].at
  }

  /** The memory after the expired entries and, when full, one oldest entry made room for the new one. */
  ghost predicate Remembered(m: Entries, key: string, e: Entry, now: int, r: Entries) {
    var live := Live(m, now);
    if key == "" then r == m
    else if |live| >= CAPACITY then exists victim :: IsOldest(live, victim) && r == (live - {victim})[key := e.(at := now)]
    else r == live[key := e.(at := now)]
  }

  function Got(m: Entries, key: string, now: int): (Entries, Option<Entry>) {
    if key == "" then (m, None)
    else if key in m && Fresh(m[key], now) then (m, Some(m[key]))
    else (m - {key}, None)
  }

  function Failed(m: Entries, key: string, channelID: int): Entries {
    if key != "" && key in m && m[key].channelID == channelID then m - {key} else m
  }

  class Affinity {
    var entries: Entries

    ghost predicate Valid()
      reads this
    {
      "" !in entries && |entries| <= CAPACITY
    }

    constructor ()
      ensures Valid() && entries == map[]
    {
      entries := map[];
    }

    /** None stands for the zero entry. */
    method Get(key: string, now: int) returns (e: Option<Entry>)
      requires Valid()
      modifies this
      ensures Valid() && (entries, e) == Got(old(entries), key, now)
    {
      if key == "" {
        return None;
      }
      if key !in entries || now - entries[key].at >= TTL_MS {
        KeysSize(entries);
        SubsetSize((entries - {key}).Keys, entries.Keys);
        entries := entries - {key};
        return None;
      }
      e := Some(entries[key]);
    }

    method Remember(key: string, entry: Entry, now: int)
      requires Valid()
      modifies this
      ensures Valid() && Remembered(old(entries), key, entry, now, entries)
    {
      RememberedStaysBounded(entries, key, entry, now);
      if key == "" {
        return;
      }
      DropExpired(now);
      if |entries| >= CAPACITY {
        var oldest := FindOldest();
        entries := entries - {oldest};
      }
      entries := entries[key := entry.(at := now)];
    }

    method DropExpired(now: int)
      modifies this
      ensures entries == Live(old(entries), now)
    {
      var rest := entries.Keys;
      while rest != {}
        invariant rest <= old(entries).Keys
        invariant entries == map k | k in old(entries) && (k in rest || Fresh(old(entries)[k], now)) :: old(entries)[k]
        decreases rest
      {
        var k :| k in rest;
        if now - entries[k].at >= TTL_MS {
          entries := entries - {k};
        }
        rest := rest - {k};
      }
    }

    method FindOldest() returns (oldestKey: string)
      requires "" !in entries && |entries| > 0
      ensures IsOldest(entries, oldestKey)
    {
      oldestKey := "";
      var oldest := 0;
      var rest := entries.Keys;
      while rest != {}
        invariant rest <= entries.Keys
        invariant oldestKey == "" ==> rest == entries.Keys
        invariant oldestKey != "" ==> oldestKey in entries && oldest == entries[oldestKey].at
        invariant oldestKey != "" ==> forall k :: k in entries && k !in rest ==> oldest <= entries[k].at
        decreases rest
      {
        var k :| k in rest;
        if oldestKey == "" || entries[k].at < oldest {
          oldestKey, oldest := k, entries[k].at;
        }
        rest := rest - {k};
      }
    }

    method RecordFailed(key: string, channelID: int)
      requires Valid()
      modifies this
      ensures Valid() && entries == Failed(old(entries), key, channelID)
    {
      if key == "" {
        return;
      }
      if key in entries && entries[key].channelID == channelID {
        KeysSize(entries);
        SubsetSize((entries - {key}).Keys, entries.Keys);
        entries := entries - {key};
      }
    }
  }

  lemma RememberedStaysBounded(m: Entries, key: string, e: Entry, now: int)
    requires "" !in m && |m| <= CAPACITY
    ensures forall r :: Remembered(m, key, e, now, r) ==> "" !in r && |r| <= CAPACITY
  {
    forall r | Remembered(m, key, e, now, r) ensures "" !in r && |r| <= CAPACITY {
      var live := Live(m, now);
      SubsetSize(live.Keys, m.Keys);
      KeysSize(live);
      KeysSize(m);
      if key != "" && |live| >= CAPACITY {
        var victim :| IsOldest(live, victim) && r == (live - {victim})[key := e.(at := now)];
        assert r.Keys == (live.Keys - {victim}) + {key};
      } else if key != "" {
        assert r.Keys == live.Keys + {key};
      }
    }
  }

  /**
    Storing a scope drops another unexpired one only under pressure: at least CAPACITY unexpired
    entries, of which it is an oldest, and then it is the only one dropped.
  */
  lemma EvictsOnlyOldestUnderPressure(m: Entries, key: string, e: Entry, now: int, r: Entries, k: string)
    requires Remembered(m, key, e, now, r) && key != "" && k != key && k in m && Fresh(m[k], now)
    ensures k in r ==> r[k] == m[k]
    ensures k !in r ==> |Live(m, now)| >= CAPACITY && IsOldest(Live(m, now), k)
    ensures k !in r ==> forall other :: other in m && Fresh(m[other], now) && other != k && other != key ==> other in r
  {}

  // ---------------------------------------------------------------- runs

  datatype Op = Remember(key: string, entry: Entry, now: int) | Get(key: string, now: int) | Fail(key: string, channelID: int)

  ghost predicate Step(m: Entries, op: Op, r: Entries) {
    match op
    case Remember(key, entry, now) => Remembered(m, key, entry, now, r)
    case Get(key, now) => r == Got(m, key, now).0
    case Fail(key, channelID) => r == Failed(m, key, channelID)
  }

  /** The states `ms` are one behaviour of the operations `ops`, from the empty memory. */
  ghost predicate Behavior(ops: seq<Op>, ms: seq<Entries>) {
    && |ms| == |ops| + 1 && ms[0] == map[]
    && forall i :: 0 <= i < |ops| ==> Step(ms[i], ops[i], ms[i + 1])
  }

  /** The last entry remembered for the scope, unless its channel has failed since. */
  function Latest(ops: seq<Op>, key: string): Option<Entry> {
    if ops == [] then None
    else LatestAfter(Latest(ops[..|ops| - 1], key), ops[|ops| - 1], key)
  }

  function LatestAfter(before: Option<Entry>, op: Op, key: string): Option<Entry> {
    match op
    case Remember(k, entry, now) => if k == key then Some(entry.(at := now)) else before
    case Fail(k, channelID) => if k == key && before.Some? && before.value.channelID == channelID then None else before
    case Get(_, _) => before
  }

  lemma PrefixBehavior(ops: seq<Op>, ms: seq<Entries>)
    requires Behavior(ops, ms) && ops != []
    ensures Behavior(ops[..|ops| - 1], ms[..|ms| - 1])
  {}

  lemma StepStaysBounded(m: Entries, op: Op, r: Entries)
    requires Step(m, op, r) && "" !in m && |m| <= CAPACITY
    ensures "" !in r && |r| <= CAPACITY
  {
    if op.Remember? {
      RememberedStaysBounded(m, op.key, op.entry, op.now);
    } else {
      assert r.Keys <= m.Keys;
      SubsetSize(r.Keys, m.Keys);
      KeysSize(m);
      KeysSize(r);
    }
  }

  lemma {:induction false} HoldsOnlyLatest(ops: seq<Op>, ms: seq<Entries>)
    requires Behavior(ops, ms)
    ensures "" !in ms[|ops|] && |ms[|ops|]| <= CAPACITY
    ensures forall k :: k in ms[|ops|] ==> Latest(ops, k) == Some(ms[|ops|][k])
  {
    if ops != [] {
      var n := |ops| - 1;
      PrefixBehavior(ops, ms);
      HoldsOnlyLatest(ops[..n], ms[..n + 1]);
      assert Step(ms[n], ops[n], ms[n + 1]);
      StepStaysBounded(ms[n], ops[n], ms[n + 1]);
    }
  }

  /** In every behaviour at most CAPACITY entries are kept and a lookup answers only the latest, unexpired entry. */
  lemma GetAnswersOnlyLatest(ops: seq<Op>, ms: seq<Entries>, key: string, now: int)
    requires Behavior(ops, ms)
    ensures |ms[|ops|]| <= CAPACITY
    ensures var answer := Got(ms[|ops|], key, now).1;
            answer.Some? ==> Latest(ops, key) == answer && Fresh(answer.value, now)
  {
    HoldsOnlyLatest(ops, ms);
  }

  /** Why a scope's entry may be gone after a step, told by the history of the operations alone. */
  ghost predicate LostFor(op: Op, before: seq<Op>, m: Entries, k: string) {
    && k in m && Latest(before, k) == Some(m[k])
    && match op
       case Get(key, now) => key == k && !Fresh(m[k], now)
       case Fail(key, channelID) => key == k && channelID == m[k].channelID
       case Remember(key, _, now) =>
         key != "" && key != k &&
         (!Fresh(m[k], now) || (|Live(m, now)| >= CAPACITY && LongestAgo(before, m, k, now)))
  }

  /** No unexpired scope was remembered longer ago. */
  ghost predicate LongestAgo(before: seq<Op>, m: Entries, k: string, now: int) {
    Latest(before, k).Some? &&
    forall j :: j in m && Fresh(m[j], now) ==>
      Latest(before, j).Some? && Latest(before, k).value.at <= Latest(before, j).value.at
  }

  /**
    In every behaviour an entry goes only by being read or swept after its time, by the failure of
    its channel, or, when another scope is stored while at least CAPACITY unexpired entries are
    held, as one of those remembered longest ago; and then no other unexpired entry goes with it.
  */
  lemma EntryLostOnlyFor(ops: seq<Op>, ms: seq<Entries>, n: nat, k: string)
    requires Behavior(ops, ms) && n < |ops| && k in ms[n] && k !in ms[n + 1]
    ensures LostFor(ops[n], ops[..n], ms[n], k)
    ensures ops[n].Remember? && Fresh(ms[n][k], ops[n].now) ==>
      forall other :: other in ms[n] && Fresh(ms[n][other], ops[n].now) && other != k && other != ops[n].key ==> other in ms[n + 1]
  {
    BehaviorUpTo(ops, ms, n);
    HoldsOnlyLatest(ops[..n], ms[..n + 1]);
    assert Step(ms[n], ops[n], ms[n + 1]);
    if ops[n].Remember? && ops[n].key != "" && ops[n].key != k && Fresh(ms[n][k], ops[n].now) {
      EvictsOnlyOldestUnderPressure(ms[n], ops[n].key, ops[n].entry, ops[n].now, ms[n + 1], k);
      OldestIsLongestAgo(ops[..n], ms[n], k, ops[n].now);
    }
  }

  lemma BehaviorUpTo(ops: seq<Op>, ms: seq<Entries>, n: nat)
    requires Behavior(ops, ms) && n <= |ops|
    ensures Behavior(ops[..n], ms[..n + 1])
  {}

  lemma OldestIsLongestAgo(before: seq<Op>, m: Entries, k: string, now: int)
    requires k in m && Fresh(m[k], now) && IsOldest(Live(m, now), k)
    requires forall j :: j in m ==> Latest(before, j) == Some(m[j])
    ensures LongestAgo(before, m, k, now)
  {
    forall j | j in m && Fresh(m[j], now) ensures Latest(before, j).Some? && Latest(before, k).value.at <= Latest(before, j).value.at {
      assert j in Live(m, now);
    }
  }

  // ---------------------------------------------------------------- without pressure

  function Scopes(ops: seq<Op>): set<string> {
    set i | 0 <= i < |ops| && ops[i].Remember? :: ops[i].key
  }

  function Clock(op: Op, last: int): int {
    match op
    case Remember(_, _, now) => now
    case Get(_, now) => now
    case Fail(_, _) => last
  }

  /** The clock readings never go back; `last` is the latest of them. */
  ghost predicate ClockedUpTo(ops: seq<Op>, last: int) {
    ops == [] || (var op := ops[|ops| - 1]; Clock(op, last) <= last && ClockedUpTo(ops[..|ops| - 1], Clock(op, last)))
  }

  lemma {:induction false} KeysAreScopes(ops: seq<Op>, ms: seq<Entries>)
    requires Behavior(ops, ms)
    ensures ms[|ops|].Keys <= Scopes(ops)
  {
    if ops != [] {
      var n := |ops| - 1;
      PrefixBehavior(ops, ms);
      KeysAreScopes(ops[..n], ms[..n + 1]);
      assert Step(ms[n], ops[n], ms[n + 1]);
      forall k | k in ms[n + 1] ensures k in Scopes(ops) {
        if k in Scopes(ops[..n]) {
          var i :| 0 <= i < n && ops[..n][i].Remember? && ops[..n][i].key == k;
          assert ops[i].key == k;
        }
      }
    }
  }

  lemma ScopesGrow(ops: seq<Op>)
    requires ops != []
    ensures Scopes(ops[..|ops| - 1]) <= Scopes(ops) && |Scopes(ops[..|ops| - 1])| <= |Scopes(ops)|
  {
    var init := ops[..|ops| - 1];
    forall k | k in Scopes(init) ensures k in Scopes(ops) {
      var i :| 0 <= i < |init| && init[i].Remember? && init[i].key == k;
      assert ops[i].key == k;
    }
    SubsetSize(Scopes(init), Scopes(ops));
  }

  /** One step keeps an unexpired latest entry as long as nothing has to be evicted. */
  lemma StepKeepsFresh(m: Entries, op: Op, r: Entries, key: string, before: Option<Entry>, last: int)
    requires Step(m, op, r) && Clock(op, last) <= last && key != ""
    requires key in m ==> before == Some(m[key])
    requires before.Some? && Fresh(before.value, Clock(op, last)) ==> key in m
    requires op.Remember? ==> |Live(m, op.now)| < CAPACITY
    ensures var after := LatestAfter(before, op, key);
            after.Some? && Fresh(after.value, last) ==> key in r
  {}

  lemma {:induction false} KeepsLatestWithoutPressure(ops: seq<Op>, ms: seq<Entries>, key: string, last: int)
    requires Behavior(ops, ms) && ClockedUpTo(ops, last) && |Scopes(ops)| < CAPACITY && key != ""
    ensures Latest(ops, key).Some? && Fresh(Latest(ops, key).value, last) ==> key in ms[|ops|]
  {
    if ops != [] {
      var n := |ops| - 1;
      var init, m, op := ops[..n], ms[n], ops[n];
      PrefixBehavior(ops, ms);
      ScopesGrow(ops);
      KeepsLatestWithoutPressure(init, ms[..n + 1], key, Clock(op, last));
      HoldsOnlyLatest(init, ms[..n + 1]);
      if op.Remember? {
        KeysAreScopes(init, ms[..n + 1]);
        SubsetSize(Live(m, op.now).Keys, Scopes(ops));
        KeysSize(Live(m, op.now));
      }
      assert Step(m, op, ms[n + 1]);
      StepKeepsFresh(m, op, ms[n + 1], key, Latest(init, key), last);
    }
  }

  /** With fewer than 4096 scopes and a clock that never goes back, a lookup answers the latest entry for half an hour. */
  lemma GetExactWithoutPressure(ops: seq<Op>, ms: seq<Entries>, key: string, now: int)
    requires Behavior(ops, ms) && ClockedUpTo(ops, now) && |Scopes(ops)| < 4096 && key != ""
    ensures Got(ms[|ops|], key, now).1 ==
      if Latest(ops, key).Some? && now < Latest(ops, key).value.at + 1_800_000 then Latest(ops, key) else None
  {
    HoldsOnlyLatest(ops, ms);
    KeepsLatestWithoutPressure(ops, ms, key, now);
  }
}
