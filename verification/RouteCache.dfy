/**
  The cache of route matches (`routing/cache.go`). Matches and their candidate arrays live on the
  heap and are shared with readers; no method of the cache may write to either.
*/
module RouteCaching {
  import opened Seqs
  import SF = StableFirst

  type Route(==)
  type Details(==, !new)

  datatype Channel = Channel(id: int, details: Details)
  /** A channel beside its account, site and token. */
  datatype Candidate = Candidate(channel: Channel, rest: Details)

  /** What a reader sees in a match. */
  datatype Snapshot = Snapshot(route: Route, channels: seq<Candidate>)
  datatype Cached = Cached(loadedAt: int, snapshot: Option<Snapshot>)

  datatype Op =
    | Load(routeID: int, at: int, snapshot: Option<Snapshot>)
    | Patch(channelID: int, apply: Channel -> Channel)
    | Invalidate(routeID: int)
    | InvalidateEverything

  // ---------- the meaning of each step ----------

  predicate Has(channels: seq<Candidate>, k: int, id: int) {
    0 <= k < |channels| && channels[k].channel.id == id
  }

  predicate First(channels: seq<Candidate>, k: int, id: int) {
    Has(channels, k, id) && forall j :: 0 <= j < k ==> !Has(channels, j, id)
  }

  function FirstIndex(channels: seq<Candidate>, id: int, from: nat): (k: int)
    requires from <= |channels| && forall j :: 0 <= j < from ==> !Has(channels, j, id)
    ensures k >= 0 ==> First(channels, k, id)
    ensures k < 0 ==> k == -1 && forall j :: !Has(channels, j, id)
    decreases |channels| - from
  {
    if from == |channels| then -1
    else if channels[from].channel.id == id then from
    else FirstIndex(channels, id, from + 1)
  }

  function PatchChannels(channels: seq<Candidate>, id: int, apply: Channel -> Channel): (r: seq<Candidate>)
    ensures |r| == |channels|
    ensures forall k | 0 <= k < |r| ::
              r[k] == if First(channels, k, id) then channels[k].(channel := apply(channels[k].channel)) else channels[k]
  {
    var k := FirstIndex(channels, id, 0);
    if k < 0 then channels else channels[k := channels[k].(channel := apply(channels[k].channel))]
  }

  function PatchSnapshot(s: Option<Snapshot>, id: int, apply: Channel -> Channel): Option<Snapshot> {
    if s.None? then None else Some(s.value.(channels := PatchChannels(s.value.channels, id, apply)))
  }

  /** The step decides the entry of route `r` whatever it was before. */
  predicate Replaces(op: Op, r: int) {
    || (op.Load? && op.routeID == r)
    || (op.Invalidate? && op.routeID == r && r > 0)
    || op.InvalidateEverything?
  }

  /** What one step does to the entry of route `r`. */
  function Step(entry: Option<Cached>, op: Op, r: int): Option<Cached> {
    if Replaces(op, r) then
      if op.Load? then Some(Cached(op.at, op.snapshot)) else None
    else if entry.Some? && op.Patch? then
      Some(entry.value.(snapshot := PatchSnapshot(entry.value.snapshot, op.channelID, op.apply)))
    else
      entry
  }

  function Run(ops: seq<Op>, r: int): Option<Cached> {
    if ops == [] then None else Step(Run(ops[..|ops| - 1], r), ops[|ops| - 1], r)
  }

  // ---------- every run ----------

  /** The patches among `ops`, applied in order to one snapshot. */
  function Patched(s: Option<Snapshot>, ops: seq<Op>): Option<Snapshot> {
    if ops == [] then s
    else
      var before := Patched(s, ops[..|ops| - 1]);
      match ops[|ops| - 1]
      case Patch(id, apply) => PatchSnapshot(before, id, apply)
      case _ => before
  }

  /** Step `i` loaded route `r`, and nothing since loaded it again or dropped it. */
  predicate LoadedAt(ops: seq<Op>, i: int, r: int) {
    && 0 <= i < |ops| && ops[i].Load? && ops[i].routeID == r
    && forall j :: i < j < |ops| ==> !Replaces(ops[j], r)
  }

  lemma PatchedOnce(ops: seq<Op>, i: nat, r: int)
    requires i < |ops| - 1 && ops[i].Load? && !Replaces(ops[|ops| - 1], r)
    requires Run(ops[..|ops| - 1], r) == Some(Cached(ops[i].at, Patched(ops[i].snapshot, ops[..|ops| - 1][i + 1..])))
    ensures Run(ops, r) == Some(Cached(ops[i].at, Patched(ops[i].snapshot, ops[i + 1..])))
  {
    var later := ops[i + 1..];
    assert later[..|later| - 1] == ops[..|ops| - 1][i + 1..] && later[|later| - 1] == ops[|ops| - 1];
  }

  /** A cached match is the match last loaded with every later patch on top, and keeps that load's time. */
  lemma {:induction false} CachedIsLoadedThenPatched(ops: seq<Op>, r: int)
    ensures Run(ops, r).Some? <==> exists i :: LoadedAt(ops, i, r)
    ensures forall i :: LoadedAt(ops, i, r) ==>
                          Run(ops, r) == Some(Cached(ops[i].at, Patched(ops[i].snapshot, ops[i + 1..])))
  {
    if ops == [] {
      return;
    }
    var init, op := ops[..|ops| - 1], ops[|ops| - 1];
    CachedIsLoadedThenPatched(init, r);
    if op.Load? && op.routeID == r {
      assert LoadedAt(ops, |ops| - 1, r);
      forall i | LoadedAt(ops, i, r) ensures i == |ops| - 1 {
        assert Replaces(op, r);
      }
      assert ops[|ops|..] == [];
    } else if Replaces(op, r) {
      assert forall i :: !LoadedAt(ops, i, r);
    } else {
      assert forall i :: LoadedAt(ops, i, r) <==> LoadedAt(init, i, r);
      forall i | LoadedAt(ops, i, r)
        ensures Run(ops, r) == Some(Cached(ops[i].at, Patched(ops[i].snapshot, ops[i + 1..])))
      {
        assert LoadedAt(init, i, r);
        PatchedOnce(ops, i, r);
      }
    }
  }

  /** The patches for one channel, applied in order to that channel. */
  function PatchedChannel(c: Channel, id: int, ops: seq<Op>): Channel {
    if ops == [] then c
    else
      var before := PatchedChannel(c, id, ops[..|ops| - 1]);
      var op := ops[|ops| - 1];
      if op.Patch? && op.channelID == id then op.apply(before) else before
  }

  ghost predicate KeepsID(op: Op) {
    op.Patch? ==> forall c: Channel :: op.apply(c).id == c.id
  }

  /** With patches that keep channel ids, the first channel of each id gets all of its patches and no other channel any. */
  lemma {:induction false} PatchesReachOnlyTheFirst(s: Snapshot, ops: seq<Op>)
    requires forall op :: op in ops ==> KeepsID(op)
    ensures Patched(Some(s), ops).Some?
    ensures var r := Patched(Some(s), ops).value;
            r.route == s.route && |r.channels| == |s.channels|
    ensures var r := Patched(Some(s), ops).value;
            forall k | 0 <= k < |s.channels| ::
              var c := s.channels[k];
              r.channels[k] == if First(s.channels, k, c.channel.id)
                               then c.(channel := PatchedChannel(c.channel, c.channel.id, ops)) else c
  {
    if ops != [] {
      var init, op := ops[..|ops| - 1], ops[|ops| - 1];
      PatchesReachOnlyTheFirst(s, init);
      var before := Patched(Some(s), init).value;
      assert KeepsID(op);
      forall c: Channel ensures PatchedChannel(c, c.id, init).id == c.id {
        PatchingKeepsID(c, c.id, init);
      }
      assert forall k, id :: Has(before.channels, k, id) <==> Has(s.channels, k, id);
    }
  }

  lemma {:induction false} PatchingKeepsID(c: Channel, id: int, ops: seq<Op>)
    requires forall op :: op in ops ==> KeepsID(op)
    ensures PatchedChannel(c, id, ops).id == c.id
  {
    if ops != [] {
      PatchingKeepsID(c, id, ops[..|ops| - 1]);
      assert KeepsID(ops[|ops| - 1]);
    }
  }

  // ---------- the cache ----------

  class RouteMatch {
    const route: Route
    const channels: array<Candidate>

    constructor (route: Route, channels: array<Candidate>)
      ensures this.route == route && this.channels == channels
    {
      this.route, this.channels := route, channels;
    }

    ghost function Seen(): Snapshot
      reads channels
    {
      Snapshot(route, channels[..])
    }
  }

  ghost function Seen(m: RouteMatch?): Option<Snapshot>
    reads if m == null then {} else {m.channels}
  {
    if m == null then None else Some(m.Seen())
  }

  datatype RouteMatchEntry = RouteMatchEntry(loadedAt: int, routeMatch: RouteMatch?)

  const NANOS_PER_MS := 1_000_000

  /** The TTL test on a monotonic clock in nanoseconds. */
  predicate Fresh(loadedAt: int, now: int, ttlMs: int) {
    (now - loadedAt) / NANOS_PER_MS < ttlMs
  }

  /** An entry is served for less than `ttlMs` milliseconds after its load, to the nanosecond. */
  lemma FreshUntil(loadedAt: int, now: int, ttlMs: int)
    ensures Fresh(loadedAt, now, ttlMs) <==> now < loadedAt + ttlMs * 1_000_000
  {
    var x := now - loadedAt;
    assert x == x / 1_000_000 * 1_000_000 + x % 1_000_000;
  }

  /** What invalidating a route leaves of a rotation memory: the keys of other routes; everything for no route. */
  function Kept<V>(m: map<string, V>, routeID: int): map<string, V> {
    if routeID <= 0 then m else SF.Without(m, SF.RoutePrefix(routeID))
  }

  /** Of a rotation memory, invalidating a route drops the keys of that route, whatever the model, and no key of another. */
  lemma KeptIsOtherRoutes<V>(m: map<string, V>, routeID: int, other: nat, model: string)
    ensures SF.RotationKey(other, model) in Kept(m, routeID) <==>
            SF.RotationKey(other, model) in m && !(routeID > 0 && other == routeID)
    ensures forall k :: k in Kept(m, routeID) ==> k in m && Kept(m, routeID)[k] == m[k]
  {
    if routeID > 0 {
      SF.PrefixIsTheRoute(routeID, other, model);
    }
  }

  class RouteCache {
    const ttlMs: int
    const rotation: SF.Rotation
    var routesLoaded: bool
    var routesAt: int
    var routes: seq<Route>
    var matchCache: map<int, RouteMatchEntry>

    constructor (ttlMs: int, rotation: SF.Rotation)
      ensures this.rotation == rotation && this.ttlMs == if ttlMs < 100 then 100 else ttlMs
      ensures !routesLoaded && forall r :: At(r) == None
    {
      this.rotation := rotation;
      this.ttlMs := if ttlMs < 100 then 100 else ttlMs;
      routesLoaded, routesAt, routes, matchCache := false, 0, [], map[];
    }

    ghost function Arrays(): set<array<Candidate>>
      reads this
    {
      set r | r in matchCache && matchCache[r].routeMatch != null :: matchCache[r].routeMatch.channels
    }

    ghost function At(r: int): Option<Cached>
      reads this, Arrays()
    {
      if r in matchCache then Some(Cached(matchCache[r].loadedAt, Seen(matchCache[r].routeMatch))) else None
    }

    method GetRoutes(now: int) returns (found: Option<seq<Route>>)
      ensures found == if routesLoaded && Fresh(routesAt, now, ttlMs) then Some(routes) else None
    {
      if routesLoaded && (now - routesAt) / NANOS_PER_MS < ttlMs {
        return Some(routes);
      }
      return None;
    }

    method SetRoutes(routes: seq<Route>, now: int)
      modifies this
      ensures routesLoaded && routesAt == now && this.routes == routes
      ensures matchCache == old(matchCache)
    {
      this.routes, routesAt, routesLoaded := routes, now, true;
    }

    method GetMatch(routeID: int, now: int) returns (found: RouteMatch?)
      ensures Seen(found) == if At(routeID).Some? && Fresh(At(routeID).value.loadedAt, now, ttlMs)
                             then At(routeID).value.snapshot else None
    {
      if routeID !in matchCache {
        return null;
      }
      var entry := matchCache[routeID];
      if (now - entry.loadedAt) / NANOS_PER_MS >= ttlMs {
        return null;
      }
      return entry.routeMatch;
    }

    method SetMatch(routeID: int, routeMatch: RouteMatch?, now: int)
      modifies this
      ensures forall r :: At(r) == Step(old(At(r)), Load(routeID, now, Seen(routeMatch)), r)
      ensures routesLoaded == old(routesLoaded) && routesAt == old(routesAt) && routes == old(routes)
    {
      matchCache := matchCache[routeID := RouteMatchEntry(now, routeMatch)];
    }

    method InvalidateRouteScopedCache(routeID: int)
      modifies this, rotation
      ensures forall r :: At(r) == Step(old(At(r)), Invalidate(routeID), r)
      ensures routesLoaded == old(routesLoaded) && routesAt == old(routesAt) && routes == old(routes)
      ensures rotation.lastSelectedSite == Kept(old(rotation.lastSelectedSite), routeID)
      ensures rotation.observationProgress == Kept(old(rotation.observationProgress), routeID)
      ensures rotation.observationCooldown == Kept(old(rotation.observationCooldown), routeID)
    {
      if routeID <= 0 {
        return;
      }
      matchCache := matchCache - {routeID};
      rotation.ClearStableFirstCachesForRoute(routeID);
    }

    method InvalidateAll()
      modifies this, rotation
      ensures forall r :: At(r) == Step(old(At(r)), InvalidateEverything, r)
      ensures !routesLoaded && routes == []
      ensures rotation.lastSelectedSite == map[] && rotation.observationProgress == map[] && rotation.observationCooldown == map[]
    {
      routesLoaded, routes, routesAt := false, [], 0;
      matchCache := map[];
      rotation.ClearAllStableFirstCaches();
    }

    /**
      Patches clones only: the frame lets no existing match and no existing array change, so
      readers of earlier snapshots keep what they read.
    */
    method PatchCachedChannel(channelID: int, apply: Channel -> Channel)
      modifies this
      ensures forall r :: At(r) == Step(old(At(r)), Patch(channelID, apply), r)
      ensures routesLoaded == old(routesLoaded) && routesAt == old(routesAt) && routes == old(routes)
    {
      var todo := matchCache.Keys;
      while todo != {}
        invariant todo <= matchCache.Keys
        invariant forall r :: At(r) == if r in todo then old(At(r)) else Step(old(At(r)), Patch(channelID, apply), r)
        invariant routesLoaded == old(routesLoaded) && routesAt == old(routesAt) && routes == old(routes)
        decreases todo
      {
        ghost var some := Inhabited(todo);
        var routeID :| routeID in todo;
        assert At(routeID) == old(At(routeID));
        todo := todo - {routeID};
        var entry := matchCache[routeID];
        if entry.routeMatch != null {
          var patched := Clone(entry.routeMatch, channelID, apply);
          if patched != null {
            matchCache := matchCache[routeID := RouteMatchEntry(entry.loadedAt, patched)];
          }
        }
      }
    }
  }

  /** A patched copy, or null when the match has no such channel. */
  method Clone(m: RouteMatch, channelID: int, apply: Channel -> Channel) returns (cloned: RouteMatch?)
    ensures cloned == null ==> PatchSnapshot(Some(m.Seen()), channelID, apply) == Some(m.Seen())
    ensures cloned != null ==> fresh(cloned) && fresh(cloned.channels)
                               && Some(cloned.Seen()) == PatchSnapshot(Some(m.Seen()), channelID, apply)
  {
    var idx, i := -1, 0;
    while i < m.channels.Length && idx < 0
      invariant 0 <= i <= m.channels.Length
      invariant idx < 0 ==> idx == -1 && forall j :: 0 <= j < i ==> !Has(m.channels[..], j, channelID)
      invariant idx >= 0 ==> First(m.channels[..], idx, channelID)
    {
      if m.channels[i].channel.id == channelID {
        idx := i;
      }
      i := i + 1;
    }
    if idx < 0 {
      return null;
    }
    var channels := new Candidate[m.channels.Length](k requires 0 <= k < m.channels.Length reads m.channels => m.channels[k]);
    assert channels[..] == m.channels[..];
    channels[idx] := channels[idx].(channel := apply(channels[idx].channel));
    cloned := new RouteMatch(m.route, channels);
    assert channels[..] == PatchChannels(m.channels[..], channelID, apply);
  }
}
