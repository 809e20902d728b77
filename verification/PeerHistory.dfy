/** Last known good peer data: which collections a peer link's columns come from
    (controller/internal/ingest/store.go:210-232, 303-321). */
module PeerHistory {
  import opened Wrappers
  import opened Topology
  import opened Tables
  import opened IngestInOrder
  import opened IngestInvariants

  /** One collection's report about an instance. */
  datatype Sighting = Sighting(instance: Instance, at: Stamp)

  predicate Has(ps: seq<Peer>, d: PeerId) { exists k :: 0 <= k < |ps| && ps[k].peerId == d }

  predicate Listed(g: Sighting, d: PeerId) { Has(g.instance.peers, d) }

  /** The first entry for the peer: a repeated one meets its own key and changes nothing. */
  function FirstEntry(ps: seq<Peer>, d: PeerId): (p: Peer)
    requires Has(ps, d)
    ensures p in ps && p.peerId == d
  {
    if ps[0].peerId == d then ps[0]
    else assert Has(ps[1..], d) by {
           var k :| 0 <= k < |ps| && ps[k].peerId == d;
           assert ps[1..][k - 1].peerId == d;
         }
         FirstEntry(ps[1..], d)
  }

  function Entry(g: Sighting, d: PeerId): Peer
    requires Listed(g, d)
  {
    FirstEntry(g.instance.peers, d)
  }

  predicate DetailsKnown(g: Sighting) { !HasOperationError(g.instance.errors, LIST_PEERS) }

  predicate RoutesKnown(g: Sighting) { !HasOperationError(g.instance.errors, LIST_ROUTES) }

  /** A successful route listing without the peer removes it. */
  predicate Drops(g: Sighting, d: PeerId) { RoutesKnown(g) && !Listed(g, d) }

  predicate LatencyKnown(g: Sighting, d: PeerId)
    requires Listed(g, d)
  {
    DetailsKnown(g) || !Entry(g, d).direct
  }

  ghost predicate Increasing(h: seq<Sighting>) {
    forall a, b :: 0 <= a < b < |h| ==>
      Before(h[a].instance.observedAtMs, h[a].at.completedAt, h[b].instance.observedAtMs, h[b].at.completedAt)
  }

  // ---------- where a row comes from ----------

  ghost predicate Dropped(h: seq<Sighting>, d: PeerId, from: nat, to: nat) {
    exists k :: from < k < to && k < |h| && Drops(h[k], d)
  }

  /** The listing that created the row that is there now. */
  ghost predicate Created(h: seq<Sighting>, d: PeerId, c: nat) {
    && c < |h| && Listed(h[c], d) && !Dropped(h, d, c, |h|)
    && forall j :: 0 <= j < c && Listed(h[j], d) ==> Dropped(h, d, j, c)
  }

  ghost predicate LastListed(h: seq<Sighting>, d: PeerId, l: nat) {
    l < |h| && Listed(h[l], d) && forall j :: l < j < |h| ==> !Listed(h[j], d)
  }

  /** The latest listing since creation whose `list_peers` succeeded, or the creating one. */
  ghost predicate DetailSource(h: seq<Sighting>, d: PeerId, c: nat, g: nat) {
    && c <= g < |h| && Listed(h[g], d) && (g == c || DetailsKnown(h[g]))
    && forall j :: g < j < |h| && Listed(h[j], d) ==> !DetailsKnown(h[j])
  }

  ghost predicate LatencySource(h: seq<Sighting>, d: PeerId, c: nat, q: nat) {
    && c <= q < |h| && Listed(h[q], d) && (q == c || LatencyKnown(h[q], d))
    && forall j :: q < j < |h| && Listed(h[j], d) ==> !LatencyKnown(h[j], d)
  }

  datatype Origin = Origin(created: nat, listed: nat, details: nat, latency: nat)

  ghost predicate OriginOf(h: seq<Sighting>, d: PeerId, o: Origin) {
    && Created(h, d, o.created) && LastListed(h, d, o.listed)
    && DetailSource(h, d, o.created, o.details) && LatencySource(h, d, o.created, o.latency)
  }

  predicate RoutedAs(r: Route, p: Peer) {
    && r.ipv4 == p.ipv4 && r.hostname == p.hostname && r.nextHopPeerId == p.nextHopPeerId && r.direct == p.direct
    && r.pathCost == p.pathCost && r.version == p.version
  }

  predicate DetailedAs(r: Details, p: Peer) {
    && r.lossRate == p.lossRate && r.rxBytes == p.rxBytes && r.txBytes == p.txBytes
    && r.tunnelProtocols == p.tunnelProtocols
  }

  ghost predicate Explains(h: seq<Sighting>, d: PeerId, o: Origin, row: PeerRow) {
    && OriginOf(h, d, o)
    && RoutedAs(row.route, Entry(h[o.listed], d)) && row.latencyMs == Entry(h[o.latency], d).latencyMs
    && DetailedAs(row.details, Entry(h[o.details], d))
    && row.observedAt == h[o.listed].instance.observedAtMs
    && row.completedAt == h[o.listed].at.completedAt && row.collectionId == h[o.listed].at.collectionId
  }

  /** The row is there exactly when some listing has not been dropped since, and every column has its origin. */
  ghost predicate LastKnownGood(h: seq<Sighting>, d: PeerId, row: Option<PeerRow>) {
    match row
    case None => forall j :: 0 <= j < |h| && Listed(h[j], d) ==> Dropped(h, d, j, |h|)
    case Some(r) => exists o :: Explains(h, d, o, r)
  }

  lemma OriginIsUnique(h: seq<Sighting>, d: PeerId, o: Origin, o': Origin)
    requires OriginOf(h, d, o) && OriginOf(h, d, o')
    ensures o == o'
  {
    CreationIsUnique(h, d, o.created, o'.created);
    CreationIsUnique(h, d, o'.created, o.created);
    hide Created;
  }

  lemma CreationIsUnique(h: seq<Sighting>, d: PeerId, c: nat, c': nat)
    requires Created(h, d, c) && Created(h, d, c')
    ensures c' <= c
  {
    assert c < c' ==> Dropped(h, d, c, c');
  }

  // ---------- one sighting ----------

  function RowAt(t: PeerTable, key: PeerKey): Option<PeerRow> { if key in t then Some(t[key]) else None }

  function RowWith(prior: Option<PeerRow>, g: Sighting, p: Peer): PeerRow {
    if prior.None? then FreshPeer(g.at, g.instance.observedAtMs, p)
    else MergedPeer(prior.value, g.at, g.instance.observedAtMs, p, DetailsKnown(g))
  }

  function NextRow(row: Option<PeerRow>, g: Sighting, d: PeerId): Option<PeerRow> {
    if Listed(g, d) then Some(RowWith(row, g, Entry(g, d)))
    else if RoutesKnown(g) then None else row
  }

  predicate Older(row: Option<PeerRow>, g: Sighting) {
    row.Some? ==> Before(row.value.observedAt, row.value.completedAt, g.instance.observedAtMs, g.at.completedAt)
  }

  lemma HasLast(front: seq<Peer>, p: Peer, d: PeerId)
    ensures Has(front + [p], d) <==> Has(front, d) || p.peerId == d
  {
    assert (front + [p])[|front|] == p;
    assert forall k :: 0 <= k < |front| ==> (front + [p])[k] == front[k];
  }

  lemma {:induction false} UpsertPeersRow(t: PeerTable, g: Sighting, ps: seq<Peer>, d: PeerId)
    requires Older(RowAt(t, (g.instance.instanceId, d)), g)
    ensures var row := RowAt(UpsertPeers(t, g.at, g.instance, ps), (g.instance.instanceId, d));
            var prior := RowAt(t, (g.instance.instanceId, d));
            row == if Has(ps, d) then Some(RowWith(prior, g, FirstEntry(ps, d))) else prior
  {
    if ps != [] {
      var front, p := ps[..|ps| - 1], ps[|ps| - 1];
      assert ps == front + [p];
      UpsertPeersRow(t, g, front, d);
      HasLast(front, p, d);
      if Has(front, d) {
        FirstEntryPrefix(front, p, d);
      } else if p.peerId == d {
        FirstEntryLast(front, p, d);
      }
      hide Has;
      hide FirstEntry;
    }
  }

  lemma {:induction false} FirstEntryPrefix(front: seq<Peer>, p: Peer, d: PeerId)
    requires Has(front, d)
    ensures Has(front + [p], d) && FirstEntry(front + [p], d) == FirstEntry(front, d)
  {
    HasLast(front, p, d);
    if front[0].peerId != d {
      var k :| 0 <= k < |front| && front[k].peerId == d;
      assert front[1..][k - 1].peerId == d;
      FirstEntryPrefix(front[1..], p, d);
      assert (front + [p])[1..] == front[1..] + [p];
    }
  }

  lemma {:induction false} FirstEntryLast(front: seq<Peer>, p: Peer, d: PeerId)
    requires p.peerId == d && !Has(front, d)
    ensures Has(front + [p], d) && FirstEntry(front + [p], d) == p
  {
    HasLast(front, p, d);
    if front != [] {
      assert !Has(front[1..], d) by {
        assert forall k :: 0 <= k < |front[1..]| ==> front[1..][k] == front[k + 1];
      }
      FirstEntryLast(front[1..], p, d);
      assert (front + [p])[1..] == front[1..] + [p];
    }
  }

  lemma PeersOfInstanceRow(t: PeerTable, g: Sighting, d: PeerId)
    requires Older(RowAt(t, (g.instance.instanceId, d)), g)
    ensures RowAt(PeersOfInstance(t, g.at, g.instance), (g.instance.instanceId, d))
            == NextRow(RowAt(t, (g.instance.instanceId, d)), g, d)
  {
    UpsertPeersRow(t, g, g.instance.peers, d);
    hide UpsertPeers;
    assert d in PeerIds(g.instance.peers) <==> Listed(g, d);
  }

  // ---------- a history ----------

  lemma DroppedBefore(h: seq<Sighting>, g: Sighting, d: PeerId, j: nat, k: nat)
    requires k <= |h|
    ensures Dropped(h + [g], d, j, k) <==> Dropped(h, d, j, k)
  {
    var h' := h + [g];
    if Dropped(h, d, j, k) {
      var x :| j < x < k && x < |h| && Drops(h[x], d);
      assert Drops(h'[x], d);
    }
    if Dropped(h', d, j, k) {
      var x :| j < x < k && x < |h'| && Drops(h'[x], d);
      assert Drops(h[x], d);
    }
  }

  lemma DroppedNow(h: seq<Sighting>, g: Sighting, d: PeerId, j: nat)
    requires j < |h|
    ensures Dropped(h + [g], d, j, |h| + 1) <==> Dropped(h, d, j, |h|) || Drops(g, d)
  {
    var h' := h + [g];
    DroppedBefore(h, g, d, j, |h|);
    if Drops(g, d) {
      assert Drops(h'[|h|], d);
      assert Dropped(h', d, j, |h| + 1);
    }
    if Dropped(h', d, j, |h|) {
      var x :| j < x < |h| && x < |h'| && Drops(h'[x], d);
      assert Dropped(h', d, j, |h| + 1);
    }
    if Dropped(h', d, j, |h| + 1) && !Drops(g, d) {
      var x :| j < x < |h| + 1 && x < |h'| && Drops(h'[x], d);
      assert x != |h|;
      assert Dropped(h', d, j, |h|);
    }
  }

  lemma DroppedPrefix(h: seq<Sighting>, g: Sighting, d: PeerId)
    ensures forall j: nat, k: nat :: k <= |h| ==> (Dropped(h + [g], d, j, k) <==> Dropped(h, d, j, k))
    ensures forall j :: 0 <= j < |h| ==> (Dropped(h + [g], d, j, |h| + 1) <==> Dropped(h, d, j, |h|) || Drops(g, d))
  {
    hide Dropped;
    hide Drops;
    forall j: nat, k: nat | k <= |h| ensures Dropped(h + [g], d, j, k) <==> Dropped(h, d, j, k) {
      DroppedBefore(h, g, d, j, k);
    }
    forall j | 0 <= j < |h| ensures Dropped(h + [g], d, j, |h| + 1) <==> Dropped(h, d, j, |h|) || Drops(g, d) {
      DroppedNow(h, g, d, j);
    }
  }

  /** A listing of a link that is already there: it keeps its creation and renews what it knows. */
  lemma RelistedOrigin(h: seq<Sighting>, g: Sighting, d: PeerId, o: Origin)
    requires OriginOf(h, d, o) && Listed(g, d)
    ensures OriginOf(h + [g], d, Origin(o.created, |h|, if DetailsKnown(g) then |h| else o.details,
                                        if LatencyKnown(g, d) then |h| else o.latency))
  {
    var h' := h + [g];
    assert forall k :: 0 <= k < |h| ==> h'[k] == h[k];
    assert h'[|h|] == g;
    DroppedPrefix(h, g, d);
    assert !Drops(g, d);
    hide Dropped;
    hide Listed;
    hide Drops;
  }

  lemma UnlistedOrigin(h: seq<Sighting>, g: Sighting, d: PeerId, o: Origin)
    requires OriginOf(h, d, o) && !Listed(g, d) && !RoutesKnown(g)
    ensures OriginOf(h + [g], d, o)
  {
    var h' := h + [g];
    assert forall k :: 0 <= k < |h| ==> h'[k] == h[k];
    assert h'[|h|] == g;
    DroppedPrefix(h, g, d);
    hide Dropped;
    hide Listed;
  }

  lemma NewOrigin(h: seq<Sighting>, g: Sighting, d: PeerId)
    requires Listed(g, d)
    requires forall j :: 0 <= j < |h| && Listed(h[j], d) ==> Dropped(h, d, j, |h|)
    ensures OriginOf(h + [g], d, Origin(|h|, |h|, |h|, |h|))
  {
    var h' := h + [g];
    assert forall k :: 0 <= k < |h| ==> h'[k] == h[k];
    assert h'[|h|] == g;
    DroppedPrefix(h, g, d);
    assert !Dropped(h', d, |h|, |h'|);
    hide Dropped;
    hide Listed;
  }

  lemma GoneStays(h: seq<Sighting>, g: Sighting, d: PeerId, row: Option<PeerRow>)
    requires LastKnownGood(h, d, row) && !Listed(g, d) && (RoutesKnown(g) || row.None?)
    ensures LastKnownGood(h + [g], d, None)
  {
    DroppedPrefix(h, g, d);
    assert RoutesKnown(g) ==> Drops(g, d);
    hide Dropped;
    hide Explains;
  }

  lemma LastKnownGoodStep(h: seq<Sighting>, g: Sighting, d: PeerId, row: Option<PeerRow>)
    requires LastKnownGood(h, d, row)
    ensures LastKnownGood(h + [g], d, NextRow(row, g, d))
  {
    var h' := h + [g];
    assert forall k :: 0 <= k < |h| ==> h'[k] == h[k];
    assert h'[|h|] == g;
    hide Created;
    hide LastListed;
    hide DetailSource;
    hide LatencySource;
    hide Drops;
    if Listed(g, d) {
      var row' := NextRow(row, g, d).value;
      if row.Some? {
        var o :| Explains(h, d, o, row.value);
        RelistedOrigin(h, g, d, o);
        assert Explains(h', d, Origin(o.created, |h|, if DetailsKnown(g) then |h| else o.details,
                                      if LatencyKnown(g, d) then |h| else o.latency), row');
      } else {
        NewOrigin(h, g, d);
        assert Explains(h', d, Origin(|h|, |h|, |h|, |h|), row');
      }
    } else if RoutesKnown(g) || row.None? {
      GoneStays(h, g, d, row);
    } else {
      var o :| Explains(h, d, o, row.value);
      UnlistedOrigin(h, g, d, o);
      assert Explains(h', d, o, row.value);
    }
  }

  function SightingsIn(at: Stamp, xs: seq<Instance>, id: Uuid): seq<Sighting> {
    if xs == [] then []
    else SightingsIn(at, xs[..|xs| - 1], id)
         + if xs[|xs| - 1].instanceId == id then [Sighting(xs[|xs| - 1], at)] else []
  }

  /** The reports about an instance, in the order in which they were stored. */
  ghost function Sightings(es: seq<Event>, id: Uuid): seq<Sighting> {
    if es == [] then []
    else
      var e := es[|es| - 1];
      Sightings(es[..|es| - 1], id)
      + if e.Deliver? && Accepts(Exec(EMPTY, es[..|es| - 1]), e.snapshot)
        then SightingsIn(StampOf(e.snapshot), FlatInstances(e.snapshot.machines), id) else []
  }

  lemma IncreasingPrefix(a: seq<Sighting>, b: seq<Sighting>)
    requires Increasing(a + b)
    ensures Increasing(a)
  {
    assert forall k :: 0 <= k < |a| ==> (a + b)[k] == a[k];
  }

  lemma LastIsOlder(h: seq<Sighting>, g: Sighting, d: PeerId, row: Option<PeerRow>)
    requires LastKnownGood(h, d, row) && Increasing(h + [g])
    ensures Older(row, g)
  {
    if row.Some? {
      var o :| Explains(h, d, o, row.value);
      assert (h + [g])[o.listed] == h[o.listed] && (h + [g])[|h|] == g;
    }
  }

  lemma {:induction false} SnapshotLastKnownGood(t: PeerTable, at: Stamp, xs: seq<Instance>, id: Uuid, d: PeerId,
                                                 h: seq<Sighting>)
    requires LastKnownGood(h, d, RowAt(t, (id, d)))
    requires Increasing(h + SightingsIn(at, xs, id))
    ensures LastKnownGood(h + SightingsIn(at, xs, id), d, RowAt(PeersOfInstances(t, at, xs), (id, d)))
  {
    hide LastKnownGood;
    hide Increasing;
    hide PeersOfInstance;
    if xs == [] {
      assert h + SightingsIn(at, xs, id) == h;
    } else {
      var front, x := xs[..|xs| - 1], xs[|xs| - 1];
      var h0 := h + SightingsIn(at, front, id);
      var t0 := PeersOfInstances(t, at, front);
      if x.instanceId == id {
        var g := Sighting(x, at);
        assert h + SightingsIn(at, xs, id) == h0 + [g];
        IncreasingPrefix(h0, [g]);
        SnapshotLastKnownGood(t, at, front, id, d, h);
        LastIsOlder(h0, g, d, RowAt(t0, (id, d)));
        PeersOfInstanceRow(t0, g, d);
        LastKnownGoodStep(h0, g, d, RowAt(t0, (id, d)));
      } else {
        assert h + SightingsIn(at, xs, id) == h0;
        SnapshotLastKnownGood(t, at, front, id, d, h);
        OtherInstance(t0, at, x, (id, d));
      }
    }
  }

  lemma OtherInstance(t: PeerTable, at: Stamp, x: Instance, key: PeerKey)
    requires x.instanceId != key.0
    ensures RowAt(PeersOfInstance(t, at, x), key) == RowAt(t, key)
  {
    UpsertPeersElsewhere(t, at, x, x.peers, key);
  }

  /** Over any history whose reports about the instance come in increasing key order, the row of each of its peers
      is the last known good one. */
  lemma {:induction false} PeerRowsAreLastKnownGood(es: seq<Event>, id: Uuid, d: PeerId)
    requires Increasing(Sightings(es, id))
    ensures LastKnownGood(Sightings(es, id), d, RowAt(Exec(EMPTY, es).peers, (id, d)))
  {
    hide Increasing;
    hide LastKnownGood;
    hide Apply;
    hide Accepts;
    hide FlatInstances;
    hide SightingsIn;
    hide PeersOfInstances;
    if es == [] {
      NoSightings(d);
    } else {
      var front, e := es[..|es| - 1], es[|es| - 1];
      var db := Exec(EMPTY, front);
      ApplyCurrent(db, e);
      var h := Sightings(front, id);
      if e.Deliver? && Accepts(db, e.snapshot) {
        var more := SightingsIn(StampOf(e.snapshot), FlatInstances(e.snapshot.machines), id);
        IncreasingPrefix(h, more);
        PeerRowsAreLastKnownGood(front, id, d);
        SnapshotLastKnownGood(db.peers, StampOf(e.snapshot), FlatInstances(e.snapshot.machines), id, d, h);
      } else {
        assert Sightings(es, id) == h;
        PeerRowsAreLastKnownGood(front, id, d);
      }
    }
  }

  // ---------- in-order histories report in increasing order ----------

  ghost predicate OncePerSnapshot(es: seq<Event>) {
    forall a :: 0 <= a < |es| && es[a].Deliver? ==> DistinctInstances(FlatInstances(es[a].snapshot.machines))
  }

  ghost predicate CompletedWith(es: seq<Event>, g: Sighting) {
    exists a :: 0 <= a < |es| && es[a].Deliver? && g.instance.observedAtMs <= es[a].snapshot.completedAtMs
  }

  lemma {:induction false} FlatMember(ms: seq<Machine>, x: Instance) returns (m: Machine)
    requires x in FlatInstances(ms)
    ensures m in ms && x in m.instances
  {
    var front, last := ms[..|ms| - 1], ms[|ms| - 1];
    if x in last.instances {
      m := last;
    } else {
      m := FlatMember(front, x);
    }
  }

  lemma {:induction false} SightingsMembers(at: Stamp, xs: seq<Instance>, id: Uuid)
    ensures forall g :: g in SightingsIn(at, xs, id) ==> g.instance in xs && g.instance.instanceId == id && g.at == at
    ensures id !in InstanceIds(xs) ==> SightingsIn(at, xs, id) == []
    ensures DistinctInstances(xs) ==> |SightingsIn(at, xs, id)| <= 1
  {
    if xs != [] {
      var front, x := xs[..|xs| - 1], xs[|xs| - 1];
      SightingsMembers(at, front, id);
      assert xs == front + [x];
      InstanceIdsStep(front, x);
      if DistinctInstances(xs) {
        assert DistinctInstances(front);
        assert x.instanceId !in InstanceIds(front) by {
          assert forall k :: 0 <= k < |front| ==> front[k].instanceId == xs[k].instanceId != xs[|xs| - 1].instanceId;
        }
      }
    }
  }

  /** The reports of one stored snapshot lie within its collection. */
  lemma SnapshotTimes(s: Snapshot, id: Uuid)
    requires Valid(s) && Timed(s)
    ensures forall g :: g in SightingsIn(StampOf(s), FlatInstances(s.machines), id) ==>
              s.startedAtMs <= g.instance.observedAtMs <= s.completedAtMs
  {
    var xs := FlatInstances(s.machines);
    SightingsMembers(StampOf(s), xs, id);
    FlatObserved(s.machines, s.completedAtMs);
    forall g | g in SightingsIn(StampOf(s), xs, id)
      ensures s.startedAtMs <= g.instance.observedAtMs <= s.completedAtMs
    {
      var k :| 0 <= k < |xs| && xs[k] == g.instance;
      assert InstanceOk(xs[k], s.completedAtMs);
      var m := FlatMember(s.machines, g.instance);
    }
  }

  lemma {:induction false} InOrderIsIncreasing(es: seq<Event>, id: Uuid)
    requires InOrder(es) && OncePerSnapshot(es)
    ensures Increasing(Sightings(es, id))
    ensures forall g :: g in Sightings(es, id) ==> CompletedWith(es, g)
  {
    if es != [] {
      var front, e := es[..|es| - 1], es[|es| - 1];
      InOrderPrefix(es);
      assert forall k :: 0 <= k < |front| ==> front[k] == es[k];
      assert OncePerSnapshot(front);
      InOrderIsIncreasing(front, id);
      var h := Sightings(front, id);
      forall g | g in h ensures CompletedWith(es, g) {
        var a :| 0 <= a < |front| && front[a].Deliver? && g.instance.observedAtMs <= front[a].snapshot.completedAtMs;
        assert es[a].Deliver? && g.instance.observedAtMs <= es[a].snapshot.completedAtMs;
      }
      if e.Deliver? && Accepts(Exec(EMPTY, front), e.snapshot) {
        NextSightings(es, h, id);
      }
    }
  }

  lemma NextSightings(es: seq<Event>, h: seq<Sighting>, id: Uuid)
    requires InOrder(es) && OncePerSnapshot(es) && es != [] && es[|es| - 1].Deliver? && Valid(es[|es| - 1].snapshot)
    requires Increasing(h) && forall g :: g in h ==> CompletedWith(es[..|es| - 1], g)
    ensures var s := es[|es| - 1].snapshot;
            var more := SightingsIn(StampOf(s), FlatInstances(s.machines), id);
            Increasing(h + more) && forall g :: g in more ==> CompletedWith(es, g)
  {
    var s := es[|es| - 1].snapshot;
    var more := SightingsIn(StampOf(s), FlatInstances(s.machines), id);
    SightingsMembers(StampOf(s), FlatInstances(s.machines), id);
    SnapshotTimes(s, id);
    hide SightingsIn;
    hide FlatInstances;
    hide Topology.Valid;
    hide Timed;
    forall a, b | 0 <= a < b < |h + more|
      ensures Before((h + more)[a].instance.observedAtMs, (h + more)[a].at.completedAt,
                     (h + more)[b].instance.observedAtMs, (h + more)[b].at.completedAt)
    {
      if b >= |h| {
        assert a < |h|;
        var g := (h + more)[a];
        assert g in h;
        var k :| 0 <= k < |es| - 1 && es[..|es| - 1][k].Deliver?
                 && g.instance.observedAtMs <= es[..|es| - 1][k].snapshot.completedAtMs;
        assert es[k].snapshot.completedAtMs < s.startedAtMs;
        assert (h + more)[b] in more;
      }
    }
    forall g | g in more ensures CompletedWith(es, g) {
      assert es[|es| - 1].Deliver? && g.instance.observedAtMs <= es[|es| - 1].snapshot.completedAtMs;
    }
  }

  /** In every in-order history that lists an instance at most once per snapshot, peer rows are last known good. */
  lemma InOrderPeersAreLastKnownGood(es: seq<Event>, id: Uuid, d: PeerId)
    requires InOrder(es) && OncePerSnapshot(es)
    ensures LastKnownGood(Sightings(es, id), d, RowAt(Exec(EMPTY, es).peers, (id, d)))
  {
    InOrderIsIncreasing(es, id);
    PeerRowsAreLastKnownGood(es, id, d);
  }

  lemma NoSightings(d: PeerId)
    ensures LastKnownGood([], d, None)
  {
  }

  /** An instance whose routes could not be listed and that reports no peers loses no link. */
  lemma FailedRoutesDeleteNothing(t: PeerTable, at: Stamp, x: Instance)
    requires x.peers == [] && HasOperationError(x.errors, LIST_ROUTES)
    ensures PeersOfInstance(t, at, x) == t
  {
  }
}
