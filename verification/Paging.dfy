/** Pages of the read model and the walk over them with the returned cursor
    (controller/internal/readmodel/store.go:120-206). */
module Paging {
  import opened Wrappers
  import opened Topology
  import opened Tables
  import opened ReadModel
  import IngestInOrder

  const DEFAULT_LIMIT := 100

  function Limit(q: Query): (n: nat)
    ensures n > 0
  {
    if q.limit <= 0 then DEFAULT_LIMIT else q.limit
  }

  // ---------- one page ----------

  ghost function PageKeys(db: Db, q: Query): (keys: seq<Key>)
    ensures |keys| <= Limit(q)
    ensures forall k :: k in keys ==> k in MachineKeys(db, q)
  {
    var all := Ascending(MachineKeys(db, q));
    assert forall k :: k in all ==> k in MachineKeys(db, q);
    if |all| > Limit(q) then all[..Limit(q)] else all
  }

  /** A cursor is returned exactly when something is left, and it is the last machine of the page. */
  ghost function NextCursor(db: Db, q: Query): Option<Uuid> {
    var all := Ascending(MachineKeys(db, q));
    if |all| > Limit(q) then assert all[Limit(q) - 1] in MachineKeys(db, q); Some(all[Limit(q) - 1].0) else None
  }

  predicate IsMachineKey(db: Db, k: Key) { IsUuid(k.0) && k.0 in db.machines && k.1 == 0 }

  function MachineAt(db: Db, k: Key): MachineView
    requires IsMachineKey(db, k)
  {
    MachineOfRow(k.0, db.machines[k.0])
  }

  function MachineViews(db: Db, keys: seq<Key>): seq<MachineView>
    requires forall k :: k in keys ==> IsMachineKey(db, k)
  {
    seq(|keys|, i requires 0 <= i < |keys| => assert keys[i] in keys; MachineAt(db, keys[i]))
  }

  ghost function TopologyPage(db: Db, q: Query): Page {
    Page(Limit(q), NextCursor(db, q), AllNested(db, MachineViews(db, PageKeys(db, q)), q.active))
  }

  ghost predicate Readable(db: Db, q: Query) {
    forall k :: k in db.peers && Shown(db, MachineViews(db, PageKeys(db, q)), q.active, k.0) ==> Countable(db.peers[k])
  }

  /** One row more than the limit, to learn whether more is left. */
  ghost function Fetched(db: Db, q: Query): (keys: seq<Key>)
    ensures forall k :: k in keys ==> IsMachineKey(db, k)
  {
    var all := Ascending(MachineKeys(db, q));
    assert forall k :: k in all ==> k in MachineKeys(db, q);
    TakeAscends(all, if Limit(q) + 1 < |all| then Limit(q) + 1 else |all|);
    if Limit(q) + 1 < |all| then all[..Limit(q) + 1] else all
  }

  method FetchMachines(db: Db, query: Query, limit: nat) returns (machines: seq<MachineView>)
    requires limit == Limit(query)
    ensures machines == MachineViews(db, Fetched(db, query))
  {
    hide Ascending;
    var keys := Select(MachineKeys(db, query), Some(limit + 1));
    assert keys == Fetched(db, query);
    hide *;
    machines := [];
    for i := 0 to |keys|
      invariant machines == MachineViews(db, keys[..i])
    {
      ViewsStep(db, keys, i);
      machines := machines + [MachineAt(db, keys[i])];
    }
    assert keys[..|keys|] == keys;
  }

  lemma ViewsStep(db: Db, keys: seq<Key>, i: nat)
    requires (forall k :: k in keys ==> IsMachineKey(db, k)) && i < |keys|
    ensures IsMachineKey(db, keys[i])
    ensures MachineViews(db, keys[..i + 1]) == MachineViews(db, keys[..i]) + [MachineAt(db, keys[i])]
  {
    hide MachineAt;
    assert keys[i] in keys;
  }

  /** `CurrentTopology` reading one database state. */
  method CurrentTopology(db: Db, query: Query) returns (r: Result<Page, ParseError>)
    ensures r.Ok? <==> Readable(db, query)
    ensures r.Ok? ==> r.value == TopologyPage(db, query)
    ensures r.Ok? ==> r.value.limit == if query.limit >= 1 then query.limit else 100
  {
    hide AllNested;
    hide Shown;
    hide Countable;
    hide MachineViews;
    hide Fetched;
    hide PageKeys;
    hide NextCursor;
    var limit := if query.limit <= 0 then DEFAULT_LIMIT else query.limit;
    var machines := FetchMachines(db, query, limit);
    FetchedPage(db, query);
    var next: Option<Uuid> := None;
    if |machines| > limit {
      next := Some(machines[limit - 1].machineId);
      machines := machines[..limit];
    }
    var loaded := LoadInstances(db, machines, query.active);
    return if loaded.Err? then Err(loaded.error) else Ok(Page(limit, next, loaded.value));
  }

  /** How large a page is: as large as asked for, or 100 if nothing sensible was asked for, while there are machines;
      and a cursor comes with it exactly if there are more. */
  lemma PageSize(db: Db, q: Query)
    ensures var page, matching := TopologyPage(db, q), |MachineKeys(db, q)|;
            var wanted := if q.limit >= 1 then q.limit else 100;
            && page.limit == wanted && |page.machines| == (if matching <= wanted then matching else wanted)
            && (page.nextCursor.Some? <==> matching > wanted)
            && (page.nextCursor.Some? ==> page.nextCursor.value == page.machines[wanted - 1].machineId)
  {
    hide Ascending;
    hide MachineKeys;
    hide NestedInstances;
  }

  lemma FetchedPage(db: Db, q: Query)
    ensures var fetched, page := MachineViews(db, Fetched(db, q)), MachineViews(db, PageKeys(db, q));
            && page == (if |fetched| > Limit(q) then fetched[..Limit(q)] else fetched)
            && NextCursor(db, q) == (if |fetched| > Limit(q) then Some(fetched[Limit(q) - 1].machineId) else None)
            && DistinctMachines(page) && forall a :: 0 <= a < |page| ==> page[a].instances == []
  {
    hide Ascending;
    var all, keys, page := Ascending(MachineKeys(db, q)), Fetched(db, q), PageKeys(db, q);
    assert page == all[..|page|] == keys[..|page|];
    TakeViews(db, keys, |page|);
    TakeAscends(all, |page|);
    DistinctViews(db, page);
    hide MachineKeys;
    hide IsMachineKey;
    assert keys[..|keys|] == keys;
  }

  lemma TakeViews(db: Db, keys: seq<Key>, n: nat)
    requires (forall k :: k in keys ==> IsMachineKey(db, k)) && n <= |keys|
    ensures MachineViews(db, keys)[..n] == MachineViews(db, keys[..n])
  {
    hide IsMachineKey;
    hide MachineAt;
  }

  lemma DistinctViews(db: Db, keys: seq<Key>)
    requires (forall k :: k in keys ==> IsMachineKey(db, k)) && Ascends(keys)
    ensures DistinctMachines(MachineViews(db, keys))
    ensures forall a :: 0 <= a < |keys| ==> MachineViews(db, keys)[a].instances == []
  {
    forall i, j | 0 <= i < j < |keys| ensures keys[i].0 != keys[j].0 {
      assert keys[i] in keys && keys[j] in keys;
      assert Less(keys[i], keys[j]);
    }
  }

  // ---------- reachable tables can be read ----------

  ghost predicate AllFit(t: PeerTable) { forall key :: key in t ==> Countable(t[key]) }

  lemma {:induction false} UpsertPeersFit(t: PeerTable, at: Stamp, i: Instance, ps: seq<Peer>)
    requires AllFit(t)
    ensures AllFit(UpsertPeers(t, at, i, ps))
  {
    hide Before;
    if ps != [] {
      UpsertPeersFit(t, at, i, ps[..|ps| - 1]);
    }
  }

  lemma {:induction false} PeersOfInstancesFit(t: PeerTable, at: Stamp, xs: seq<Instance>)
    requires AllFit(t)
    ensures AllFit(PeersOfInstances(t, at, xs))
  {
    if xs != [] {
      PeersOfInstancesFit(t, at, xs[..|xs| - 1]);
      UpsertPeersFit(PeersOfInstances(t, at, xs[..|xs| - 1]), at, xs[|xs| - 1], xs[|xs| - 1].peers);
      hide UpsertPeers;
      hide Countable;
      hide Stale;
    }
  }

  lemma {:induction false} ReachableCountersFit(es: seq<Event>)
    ensures AllFit(Exec(EMPTY, es).peers)
  {
    hide Apply;
    hide Accepts;
    if es != [] {
      var db, e := Exec(EMPTY, es[..|es| - 1]), es[|es| - 1];
      ReachableCountersFit(es[..|es| - 1]);
      ApplyCurrent(db, e);
      if e.Deliver? {
        PeersOfInstancesFit(db.peers, StampOf(e.snapshot), FlatInstances(e.snapshot.machines));
      }
    }
  }

  /** Whatever was delivered and in whatever order, every page of the resulting tables can be read: the counters that
      reach a table fit the 64 bits into which they are parsed. */
  lemma ReachablePagesAreReadable(es: seq<Event>, q: Query)
    ensures Readable(Exec(EMPTY, es), q)
  {
    ReachableCountersFit(es);
    hide Exec;
    hide Countable;
  }

  // ---------- matching ----------

  /** What a query without paging asks for. */
  predicate Matches(db: Db, q: Query, id: Uuid) {
    && id in db.machines && Wanted(q.active, db.machines[id].active) && (q.machineId.None? || id == q.machineId.value)
  }

  predicate After(cursor: Option<Uuid>, id: Uuid) { cursor.None? || cursor.value < id }

  lemma MachineKeyMember(db: Db, q: Query, k: Key)
    ensures k in MachineKeys(db, q) <==> IsUuid(k.0) && k.1 == 0 && Matches(db, q, k.0) && After(q.cursor, k.0)
    ensures k in MachineKeys(db, q)
        <==> && IsUuid(k.0) && k.1 == 0 && k.0 in db.machines
             && (q.active.Some? ==> db.machines[k.0].active == q.active.value)
             && (q.machineId.Some? ==> k.0 == q.machineId.value) && (q.cursor.Some? ==> q.cursor.value < k.0)
  {
    if IsUuid(k.0) && k.1 == 0 && Matches(db, q, k.0) && After(q.cursor, k.0) {
      assert k == (k.0, 0);
    }
  }

  /** What a page holds: matching machines past the cursor, in order; the cursor it returns lies past the old one, and
      what it left out lies past the cursor it returns. */
  lemma PageHolds(db: Db, q: Query)
    ensures Ascends(PageKeys(db, q))
    ensures forall k :: k in PageKeys(db, q) ==> IsUuid(k.0) && k.1 == 0 && Matches(db, q, k.0) && After(q.cursor, k.0)
    ensures NextCursor(db, q).Some? ==>
              && |PageKeys(db, q)| == Limit(q) && After(q.cursor, NextCursor(db, q).value)
              && forall k :: k in PageKeys(db, q) ==> k.0 <= NextCursor(db, q).value
    ensures forall id: Uuid :: Matches(db, q, id) && After(q.cursor, id) && (id, 0) !in PageKeys(db, q) ==>
              NextCursor(db, q).Some? && NextCursor(db, q).value < id
  {
    hide Ascending;
    var all, page := Ascending(MachineKeys(db, q)), PageKeys(db, q);
    AllMatch(db, q);
    assert page == all[..|page|];
    TakeAscends(all, |page|);
    assert NextCursor(db, q).Some? ==>
             |page| == Limit(q) && all[|page| - 1] in all && NextCursor(db, q).value == all[|page| - 1].0;
    assert NextCursor(db, q).None? ==> |page| == |all|;
    hide NextCursor;
    hide PageKeys;
    hide MachineKeys;
    hide Matches;
    hide FirstOf;
    hide Ascends;
    forall id: Uuid | Matches(db, q, id) && After(q.cursor, id) && (id, 0) !in page
      ensures NextCursor(db, q).Some? && NextCursor(db, q).value < id
    {
      assert (id, 0) in all;
    }
  }

  lemma AllMatch(db: Db, q: Query)
    ensures forall k :: k in Ascending(MachineKeys(db, q)) <==>
              IsUuid(k.0) && k.1 == 0 && Matches(db, q, k.0) && After(q.cursor, k.0)
  {
    hide Ascending;
    forall k: Key ensures k in Ascending(MachineKeys(db, q)) <==>
                            IsUuid(k.0) && k.1 == 0 && Matches(db, q, k.0) && After(q.cursor, k.0)
    {
      MachineKeyMember(db, q, k);
    }
  }

  // ---------- the walk ----------

  /** Whether the walk is over by the end of these database states, one for each page. */
  ghost predicate Ended(dbs: seq<Db>, q: Query) {
    dbs != [] && (NextCursor(dbs[0], q).None? || Ended(dbs[1..], q.(cursor := NextCursor(dbs[0], q))))
  }

  /** The machines on the pages of the walk, in the order in which they are returned. */
  ghost function Visited(dbs: seq<Db>, q: Query): seq<Key> {
    if dbs == [] then []
    else PageKeys(dbs[0], q)
         + if NextCursor(dbs[0], q).None? then [] else Visited(dbs[1..], q.(cursor := NextCursor(dbs[0], q)))
  }

  /** Every machine on the walk matched the filters when its page was read. */
  ghost predicate Seen(dbs: seq<Db>, q: Query, k: Key) {
    IsUuid(k.0) && k.1 == 0 && After(q.cursor, k.0) && exists i :: 0 <= i < |dbs| && Matches(dbs[i], q, k.0)
  }

  lemma SeenLater(dbs: seq<Db>, q: Query, next: Uuid, k: Key)
    requires dbs != [] && After(q.cursor, next) && Seen(dbs[1..], q.(cursor := Some(next)), k)
    ensures Seen(dbs, q, k)
  {
    var i :| 0 <= i < |dbs[1..]| && Matches(dbs[1..][i], q.(cursor := Some(next)), k.0);
    assert Matches(dbs[i + 1], q, k.0);
  }

  /** Strictly increasing, so nothing is repeated, whatever is ingested between the pages. */
  lemma {:induction false} WalkAscends(dbs: seq<Db>, q: Query)
    ensures Ascends(Visited(dbs, q))
    ensures forall k :: k in Visited(dbs, q) ==> Seen(dbs, q, k)
    decreases |dbs|
  {
    if dbs != [] {
      hide Matches;
      hide PageKeys;
      hide NextCursor;
      PageHolds(dbs[0], q);
      var page := PageKeys(dbs[0], q);
      forall k | k in page ensures Seen(dbs, q, k) {
        assert Matches(dbs[0], q, k.0);
      }
      if NextCursor(dbs[0], q).Some? {
        var next := NextCursor(dbs[0], q).value;
        var rest := Visited(dbs[1..], q.(cursor := Some(next)));
        WalkAscends(dbs[1..], q.(cursor := Some(next)));
        forall k | k in rest ensures Seen(dbs, q, k) && next < k.0 {
          SeenLater(dbs, q, next, k);
        }
        hide Seen;
        forall i, j | 0 <= i < |page| && 0 <= j < |rest| ensures Less(page[i], rest[j]) {
          assert page[i] in page && rest[j] in rest;
        }
      }
    }
  }

  const UUIDS: nat := 0x1_0000_0000_0000_0000_0000_0000_0000_0000

  function Start(q: Query): nat { if q.cursor.None? then 0 else q.cursor.value + 1 }

  /** The walk ends: the cursor only grows, and there are only so many ids. */
  lemma {:induction false} WalkEnds(dbs: seq<Db>, q: Query)
    requires |dbs| + Start(q) > UUIDS
    ensures Ended(dbs, q)
    decreases |dbs|
  {
    assert dbs != [];
    PageHolds(dbs[0], q);
    hide PageKeys;
    hide NextCursor;
    if NextCursor(dbs[0], q).Some? {
      WalkEnds(dbs[1..], q.(cursor := NextCursor(dbs[0], q)));
    }
  }

  /** A machine that matches throughout a finished walk is on it; by `WalkAscends`, exactly once. */
  lemma {:induction false} NothingMissed(dbs: seq<Db>, q: Query, id: Uuid)
    requires Ended(dbs, q) && After(q.cursor, id)
    requires forall i :: 0 <= i < |dbs| ==> Matches(dbs[i], q, id)
    ensures (id, 0) in Visited(dbs, q)
    decreases |dbs|
  {
    PageHolds(dbs[0], q);
    assert Matches(dbs[0], q, id);
    hide PageKeys;
    hide NextCursor;
    if (id, 0) !in PageKeys(dbs[0], q) {
      var q' := q.(cursor := NextCursor(dbs[0], q));
      forall i | 0 <= i < |dbs[1..]| ensures Matches(dbs[1..][i], q', id) {
        assert Matches(dbs[i + 1], q, id);
      }
      hide Matches;
      NothingMissed(dbs[1..], q', id);
    }
  }

  /** On a table that does not change, the pages concatenate to the whole sorted result. */
  lemma FixedTable(dbs: seq<Db>, q: Query, db: Db)
    requires Ended(dbs, q) && forall i :: 0 <= i < |dbs| ==> dbs[i] == db
    ensures Visited(dbs, q) == Ascending(MachineKeys(db, q))
  {
    hide Ascending;
    WalkAscends(dbs, q);
    hide PageKeys;
    hide NextCursor;
    hide Visited;
    var keys := MachineKeys(db, q);
    forall k: Key ensures k in Visited(dbs, q) <==> k in keys {
      MachineKeyMember(db, q, k);
      hide Matches;
      hide MachineKeys;
      if k in keys {
        NothingMissed(dbs, q, k.0);
        assert k == (k.0, 0);
      }
    }
    FirstOfAscending(Visited(dbs, q), keys, None);
  }

  /** What is left after a full page. */
  lemma NextKeys(db: Db, q: Query)
    requires NextCursor(db, q).Some?
    ensures |MachineKeys(db, q.(cursor := NextCursor(db, q)))| == |MachineKeys(db, q)| - Limit(q)
  {
    hide Ascending;
    var n, all := Limit(q), Ascending(MachineKeys(db, q));
    var q' := q.(cursor := NextCursor(db, q));
    assert all[n - 1] in all;
    AllMatch(db, q);
    forall k: Key ensures k in MachineKeys(db, q') <==> k in all[n..] {
      MachineKeyMember(db, q', k);
      LeftOver(all, n, k);
    }
    hide MachineKeys;
    FirstOfAscending(all[n..], MachineKeys(db, q'), None);
  }

  lemma LeftOver(all: seq<Key>, n: nat, k: Key)
    requires Ascends(all) && 0 < n < |all|
    ensures k in all[n..] <==> k in all && Less(all[n - 1], k)
    ensures Ascends(all[n..])
  {
    if k in all && Less(all[n - 1], k) {
      var i :| 0 <= i < |all| && all[i] == k;
      assert n <= i;
      assert all[n..][i - n] == k;
    }
  }

  lemma Pages(n: nat, limit: nat, keys: nat)
    requires n > 0 && n * limit >= keys > limit
    ensures n > 1 && (n - 1) * limit >= keys - limit
  {
  }

  lemma CursorLeavesMore(db: Db, q: Query)
    ensures NextCursor(db, q).Some? ==> |MachineKeys(db, q)| > Limit(q)
  {
    hide Ascending;
  }

  /** On a table that does not change the walk needs no more pages than it takes to hold the result. */
  lemma {:induction false} WalkLength(dbs: seq<Db>, q: Query, db: Db)
    requires dbs != [] && forall i :: 0 <= i < |dbs| ==> dbs[i] == db
    requires |dbs| * Limit(q) >= |MachineKeys(db, q)|
    ensures Ended(dbs, q)
    decreases |dbs|
  {
    hide MachineKeys;
    hide NextCursor;
    CursorLeavesMore(db, q);
    assert dbs[0] == db;
    if NextCursor(db, q).Some? {
      NextKeys(db, q);
      Pages(|dbs|, Limit(q), |MachineKeys(db, q)|);
      WalkLength(dbs[1..], q.(cursor := NextCursor(db, q)), db);
    }
  }

  // ---------- what the pages show ----------

  ghost predicate ShowsInstance(db: Db, machine: Uuid, active: Option<bool>, id: Uuid) {
    exists x :: x in NestedInstances(db, machine, active) && x.instanceId == id
  }

  lemma NestedIds(db: Db, machine: Uuid, active: Option<bool>)
    ensures var keys, xs := Ascending(InstanceKeys(db, {machine}, active)), NestedInstances(db, machine, active);
            |xs| == |keys| && forall i :: 0 <= i < |keys| ==> xs[i].instanceId == keys[i].1
  {
    hide Ascending;
    hide NestedPeers;
    var keys := Ascending(InstanceKeys(db, {machine}, active));
    InstanceKeysAre(db, {machine}, active, keys);
    hide InstanceKeys;
    forall i | 0 <= i < |keys| ensures NestedInstances(db, machine, active)[i].instanceId == keys[i].1 {
      assert keys[i] in keys;
    }
  }

  ghost predicate HasChild(keys: seq<Key>, id: nat) { exists i :: 0 <= i < |keys| && keys[i].1 == id }

  lemma InstanceRows(db: Db, machine: Uuid, active: Option<bool>, id: Uuid)
    ensures HasChild(Ascending(InstanceKeys(db, {machine}, active)), id)
        <==> id in db.instances && db.instances[id].machineId == machine && Wanted(active, db.instances[id].active)
  {
    hide Ascending;
    var keys := Ascending(InstanceKeys(db, {machine}, active));
    InstanceKeysAre(db, {machine}, active, keys);
    hide InstanceKeys;
    hide FirstOf;
    hide DistinctChildren;
    if HasChild(keys, id) {
      var i :| 0 <= i < |keys| && keys[i].1 == id;
      assert keys[i] in keys;
    }
    if id in db.instances && db.instances[id].machineId == machine && Wanted(active, db.instances[id].active) {
      assert (machine, id) in keys;
      var i :| 0 <= i < |keys| && keys[i] == (machine, id);
    }
  }

  lemma NestedMembers(db: Db, machine: Uuid, active: Option<bool>, id: Uuid)
    ensures ShowsInstance(db, machine, active, id)
        <==> id in db.instances && db.instances[id].machineId == machine && Wanted(active, db.instances[id].active)
  {
    hide Ascending;
    hide InstanceKeys;
    hide NestedInstances;
    hide FirstOf;
    hide Wanted;
    var keys, xs := Ascending(InstanceKeys(db, {machine}, active)), NestedInstances(db, machine, active);
    NestedIds(db, machine, active);
    InstanceRows(db, machine, active, id);
    if ShowsInstance(db, machine, active, id) {
      var x :| x in xs && x.instanceId == id;
      var i :| 0 <= i < |xs| && xs[i] == x;
      assert keys[i].1 == id;
    }
    if HasChild(keys, id) {
      var i :| 0 <= i < |keys| && keys[i].1 == id;
      assert xs[i] in xs;
    }
  }

  // ---------- what is shown of a row ----------

  predicate ShowsMachine(m: MachineView, r: MachineRow) {
    && m.info == r.info && m.active == r.active && m.disappearedAt == r.disappearedAt
    && m.lastObservedAt == r.observedAt && m.lastCollectionId == r.collectionId
  }

  /** The row of an instance, joined with its node if it has one. */
  predicate ShowsInstanceRow(db: Db, x: InstanceView, r: InstanceRow) {
    && x.active == r.active && x.disappearedAt == r.disappearedAt
    && x.lastObservedAt == r.observedAt && x.lastCollectionId == r.collectionId
    && (x.node.Some? <==> x.instanceId in db.nodes)
    && (x.node.Some? ==>
          var n, row := x.node.value, db.nodes[x.instanceId];
          && n.peerId == row.node.peerId && n.ipv4 == row.node.ipv4 && n.hostname == row.node.hostname
          && (row.node.proxyCidrs.Some? ==> n.proxyCidrs == row.node.proxyCidrs.value)
          && (row.node.listeners.Some? ==> n.listeners == row.node.listeners.value)
          && n.version == row.node.version && n.lastObservedAt == row.observedAt)
  }

  predicate ShowsPeer(p: PeerView, r: PeerRow) {
    && p.route == r.route && p.latencyMs == r.latencyMs && p.lossRate == r.details.lossRate
    && p.rxBytes == r.details.rxBytes && p.txBytes == r.details.txBytes && p.lastObservedAt == r.observedAt
    && (r.details.tunnelProtocols.Some? ==> p.tunnelProtocols == r.details.tunnelProtocols.value)
  }

  /** The instances under a machine, in order of their ids: each shows its row and, in order of their ids, its peers. */
  lemma NestedRows(db: Db, machine: Uuid, active: Option<bool>)
    ensures var xs := NestedInstances(db, machine, active);
            && (forall i, j :: 0 <= i < j < |xs| ==> xs[i].instanceId < xs[j].instanceId)
            && (forall i :: 0 <= i < |xs| ==>
                  && xs[i].instanceId in db.instances && db.instances[xs[i].instanceId].machineId == machine
                  && (active.Some? ==> db.instances[xs[i].instanceId].active == active.value)
                  && ShowsInstanceRow(db, xs[i], db.instances[xs[i].instanceId])
                  && xs[i].peers == NestedPeers(db, xs[i].instanceId))
  {
    hide Ascending;
    hide NestedPeers;
    var keys := Ascending(InstanceKeys(db, {machine}, active));
    InstanceKeysAre(db, {machine}, active, keys);
    assert forall k :: k in keys ==> k in InstanceKeys(db, {machine}, active);
    hide InstanceKeys;
    forall i | 0 <= i < |keys| ensures keys[i].0 == machine && keys[i] in keys {
      assert keys[i] in keys;
    }
  }

  lemma NestedPeerRows(db: Db, instance: Uuid)
    ensures var ps := NestedPeers(db, instance);
            && (forall i, j :: 0 <= i < j < |ps| ==> ps[i].peerId < ps[j].peerId)
            && (forall i :: 0 <= i < |ps| ==>
                  (instance, ps[i].peerId) in db.peers && ShowsPeer(ps[i], db.peers[(instance, ps[i].peerId)]))
            && (forall d: PeerId :: (instance, d) in db.peers ==> exists i :: 0 <= i < |ps| && ps[i].peerId == d)
  {
    hide Ascending;
    var keys := Ascending(PeerKeys(db, {instance}));
    PeerKeysAre(db, {instance}, keys);
    hide PeerKeys;
    forall i | 0 <= i < |keys| ensures keys[i].0 == instance && keys[i] in keys {
      assert keys[i] in keys;
    }
    forall d: PeerId | (instance, d) in db.peers
      ensures exists i :: 0 <= i < |keys| && NestedPeers(db, instance)[i].peerId == d
    {
      assert (instance as nat, d as nat) in keys;
      var i :| 0 <= i < |keys| && keys[i] == (instance, d);
      assert NestedPeers(db, instance)[i].peerId == d;
    }
  }

  /** A page shows the rows it was read from: every machine on it, with exactly its own matching instances, each with
      exactly its own peers. */
  lemma PageShowsTheRows(db: Db, q: Query, a: nat)
    requires a < |TopologyPage(db, q).machines|
    ensures var m := TopologyPage(db, q).machines[a];
            && m.machineId in db.machines && ShowsMachine(m, db.machines[m.machineId])
            && (q.active.Some? ==> m.active == q.active.value)
            && (q.machineId.Some? ==> m.machineId == q.machineId.value)
            && (q.cursor.Some? ==> q.cursor.value < m.machineId)
            && m.instances == NestedInstances(db, m.machineId, q.active)
  {
    hide Ascending;
    hide NestedInstances;
    var keys := PageKeys(db, q);
    assert keys[a] in keys;
    MachineKeyMember(db, q, keys[a]);
    hide MachineKeys;
    hide PageKeys;
  }

  /** From the poller to the screen: after any in-order history, walking the active topology shows exactly the machines
      of the fold, and under each exactly the instances that the fold gives it. */
  lemma WalkShowsTheFold(es: seq<Event>, dbs: seq<Db>, limit: int, m: Uuid, id: Uuid)
    requires IngestInOrder.InOrder(es)
    requires var q := Query(Some(true), None, None, limit); Ended(dbs, q)
    requires forall i :: 0 <= i < |dbs| ==> dbs[i] == Exec(EMPTY, es)
    ensures var q := Query(Some(true), None, None, limit);
            var v := IngestInOrder.FoldView(es);
            && ((m, 0) in Visited(dbs, q) <==> m in v.machines)
            && (ShowsInstance(Exec(EMPTY, es), m, Some(true), id) <==> id in v.instances && v.instances[id] == m)
            && (id in v.instances ==> (v.instances[id], 0) in Visited(dbs, q))
  {
    hide Ascending;
    var q := Query(Some(true), None, None, limit);
    var db := Exec(EMPTY, es);
    IngestInOrder.FoldFromNothing(es);
    IngestInOrder.FoldHasNoOrphans(IngestInOrder.View({}, map[]), es);
    FixedTable(dbs, q, db);
    MachineKeyMember(db, q, (m, 0));
    NestedMembers(db, m, Some(true), id);
    hide Exec;
    hide IngestInOrder.FoldView;
    hide IngestInOrder.InOrder;
    hide Visited;
    hide MachineKeys;
    hide ShowsInstance;
    var v := IngestInOrder.FoldView(es);
    if id in v.instances {
      MachineKeyMember(db, q, (v.instances[id], 0));
    }
  }
}
