/** The paged read model: three queries joined through index maps, against asking for each machine's instances and
    each instance's peers one at a time (controller/internal/readmodel/store.go:120-206, 265-422). */
module ReadModel {
  import opened Wrappers
  import opened Topology
  import opened Tables
  import Text

  // ---------- ORDER BY, with and without LIMIT ----------

  type Key = (nat, nat)

  predicate Less(a: Key, b: Key) { a.0 < b.0 || (a.0 == b.0 && a.1 < b.1) }

  predicate Ascends(s: seq<Key>) { forall i, j :: 0 <= i < j < |s| ==> Less(s[i], s[j]) }

  /** The first keys of the set in order, at most `limit` of them. */
  ghost predicate FirstOf(s: seq<Key>, keys: set<Key>, limit: Option<nat>) {
    && Ascends(s)
    && (limit.Some? ==> |s| <= limit.value)
    && (forall k :: k in s ==> k in keys)
    && (forall k :: k in keys && k !in s ==> limit == Some(|s|) && forall t :: t in s ==> Less(t, k))
  }

  lemma LeastExists(keys: set<Key>) returns (k: Key)
    requires keys != {}
    ensures k in keys && forall t :: t in keys ==> t == k || Less(k, t)
  {
    var any :| any in keys;
    var rest := keys - {any};
    k := any;
    if rest != {} {
      var m := LeastExists(rest);
      k := if Less(any, m) then any else m;
    }
    assert forall t :: t in keys ==> t == any || t in rest;
  }

  /** The whole set in order. */
  ghost function Ascending(keys: set<Key>): (s: seq<Key>)
    ensures FirstOf(s, keys, None) && |s| == |keys|
  {
    AscendingExists(keys);
    var s :| FirstOf(s, keys, None) && |s| == |keys|;
    s
  }

  lemma AscendingExists(keys: set<Key>)
    ensures exists s :: FirstOf(s, keys, None) && |s| == |keys|
  {
    if keys == {} {
      assert FirstOf([], keys, None);
    } else {
      var k := LeastExists(keys);
      AscendingExists(keys - {k});
      var rest :| FirstOf(rest, keys - {k}, None) && |rest| == |keys - {k}|;
      assert FirstOf([k] + rest, keys, None);
    }
  }

  lemma TailKeys(s: seq<Key>)
    requires s != [] && Ascends(s)
    ensures Ascends(s[1..]) && s[0] !in s[1..]
    ensures forall k :: k in s <==> k == s[0] || k in s[1..]
    ensures forall k :: k in s[1..] ==> Less(s[0], k)
  {
    assert s == [s[0]] + s[1..];
  }

  /** What stands first in order is a prefix of the whole. */
  lemma {:induction false} PrefixOfWhole(s: seq<Key>, a: seq<Key>, keys: set<Key>)
    requires FirstOf(a, keys, None) && Ascends(s) && (forall k :: k in s ==> k in keys)
    requires forall k, t :: k in keys && k !in s && t in s ==> Less(t, k)
    ensures |s| <= |a| && s == a[..|s|]
  {
    if s != [] {
      assert s[0] in s && s[0] in keys && s[0] in a;
      TailKeys(s);
      TailKeys(a);
      assert a[0] == s[0] by {
        assert a[0] in keys;
        assert a[0] in s ==> a[0] == s[0] || Less(s[0], a[0]);
      }
      assert FirstOf(a[1..], keys - {a[0]}, None);
      PrefixOfWhole(s[1..], a[1..], keys - {a[0]});
      assert s == [s[0]] + s[1..] && a == [a[0]] + a[1..];
    }
  }

  /** There is only one such sequence. */
  lemma FirstOfAscending(s: seq<Key>, keys: set<Key>, limit: Option<nat>)
    requires FirstOf(s, keys, limit)
    ensures |s| <= |Ascending(keys)| && s == Ascending(keys)[..|s|]
    ensures |s| < |Ascending(keys)| ==> limit == Some(|s|)
  {
    hide Ascending;
    var a := Ascending(keys);
    PrefixOfWhole(s, a, keys);
    if |s| < |a| {
      assert a[|s|] in a && a[|s|] in keys;
      forall k | k in s ensures Less(k, a[|s|]) {
        var i :| 0 <= i < |s| && s[i] == k;
        assert s[i] == a[i];
      }
      assert a[|s|] !in s;
    }
  }

  /** A prefix of an ascending sequence: what is left out lies past its last element. */
  lemma TakeAscends(all: seq<Key>, n: nat)
    requires Ascends(all) && n <= |all|
    ensures Ascends(all[..n])
    ensures forall k :: k in all[..n] ==> k in all && n > 0 && (k == all[n - 1] || Less(k, all[n - 1]))
    ensures forall k :: k in all && k !in all[..n] ==> n < |all| && (n > 0 ==> Less(all[n - 1], k))
  {
    forall i | 0 <= i < n ensures all[i] in all[..n] {
      assert all[..n][i] == all[i];
    }
    forall k | k in all && k !in all[..n] ensures n < |all| && (n > 0 ==> Less(all[n - 1], k)) {
      var i :| 0 <= i < |all| && all[i] == k;
      assert n <= i;
    }
  }

  /** Selecting the least of what is left, over and over. */
  method Select(keys: set<Key>, limit: Option<nat>) returns (s: seq<Key>)
    ensures s == if limit.Some? && limit.value < |keys| then Ascending(keys)[..limit.value] else Ascending(keys)
  {
    hide Ascending;
    s := [];
    var left := keys;
    while (limit.Some? ==> |s| < limit.value) && left != {}
      invariant left <= keys && forall k :: k in s <==> k in keys && k !in left
      invariant Ascends(s) && forall t, k :: t in s && k in left ==> Less(t, k)
      invariant limit.Some? ==> |s| <= limit.value
      decreases left
    {
      ghost var w := LeastExists(left);
      var k :| k in left && forall t :: t in left ==> t == k || Less(k, t);
      s, left := s + [k], left - {k};
    }
    FirstOfAscending(s, keys, limit);
  }

  // ---------- one parent's part ----------

  /** The keys of one parent, in order. */
  function Of(s: seq<Key>, parent: nat): seq<Key> {
    if s == [] then []
    else Of(s[..|s| - 1], parent) + if s[|s| - 1].0 == parent then [s[|s| - 1]] else []
  }

  lemma OfStep(s: seq<Key>, k: Key, parent: nat)
    ensures Of(s + [k], parent) == Of(s, parent) + if k.0 == parent then [k] else []
  {
    assert (s + [k])[..|s|] == s;
  }

  lemma {:induction false} OfMembers(s: seq<Key>, parent: nat)
    ensures forall k :: k in Of(s, parent) <==> k in s && k.0 == parent
    ensures Ascends(s) ==> Ascends(Of(s, parent))
  {
    if s != [] {
      OfMembers(s[..|s| - 1], parent);
      assert s == s[..|s| - 1] + [s[|s| - 1]];
      if Ascends(s) {
        assert forall i :: 0 <= i < |s| - 1 ==> Less(s[i], s[|s| - 1]);
      }
    }
  }

  /** Of a result ordered by parent and child, the part of one parent is what asking for that parent alone gives. */
  lemma PartIsOwnResult(keys: set<Key>, parent: nat)
    ensures Of(Ascending(keys), parent) == Ascending(set k | k in keys && k.0 == parent)
  {
    hide Ascending;
    var own := set k | k in keys && k.0 == parent;
    OfMembers(Ascending(keys), parent);
    FirstOfAscending(Of(Ascending(keys), parent), own, None);
  }

  // ---------- queries and what they return ----------

  datatype Query = Query(active: Option<bool>, machineId: Option<Uuid>, cursor: Option<Uuid>, limit: int)

  datatype PeerView = PeerView(
    peerId: PeerId, route: Route, latencyMs: Option<real>, lossRate: Option<real>, rxBytes: Option<nat>,
    txBytes: Option<nat>,
    tunnelProtocols: seq<string>, lastObservedAt: nat)

  datatype NodeView = NodeView(
    peerId: PeerId, ipv4: string, hostname: string, proxyCidrs: seq<string>, listeners: seq<string>, version: string,
    lastObservedAt: nat)

  datatype InstanceView = InstanceView(
    instanceId: Uuid, active: bool, disappearedAt: Option<nat>, lastObservedAt: nat, lastCollectionId: Uuid,
    node: Option<NodeView>, peers: seq<PeerView>)

  datatype MachineView = MachineView(
    machineId: Uuid, info: MachineInfo, active: bool, disappearedAt: Option<nat>, lastObservedAt: nat,
    lastCollectionId: Uuid, instances: seq<InstanceView>)

  datatype Page = Page(limit: nat, nextCursor: Option<Uuid>, machines: seq<MachineView>)

  datatype ParseError = ParseError(counter: Text.Str)

  // ---------- rows ----------

  function NonNil(s: Option<seq<string>>): seq<string> { if s.Some? then s.value else [] }

  predicate Wanted(active: Option<bool>, rowActive: bool) { active.None? || rowActive == active.value }

  function MachineOfRow(id: Uuid, r: MachineRow): MachineView {
    MachineView(id, r.info, r.active, r.disappearedAt, r.observedAt, r.collectionId, [])
  }

  function NodeOfRow(r: NodeRow): NodeView {
    NodeView(r.node.peerId, r.node.ipv4, r.node.hostname, NonNil(r.node.proxyCidrs), NonNil(r.node.listeners),
             r.node.version, r.observedAt)
  }

  /** A row of `network_instances` left-joined with `nodes`. */
  function InstanceOfRow(id: Uuid, r: InstanceRow, node: Option<NodeRow>): InstanceView {
    InstanceView(id, r.active, r.disappearedAt, r.observedAt, r.collectionId,
                 if node.Some? then Some(NodeOfRow(node.value)) else None, [])
  }

  function PeerOfRow(id: PeerId, r: PeerRow): PeerView {
    PeerView(id, r.route, r.latencyMs, r.details.lossRate, r.details.rxBytes, r.details.txBytes,
             NonNil(r.details.tunnelProtocols), r.observedAt)
  }

  predicate Fits(counter: Option<nat>) { counter.Some? ==> counter.value < 0x1_0000_0000_0000_0000 }

  predicate Countable(r: PeerRow) { Fits(r.details.rxBytes) && Fits(r.details.txBytes) }

  /** What the query sends for a numeric column cast to text. */
  function AsText(counter: Option<nat>): Option<Text.Str> {
    if counter.Some? then Some(Text.FormatNat(counter.value)) else None
  }

  /** `parseOptionalUint64`. */
  method ParseOptionalUint64(text: Option<Text.Str>) returns (r: Result<Option<nat>, ParseError>)
    ensures forall counter :: text == AsText(counter) ==> (r.Ok? <==> Fits(counter)) && (r.Ok? ==> r.value == counter)
  {
    forall counter: Option<nat> | text == AsText(counter)
      ensures counter.Some? ==> text.Some? && Text.ParseUint(text.value) == if Fits(counter) then counter else None
    {
      if counter.Some? {
        Text.ParseFormatUint(counter.value);
      }
    }
    if text.None? {
      return Ok(None);
    }
    var parsed := Text.ParseUint(text.value);
    return if parsed.None? then Err(ParseError(text.value)) else Ok(parsed);
  }

  // ---------- the three queries ----------

  function MachineKeys(db: Db, q: Query): set<Key> {
    set id | id in db.machines
             && Wanted(q.active, db.machines[id].active)
             && (q.machineId.None? || id == q.machineId.value)
             && (q.cursor.None? || q.cursor.value < id) :: (id, 0)
  }

  function InstanceKeys(db: Db, machines: set<nat>, active: Option<bool>): set<Key> {
    set id | id in db.instances && db.instances[id].machineId in machines && Wanted(active, db.instances[id].active)
      :: (db.instances[id].machineId, id)
  }

  function PeerKeys(db: Db, instances: set<nat>): set<Key> {
    set k | k in db.peers && k.0 in instances :: (k.0, k.1)
  }

  function NodeAt(db: Db, id: Uuid): Option<NodeRow> { if id in db.nodes then Some(db.nodes[id]) else None }

  predicate IsInstanceKey(db: Db, k: Key) { IsUuid(k.1) && k.1 in db.instances && db.instances[k.1].machineId == k.0 }

  predicate IsPeerKey(db: Db, k: Key) { IsUuid(k.0) && IsPeerId(k.1) && (k.0, k.1) in db.peers }

  predicate IsUuid(n: nat) { n < 0x1_0000_0000_0000_0000_0000_0000_0000_0000 }

  predicate IsPeerId(n: nat) { n < 0x1_0000_0000 }

  function InstanceAt(db: Db, k: Key): InstanceView
    requires IsInstanceKey(db, k)
  {
    InstanceOfRow(k.1, db.instances[k.1], NodeAt(db, k.1))
  }

  function PeerAt(db: Db, k: Key): PeerView
    requires IsPeerKey(db, k)
  {
    PeerOfRow(k.1, db.peers[(k.0, k.1)])
  }

  function InstanceViews(db: Db, keys: seq<Key>): seq<InstanceView>
    requires forall k :: k in keys ==> IsInstanceKey(db, k)
  {
    seq(|keys|, i requires 0 <= i < |keys| => assert keys[i] in keys; InstanceAt(db, keys[i]))
  }

  function PeerViews(db: Db, keys: seq<Key>): seq<PeerView>
    requires forall k :: k in keys ==> IsPeerKey(db, k)
  {
    seq(|keys|, i requires 0 <= i < |keys| => assert keys[i] in keys; PeerAt(db, keys[i]))
  }

  // ---------- the naive nested result ----------

  ghost function NestedPeers(db: Db, instance: Uuid): seq<PeerView> {
    PeerViews(db, Ascending(PeerKeys(db, {instance})))
  }

  ghost function WithPeers(db: Db, xs: seq<InstanceView>): seq<InstanceView> {
    seq(|xs|, i requires 0 <= i < |xs| => xs[i].(peers := NestedPeers(db, xs[i].instanceId)))
  }

  ghost function NestedInstances(db: Db, machine: Uuid, active: Option<bool>): seq<InstanceView> {
    WithPeers(db, InstanceViews(db, Ascending(InstanceKeys(db, {machine}, active))))
  }

  // ---------- load peers ----------

  /** The index: where each instance is, and nothing else. */
  ghost predicate Located(ms: seq<MachineView>, locations: map<Uuid, (nat, nat)>) {
    && (forall id :: id in locations ==>
          && locations[id].0 < |ms| && locations[id].1 < |ms[locations[id].0].instances|
          && ms[locations[id].0].instances[locations[id].1].instanceId == id)
    && (forall a, b :: 0 <= a < |ms| && 0 <= b < |ms[a].instances| ==>
          ms[a].instances[b].instanceId in locations && locations[ms[a].instances[b].instanceId] == (a, b))
  }

  /** Every instance with the peers among the first rows that are its own. */
  ghost function Attached(db: Db, xs: seq<InstanceView>, keys: seq<Key>): seq<InstanceView>
    requires forall k :: k in keys ==> IsPeerKey(db, k)
  {
    seq(|xs|, i requires 0 <= i < |xs| =>
      OfMembers(keys, xs[i].instanceId);
      xs[i].(peers := PeerViews(db, Of(keys, xs[i].instanceId))))
  }

  function WithPeer(x: InstanceView, p: PeerView): InstanceView { x.(peers := x.peers + [p]) }

  lemma AttachStep(db: Db, xs: seq<InstanceView>, keys: seq<Key>, k: Key, i: nat)
    requires (forall t :: t in keys ==> IsPeerKey(db, t)) && IsPeerKey(db, k) && i < |xs|
    ensures Attached(db, xs, keys + [k])[i]
            == if xs[i].instanceId == k.0 then WithPeer(Attached(db, xs, keys)[i], PeerAt(db, k))
               else Attached(db, xs, keys)[i]
  {
    hide PeerAt;
    OfStep(keys, k, xs[i].instanceId);
    OfMembers(keys, xs[i].instanceId);
  }

  ghost predicate AllAttached(db: Db, ms: seq<MachineView>, cur: seq<MachineView>, keys: seq<Key>)
    requires forall k :: k in keys ==> IsPeerKey(db, k)
  {
    |cur| == |ms| && forall a :: 0 <= a < |ms| ==> cur[a] == ms[a].(instances := Attached(db, ms[a].instances, keys))
  }

  predicate InRange(ms: seq<MachineView>, at: (nat, nat)) { at.0 < |ms| && at.1 < |ms[at.0].instances| }

  /** Appending a peer in place. */
  function AppendPeer(ms: seq<MachineView>, at: (nat, nat), p: PeerView): seq<MachineView>
    requires InRange(ms, at)
  {
    var xs := ms[at.0].instances;
    ms[at.0 := ms[at.0].(instances := xs[at.1 := WithPeer(xs[at.1], p)])]
  }

  lemma AllAttachedStep(db: Db, ms: seq<MachineView>, cur: seq<MachineView>, keys: seq<Key>, k: Key,
                        locations: map<Uuid, (nat, nat)>)
    requires (forall t :: t in keys ==> IsPeerKey(db, t)) && IsPeerKey(db, k)
    requires AllAttached(db, ms, cur, keys) && Located(ms, locations) && k.0 in locations
    ensures InRange(cur, locations[k.0])
    ensures AllAttached(db, ms, AppendPeer(cur, locations[k.0], PeerAt(db, k)), keys + [k])
  {
    hide PeerAt;
    var at := locations[k.0];
    var next := AppendPeer(cur, at, PeerAt(db, k));
    forall a | 0 <= a < |ms| ensures next[a] == ms[a].(instances := Attached(db, ms[a].instances, keys + [k])) {
      var xs := ms[a].instances;
      forall i | 0 <= i < |xs| ensures next[a].instances[i] == Attached(db, xs, keys + [k])[i] {
        AttachStep(db, xs, keys, k, i);
        assert xs[i].instanceId == k.0 <==> (a, i) == at;
      }
      assert next[a].instances == Attached(db, xs, keys + [k]);
    }
  }

  /** Scanning one row of the peer query. */
  method ScanPeer(id: PeerId, row: PeerRow) returns (r: Result<PeerView, ParseError>)
    ensures r.Ok? <==> Countable(row)
    ensures r.Ok? ==> r.value == PeerOfRow(id, row)
  {
    var rx := ParseOptionalUint64(AsText(row.details.rxBytes));
    if rx.Err? {
      return Err(rx.error);
    }
    var tx := ParseOptionalUint64(AsText(row.details.txBytes));
    if tx.Err? {
      return Err(tx.error);
    }
    return Ok(PeerView(id, row.route, row.latencyMs, row.details.lossRate, rx.value, tx.value,
                       NonNil(row.details.tunnelProtocols), row.observedAt));
  }

  predicate NoPeers(ms: seq<MachineView>) {
    forall a, b :: 0 <= a < |ms| && 0 <= b < |ms[a].instances| ==> ms[a].instances[b].peers == []
  }

  ghost predicate SameIds(ids: seq<Uuid>, locations: map<Uuid, (nat, nat)>) {
    forall id :: id in ids <==> id in locations
  }

  method LoadPeers(db: Db, machines: seq<MachineView>, instanceIds: seq<Uuid>, locations: map<Uuid, (nat, nat)>)
    returns (r: Result<seq<MachineView>, ParseError>)
    requires Located(machines, locations)
    requires SameIds(instanceIds, locations) && NoPeers(machines)
    ensures r.Ok? <==> forall k :: k in db.peers && k.0 in locations ==> Countable(db.peers[k])
    ensures r.Ok? ==> r.value == AllWithPeers(db, machines)
  {
    hide Ascending;
    hide PeerOfRow;
    hide Countable;
    hide AllWithPeers;
    hide Located;
    hide AllAttached;
    hide AppendPeer;
    hide IsPeerKey;
    hide PeerKeys;
    hide AllCountable;
    hide NoPeers;
    if instanceIds == [] {
      NothingToLoad(db, machines, locations);
      return Ok(machines);
    }
    var wanted: set<nat> := set id | id in instanceIds;
    var keys := Select(PeerKeys(db, wanted), None);
    PeerKeysAre(db, wanted, keys);
    var cur := machines;
    NothingAttached(db, machines);
    NoneCounted(db);
    for n := 0 to |keys|
      invariant AllAttached(db, machines, cur, keys[..n])
      invariant AllCountable(db, keys[..n])
    {
      var k := keys[n];
      assert k in keys;
      PeerRow(db, k);
      var peer := ScanPeer(k.1, db.peers[(k.0, k.1)]);
      if peer.Err? {
        return Err(peer.error);
      }
      NextAttached(db, machines, cur, keys, n, locations);
      cur := AppendPeer(cur, locations[k.0], peer.value);
    }
    assert keys[..|keys|] == keys;
    AttachedIsNested(db, machines, cur, keys, wanted, locations);
    CountedAll(db, wanted, keys, locations);
    return Ok(cur);
  }

  lemma NoneCounted(db: Db)
    ensures AllCountable(db, [])
  {
  }

  lemma CountedAll(db: Db, wanted: set<nat>, keys: seq<Key>, locations: map<Uuid, (nat, nat)>)
    requires keys == Ascending(PeerKeys(db, wanted)) && AllCountable(db, keys)
    requires forall id: Uuid :: id in locations ==> id in wanted
    ensures forall k :: k in db.peers && k.0 in locations ==> Countable(db.peers[k])
  {
    hide Ascending;
    PeerKeysAre(db, wanted, keys);
    hide Countable;
    hide PeerKeys;
    forall k | k in db.peers && k.0 in locations ensures Countable(db.peers[k]) {
      assert (k.0, k.1) in keys;
    }
  }

  lemma NothingToLoad(db: Db, ms: seq<MachineView>, locations: map<Uuid, (nat, nat)>)
    requires Located(ms, locations) && forall id: Uuid :: id !in locations
    ensures AllWithPeers(db, ms) == ms
  {
    forall a | 0 <= a < |ms| ensures WithPeers(db, ms[a].instances) == ms[a].instances {
      InstancesAreLocated(ms, locations, a);
    }
  }

  lemma InstancesAreLocated(ms: seq<MachineView>, locations: map<Uuid, (nat, nat)>, a: nat)
    requires Located(ms, locations) && a < |ms|
    ensures ms[a].instances != [] ==> exists id: Uuid :: id in locations
  {
    if ms[a].instances != [] {
      assert ms[a].instances[0].instanceId in locations;
    }
  }

  ghost predicate AllCountable(db: Db, keys: seq<Key>) {
    forall k :: k in keys ==> IsPeerKey(db, k) && Countable(db.peers[(k.0, k.1)])
  }

  lemma PeerRow(db: Db, k: Key)
    requires IsPeerKey(db, k)
    ensures IsUuid(k.0) && IsPeerId(k.1) && (k.0, k.1) in db.peers
    ensures PeerOfRow(k.1, db.peers[(k.0, k.1)]) == PeerAt(db, k)
  {
    hide PeerOfRow;
  }

  lemma NextAttached(db: Db, ms: seq<MachineView>, cur: seq<MachineView>, keys: seq<Key>, n: nat,
                     locations: map<Uuid, (nat, nat)>)
    requires (forall k :: k in keys ==> IsPeerKey(db, k)) && n < |keys| && AllCountable(db, keys[..n])
    requires AllAttached(db, ms, cur, keys[..n]) && Located(ms, locations) && keys[n].0 in locations
    ensures IsPeerKey(db, keys[n]) && InRange(cur, locations[keys[n].0])
    ensures AllAttached(db, ms, AppendPeer(cur, locations[keys[n].0], PeerAt(db, keys[n])), keys[..n + 1])
    ensures Countable(db.peers[(keys[n].0, keys[n].1)]) ==> AllCountable(db, keys[..n + 1])
  {
    hide PeerAt;
    hide AllAttached;
    hide AppendPeer;
    hide Countable;
    hide Located;
    assert keys[..n + 1] == keys[..n] + [keys[n]];
    AllAttachedStep(db, ms, cur, keys[..n], keys[n], locations);
  }

  lemma PeerKeysAre(db: Db, wanted: set<nat>, keys: seq<Key>)
    requires keys == Ascending(PeerKeys(db, wanted))
    ensures forall k :: k in keys ==> IsPeerKey(db, k) && k.0 in wanted
    ensures forall k :: k in db.peers && k.0 in wanted ==> (k.0, k.1) in keys
  {
    hide Ascending;
    assert forall k :: k in keys ==> k in PeerKeys(db, wanted);
    assert forall k :: k in db.peers && k.0 in wanted ==> (k.0, k.1) in PeerKeys(db, wanted);
  }

  lemma NothingAttached(db: Db, ms: seq<MachineView>)
    requires NoPeers(ms)
    ensures AllAttached(db, ms, ms, [])
  {
    forall a | 0 <= a < |ms| ensures ms[a] == ms[a].(instances := Attached(db, ms[a].instances, [])) {
      var xs := ms[a].instances;
      forall i | 0 <= i < |xs| ensures Attached(db, xs, [])[i] == xs[i] {
        assert Of([], xs[i].instanceId) == [];
        assert xs[i].peers == PeerViews(db, []);
      }
      assert Attached(db, xs, []) == xs;
    }
  }

  ghost function AllWithPeers(db: Db, ms: seq<MachineView>): seq<MachineView> {
    seq(|ms|, a requires 0 <= a < |ms| => ms[a].(instances := WithPeers(db, ms[a].instances)))
  }

  lemma AttachedIsNested(db: Db, ms: seq<MachineView>, cur: seq<MachineView>, keys: seq<Key>, wanted: set<nat>,
                         locations: map<Uuid, (nat, nat)>)
    requires forall k :: k in keys ==> IsPeerKey(db, k)
    requires AllAttached(db, ms, cur, keys) && keys == Ascending(PeerKeys(db, wanted)) && Located(ms, locations)
    requires forall id: Uuid :: id in locations ==> id in wanted
    ensures cur == AllWithPeers(db, ms)
  {
    hide Ascending;
    hide PeerAt;
    forall a | 0 <= a < |ms| ensures Attached(db, ms[a].instances, keys) == WithPeers(db, ms[a].instances) {
      forall b | 0 <= b < |ms[a].instances|
        ensures Attached(db, ms[a].instances, keys)[b] == WithPeers(db, ms[a].instances)[b]
      {
        OwnPeers(db, wanted, ms[a].instances[b].instanceId);
      }
    }
  }

  lemma OwnPeers(db: Db, wanted: set<nat>, id: Uuid)
    requires id in wanted
    ensures Of(Ascending(PeerKeys(db, wanted)), id) == Ascending(PeerKeys(db, {id}))
  {
    hide Ascending;
    PartIsOwnResult(PeerKeys(db, wanted), id);
    assert (set k | k in PeerKeys(db, wanted) && k.0 == id) == PeerKeys(db, {id});
  }

  // ---------- load instances ----------

  /** The machines with the instances among the first rows that are their own. */
  ghost predicate AllListed(db: Db, ms: seq<MachineView>, cur: seq<MachineView>, keys: seq<Key>)
    requires forall k :: k in keys ==> IsInstanceKey(db, k)
  {
    |cur| == |ms| && forall a :: 0 <= a < |ms| ==>
      cur[a] == ms[a].(instances := OwnInstances(db, keys, ms[a].machineId))
  }

  function OwnInstances(db: Db, keys: seq<Key>, machine: Uuid): seq<InstanceView>
    requires forall k :: k in keys ==> IsInstanceKey(db, k)
  {
    OfMembers(keys, machine);
    InstanceViews(db, Of(keys, machine))
  }

  predicate DistinctMachines(ms: seq<MachineView>) {
    forall a, b :: 0 <= a < b < |ms| ==> ms[a].machineId != ms[b].machineId
  }

  ghost predicate Indexed(ms: seq<MachineView>, index: map<Uuid, nat>) {
    && (forall a :: 0 <= a < |ms| ==> ms[a].machineId in index && index[ms[a].machineId] == a)
    && (forall id :: id in index ==> index[id] < |ms| && ms[index[id]].machineId == id)
  }

  function AppendInstance(ms: seq<MachineView>, a: nat, x: InstanceView): (r: seq<MachineView>)
    requires a < |ms|
    ensures |r| == |ms|
  {
    ms[a := ms[a].(instances := ms[a].instances + [x])]
  }

  lemma AllListedStep(db: Db, ms: seq<MachineView>, cur: seq<MachineView>, keys: seq<Key>, k: Key, a: nat)
    requires (forall t :: t in keys ==> IsInstanceKey(db, t)) && IsInstanceKey(db, k)
    requires AllListed(db, ms, cur, keys) && DistinctMachines(ms) && a < |ms| && ms[a].machineId == k.0
    ensures AllListed(db, ms, AppendInstance(cur, a, InstanceAt(db, k)), keys + [k])
  {
    hide InstanceAt;
    var next := AppendInstance(cur, a, InstanceAt(db, k));
    forall i | 0 <= i < |ms|
      ensures next[i] == ms[i].(instances := OwnInstances(db, keys + [k], ms[i].machineId))
    {
      OfStep(keys, k, ms[i].machineId);
      OfMembers(keys, ms[i].machineId);
    }
  }

  /** A new instance is located at the end of its machine's list. */
  lemma LocatedStep(ms: seq<MachineView>, locations: map<Uuid, (nat, nat)>, a: nat, x: InstanceView)
    requires Located(ms, locations) && a < |ms| && x.instanceId !in locations
    ensures Located(AppendInstance(ms, a, x), locations[x.instanceId := (a, |ms[a].instances|)])
  {
    var next, more := AppendInstance(ms, a, x), locations[x.instanceId := (a, |ms[a].instances|)];
    forall i, j | 0 <= i < |next| && 0 <= j < |next[i].instances|
      ensures next[i].instances[j].instanceId in more && more[next[i].instances[j].instanceId] == (i, j)
    {
      if i != a || j < |ms[a].instances| {
        assert next[i].instances[j] == ms[i].instances[j];
      }
    }
  }

  lemma InstanceKeyMember(db: Db, wanted: set<nat>, active: Option<bool>, k: Key)
    ensures k in InstanceKeys(db, wanted, active)
        <==> IsInstanceKey(db, k) && k.0 in wanted && Wanted(active, db.instances[k.1].active)
  {
  }

  lemma InstanceKeysAre(db: Db, wanted: set<nat>, active: Option<bool>, keys: seq<Key>)
    requires keys == Ascending(InstanceKeys(db, wanted, active))
    ensures forall k :: k in keys <==> IsInstanceKey(db, k) && k.0 in wanted && Wanted(active, db.instances[k.1].active)
    ensures DistinctChildren(keys)
  {
    hide Ascending;
    forall k: Key
      ensures k in keys <==> IsInstanceKey(db, k) && k.0 in wanted && Wanted(active, db.instances[k.1].active)
    {
      InstanceKeyMember(db, wanted, active, k);
    }
    hide InstanceKeys;
    forall i, j | 0 <= i < j < |keys| ensures keys[i].1 != keys[j].1 {
      assert Less(keys[i], keys[j]);
      assert keys[i] in keys && keys[j] in keys;
    }
  }

  predicate ChildIds(keys: seq<Key>, ids: seq<Uuid>) {
    |ids| == |keys| && forall i :: 0 <= i < |keys| ==> ids[i] == keys[i].1
  }

  /** The rows placed so far: every machine has its own, and the index knows where. */
  ghost predicate Placed(db: Db, ms: seq<MachineView>, cur: seq<MachineView>, keys: seq<Key>,
                         locations: map<Uuid, (nat, nat)>, ids: seq<Uuid>)
    requires forall k :: k in keys ==> IsInstanceKey(db, k)
  {
    AllListed(db, ms, cur, keys) && Located(cur, locations) && ChildIds(keys, ids) && SameIds(ids, locations)
  }

  predicate DistinctChildren(keys: seq<Key>) { forall i, j :: 0 <= i < j < |keys| ==> keys[i].1 != keys[j].1 }

  lemma PlacedStep(db: Db, ms: seq<MachineView>, cur: seq<MachineView>, keys: seq<Key>, n: nat, a: nat,
                   locations: map<Uuid, (nat, nat)>, ids: seq<Uuid>)
    requires (forall k :: k in keys ==> IsInstanceKey(db, k)) && n < |keys| && DistinctMachines(ms)
             && DistinctChildren(keys)
    requires Placed(db, ms, cur, keys[..n], locations, ids) && a < |ms| && ms[a].machineId == keys[n].0
    ensures IsInstanceKey(db, keys[n]) && |cur| == |ms|
    ensures var x := InstanceAt(db, keys[n]);
            Placed(db, ms, AppendInstance(cur, a, x), keys[..n + 1],
                   locations[x.instanceId := (a, |cur[a].instances|)], ids + [x.instanceId])
  {
    var k := keys[n];
    assert k in keys && keys[..n + 1] == keys[..n] + [k];
    var x := InstanceAt(db, k);
    assert x.instanceId == k.1;
    hide InstanceAt;
    hide IsInstanceKey;
    hide DistinctMachines;
    assert x.instanceId !in ids;
    AllListedStep(db, ms, cur, keys[..n], k, a);
    LocatedStep(cur, locations, a, x);
    hide AllListed;
    hide Located;
    hide AppendInstance;
  }

  lemma NothingPlaced(db: Db, ms: seq<MachineView>)
    requires forall a :: 0 <= a < |ms| ==> ms[a].instances == []
    ensures Placed(db, ms, ms, [], map[], [])
  {
    forall a | 0 <= a < |ms| ensures ms[a] == ms[a].(instances := OwnInstances(db, [], ms[a].machineId)) {
      assert Of([], ms[a].machineId) == [];
    }
  }

  /** An instance that the response shows under one of these machines. */
  predicate Shown(db: Db, ms: seq<MachineView>, active: Option<bool>, id: Uuid) {
    && id in db.instances && Wanted(active, db.instances[id].active)
    && db.instances[id].machineId in MachineIds(ms)
  }

  function MachineIds(ms: seq<MachineView>): set<nat> { set a | 0 <= a < |ms| :: ms[a].machineId }

  ghost function AllNested(db: Db, ms: seq<MachineView>, active: Option<bool>): seq<MachineView> {
    seq(|ms|, a requires 0 <= a < |ms| => ms[a].(instances := NestedInstances(db, ms[a].machineId, active)))
  }

  /** `loadInstances`: the batched join equals the nested result, and it fails exactly when a peer counter on the page
      does not fit 64 bits. */
  method LoadInstances(db: Db, machines: seq<MachineView>, active: Option<bool>)
    returns (r: Result<seq<MachineView>, ParseError>)
    requires DistinctMachines(machines)
    requires forall a :: 0 <= a < |machines| ==> machines[a].instances == []
    ensures r.Ok? <==> forall k :: k in db.peers && Shown(db, machines, active, k.0) ==> Countable(db.peers[k])
    ensures r.Ok? ==> r.value == AllNested(db, machines, active)
  {
    hide Ascending;
    hide Located;
    hide AllWithPeers;
    hide Placed;
    hide AllNested;
    hide AppendInstance;
    hide InstanceKeys;
    hide Countable;
    hide IsInstanceKey;
    hide InstanceAt;
    hide NoPeers;
    if |machines| == 0 {
      NoMachines(db, active);
      return Ok(machines);
    }
    var machineIndex: map<Uuid, nat> := map[];
    for i := 0 to |machines|
      invariant Indexed(machines[..i], machineIndex)
    {
      IndexedStep(machines, i, machineIndex);
      machineIndex := machineIndex[machines[i].machineId := i];
    }
    assert machines[..|machines|] == machines;
    var keys := Select(InstanceKeys(db, MachineIds(machines), active), None);
    InstanceKeysAre(db, MachineIds(machines), active, keys);
    var cur, ids := machines, [];
    var locations: map<Uuid, (nat, nat)> := map[];
    NothingPlaced(db, machines);
    hide Indexed;
    hide MachineIds;
    for n := 0 to |keys|
      invariant Placed(db, machines, cur, keys[..n], locations, ids) && |cur| == |machines|
    {
      InstanceRow(db, machines, machineIndex, active, keys, n);
      var instance := InstanceAt(db, keys[n]);
      var position := machineIndex[keys[n].0];
      PlacedStep(db, machines, cur, keys, n, position, locations, ids);
      locations := locations[instance.instanceId := (position, |cur[position].instances|)];
      cur, ids := AppendInstance(cur, position, instance), ids + [instance.instanceId];
    }
    assert keys[..|keys|] == keys;
    PlacedIsNested(db, machines, cur, keys, active, locations, ids);
    r := LoadPeers(db, cur, ids, locations);
  }

  lemma NoMachines(db: Db, active: Option<bool>)
    ensures AllNested(db, [], active) == []
  {
  }

  lemma IndexedStep(ms: seq<MachineView>, i: nat, index: map<Uuid, nat>)
    requires i < |ms| && DistinctMachines(ms) && Indexed(ms[..i], index)
    ensures Indexed(ms[..i + 1], index[ms[i].machineId := i])
  {
    assert forall a :: 0 <= a < i ==> ms[..i][a] == ms[a];
  }

  lemma InstanceRow(db: Db, ms: seq<MachineView>, index: map<Uuid, nat>, active: Option<bool>, keys: seq<Key>, n: nat)
    requires Indexed(ms, index) && n < |keys|
    requires keys == Ascending(InstanceKeys(db, MachineIds(ms), active))
    ensures IsInstanceKey(db, keys[n]) && IsUuid(keys[n].0) && keys[n].0 in index
    ensures index[keys[n].0] < |ms| && ms[index[keys[n].0]].machineId == keys[n].0
  {
    hide Ascending;
    assert keys[n] in keys;
  }

  lemma PlacedIsNested(db: Db, ms: seq<MachineView>, cur: seq<MachineView>, keys: seq<Key>,
                       active: Option<bool>, locations: map<Uuid, (nat, nat)>, ids: seq<Uuid>)
    requires keys == Ascending(InstanceKeys(db, MachineIds(ms), active))
    requires (forall k :: k in keys ==> IsInstanceKey(db, k)) && Placed(db, ms, cur, keys, locations, ids)
    ensures Located(cur, locations) && SameIds(ids, locations) && NoPeers(cur)
    ensures forall id :: id in locations <==> Shown(db, ms, active, id)
    ensures AllWithPeers(db, cur) == AllNested(db, ms, active)
  {
    hide Ascending;
    hide Located;
    hide IsInstanceKey;
    hide InstanceKeys;
    hide MachineIds;
    LocatedAreShown(db, ms, keys, active, ids);
    hide Shown;
    ListedIsNested(db, ms, cur, keys, active);
    hide AllListed;
    hide NoPeers;
    hide AllNested;
    hide AllWithPeers;
    hide ChildIds;
  }

  lemma ListedIsNested(db: Db, ms: seq<MachineView>, cur: seq<MachineView>, keys: seq<Key>, active: Option<bool>)
    requires keys == Ascending(InstanceKeys(db, MachineIds(ms), active))
    requires (forall k :: k in keys ==> IsInstanceKey(db, k)) && AllListed(db, ms, cur, keys)
    ensures NoPeers(cur) && AllWithPeers(db, cur) == AllNested(db, ms, active)
  {
    hide Ascending;
    hide InstanceKeys;
    hide WithPeers;
    hide InstanceAt;
    hide MachineIds;
    forall a | 0 <= a < |ms| ensures WithPeers(db, cur[a].instances) == NestedInstances(db, ms[a].machineId, active) {
      OwnAreNested(db, ms, keys, active, a);
    }
    forall a, b | 0 <= a < |cur| && 0 <= b < |cur[a].instances| ensures cur[a].instances[b].peers == [] {
      OwnAreNested(db, ms, keys, active, a);
    }
    hide OwnInstances;
    hide NestedInstances;
    hide IsInstanceKey;
  }

  lemma OwnAreNested(db: Db, ms: seq<MachineView>, keys: seq<Key>, active: Option<bool>, a: nat)
    requires keys == Ascending(InstanceKeys(db, MachineIds(ms), active)) && a < |ms|
    requires forall k :: k in keys ==> IsInstanceKey(db, k)
    ensures WithPeers(db, OwnInstances(db, keys, ms[a].machineId)) == NestedInstances(db, ms[a].machineId, active)
    ensures forall x :: x in OwnInstances(db, keys, ms[a].machineId) ==> x.peers == []
  {
    hide Ascending;
    assert ms[a].machineId in MachineIds(ms);
    OwnRows(db, MachineIds(ms), active, ms[a].machineId);
    hide InstanceKeys;
    hide MachineIds;
    hide WithPeers;
    hide IsInstanceKey;
  }

  /** The located instances are the shown ones. */
  lemma LocatedAreShown(db: Db, ms: seq<MachineView>, keys: seq<Key>, active: Option<bool>, ids: seq<Uuid>)
    requires keys == Ascending(InstanceKeys(db, MachineIds(ms), active)) && ChildIds(keys, ids)
    ensures forall id :: id in ids <==> Shown(db, ms, active, id)
  {
    hide Ascending;
    hide MachineIds;
    InstanceKeysAre(db, MachineIds(ms), active, keys);
    forall id: Uuid ensures id in ids <==> Shown(db, ms, active, id) {
      if id in ids {
        var i :| 0 <= i < |ids| && ids[i] == id;
        assert keys[i] in keys;
      }
      if Shown(db, ms, active, id) {
        assert (db.instances[id].machineId, id) in keys;
        var i :| 0 <= i < |keys| && keys[i] == (db.instances[id].machineId, id);
        assert ids[i] == id;
      }
    }
  }

  lemma OwnRows(db: Db, wanted: set<nat>, active: Option<bool>, id: Uuid)
    requires id in wanted
    ensures Of(Ascending(InstanceKeys(db, wanted, active)), id) == Ascending(InstanceKeys(db, {id}, active))
  {
    hide Ascending;
    PartIsOwnResult(InstanceKeys(db, wanted, active), id);
    assert (set k | k in InstanceKeys(db, wanted, active) && k.0 == id) == InstanceKeys(db, {id}, active);
  }
}
