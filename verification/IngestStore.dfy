/** `Store.Ingest` statement by statement, over mutable tables with rollback
    (controller/internal/ingest/store.go). */
module IngestStore {
  import opened Wrappers
  import opened Topology
  import opened Tables

  // ---------- folds over prefixes ----------

  lemma {:induction false} FlatInstancesStep(ms: seq<Machine>, k: nat)
    requires k < |ms|
    ensures FlatInstances(ms[..k + 1]) == FlatInstances(ms[..k]) + ms[k].instances
  {
    assert ms[..k + 1][..k] == ms[..k];
  }

  lemma {:induction false} AddSamplesConcat(t: MetricTable, a: seq<Sample>, b: seq<Sample>)
    ensures AddSamples(t, a + b) == AddSamples(AddSamples(t, a), b)
  {
    if b == [] {
      assert a + b == a;
    } else {
      assert (a + b)[..|a + b| - 1] == a + b[..|b| - 1];
      AddSamplesConcat(t, a, b[..|b| - 1]);
    }
  }

  lemma AddSamplesOne(t: MetricTable, sample: Sample)
    ensures AddSamples(t, [sample]) == t[sample.key := sample.row]
  {
    assert [sample][..0] == [];
  }

  lemma {:induction false} AddErrorsConcat(t: ErrorTable, cid: Uuid, from: nat, a: seq<ErrorRow>, b: seq<ErrorRow>)
    ensures AddErrors(t, cid, from, a + b) == AddErrors(AddErrors(t, cid, from, a), cid, from + |a|, b)
  {
    if b == [] {
      assert a + b == a;
    } else {
      assert (a + b)[..|a + b| - 1] == a + b[..|b| - 1];
      AddErrorsConcat(t, cid, from, a, b[..|b| - 1]);
    }
  }

  lemma {:induction false} RowsStorablePrefix(at: Stamp, xs: seq<Instance>, ys: seq<Instance>)
    requires RowsStorable(at, xs + ys)
    ensures RowsStorable(at, xs)
    decreases |ys|
  {
    if ys == [] {
      assert xs + ys == xs;
    } else {
      var zs := xs + ys[..|ys| - 1];
      assert (xs + ys)[..|xs + ys| - 1] == zs;
      assert FlatSamples(at, xs + ys)[..|FlatSamples(at, zs)|] == FlatSamples(at, zs);
      forall a, b | 0 <= a < b < |FlatSamples(at, zs)|
        ensures FlatSamples(at, zs)[a].key != FlatSamples(at, zs)[b].key
      {
        assert FlatSamples(at, zs)[a] == FlatSamples(at, xs + ys)[a];
        assert FlatSamples(at, zs)[b] == FlatSamples(at, xs + ys)[b];
      }
      forall k | 0 <= k < |zs| ensures InstanceStorable(zs[k]) {
        assert zs[k] == (xs + ys)[k];
      }
      RowsStorablePrefix(at, xs, ys[..|ys| - 1]);
    }
  }

  /** The three tables that depend only on the instances seen so far. */
  ghost predicate Detailed(db: Db, at: Stamp, xs: seq<Instance>, nodes: NodeTable, peers: PeerTable,
                           metrics: MetricTable) {
    && nodes == UpsertNodes(db.nodes, at, xs)
    && peers == PeersOfInstances(db.peers, at, xs)
    && metrics == AddSamples(db.metrics, FlatSamples(at, xs))
    && RowsStorable(at, xs)
  }

  lemma DistinctPrefix(a: seq<Sample>, b: seq<Sample>)
    requires DistinctKeys(a + b)
    ensures DistinctKeys(a)
  {
    forall i, j | 0 <= i < j < |a| ensures a[i].key != a[j].key {
      assert a[i] == (a + b)[i] && a[j] == (a + b)[j];
    }
  }

  /** Over a table without rows of this collection, a sample meets a stored key exactly when its own snapshot
      repeats that key. */
  lemma DistinctStep(t: MetricTable, seen: seq<Sample>, next: Sample)
    requires DistinctKeys(seen) && next.key !in t
    ensures next.key !in AddSamples(t, seen) <==> DistinctKeys(seen + [next])
  {
    AddSamplesKeys(t, seen, next.key);
    var all := seen + [next];
    if next.key in AddSamples(t, seen) {
      var k :| 0 <= k < |seen| && seen[k].key == next.key;
      assert all[k].key == all[|seen|].key;
    } else {
      forall i, j | 0 <= i < j < |all| ensures all[i].key != all[j].key {
        if j == |seen| {
          assert seen[i].key != next.key;
        }
      }
    }
  }

  lemma DetailedNone(db: Db, at: Stamp)
    ensures Detailed(db, at, [], db.nodes, db.peers, db.metrics)
  {
  }

  lemma DetailedStorable(db: Db, at: Stamp, xs: seq<Instance>, nodes: NodeTable, peers: PeerTable, metrics: MetricTable)
    requires Detailed(db, at, xs, nodes, peers, metrics)
    ensures RowsStorable(at, xs) && DistinctKeys(FlatSamples(at, xs))
  {
  }

  lemma DetailedAll(db: Db, s: Snapshot, nodes: NodeTable, peers: PeerTable, metrics: MetricTable)
    requires Detailed(db, StampOf(s), FlatInstances(s.machines), nodes, peers, metrics)
    ensures Storable(s)
    ensures nodes == Commit(db, s).nodes && peers == Commit(db, s).peers && metrics == Commit(db, s).metrics
  {
  }

  lemma NextFold(db: Db, at: Stamp, xs: seq<Instance>, i: Instance)
    ensures UpsertNodes(db.nodes, at, xs + [i]) == UpsertNode(UpsertNodes(db.nodes, at, xs), at, i)
    ensures PeersOfInstances(db.peers, at, xs + [i]) == PeersOfInstance(PeersOfInstances(db.peers, at, xs), at, i)
    ensures FlatSamples(at, xs + [i]) == FlatSamples(at, xs) + SamplesOf(at, i)
  {
    hide UpsertNode;
    hide PeersOfInstance;
    assert (xs + [i])[..|xs|] == xs;
  }

  lemma NextStorable(at: Stamp, xs: seq<Instance>, i: Instance)
    requires RowsStorable(at, xs)
    requires FlatSamples(at, xs + [i]) == FlatSamples(at, xs) + SamplesOf(at, i)
    ensures RowsStorable(at, xs + [i])
            <==> InstanceStorable(i) && DistinctKeys(FlatSamples(at, xs) + SamplesOf(at, i))
  {
    hide DistinctKeys;
    hide InstanceStorable;
    hide FlatSamples;
    assert (xs + [i])[|xs|] == i;
    assert forall k :: 0 <= k < |xs| ==> (xs + [i])[k] == xs[k];
  }

  /** One more instance: when its rows are stored, and what the three tables then hold. */
  lemma DetailedStep(db: Db, at: Stamp, xs: seq<Instance>, i: Instance, nodes: NodeTable, peers: PeerTable,
                     metrics: MetricTable)
    requires Detailed(db, at, xs, nodes, peers, metrics)
    ensures DistinctKeys(FlatSamples(at, xs)) && metrics == AddSamples(db.metrics, FlatSamples(at, xs))
    ensures RowsStorable(at, xs + [i])
            <==> InstanceStorable(i) && DistinctKeys(FlatSamples(at, xs) + SamplesOf(at, i))
    ensures RowsStorable(at, xs + [i])
            ==> Detailed(db, at, xs + [i], UpsertNode(nodes, at, i), PeersOfInstance(peers, at, i),
                         AddSamples(db.metrics, FlatSamples(at, xs) + SamplesOf(at, i)))
  {
    DetailedStorable(db, at, xs, nodes, peers, metrics);
    NextFold(db, at, xs, i);
    NextStorable(at, xs, i);
    hide DistinctKeys;
    hide InstanceStorable;
    hide Tables.RowsStorable;
    hide FlatSamples;
    hide AddSamples;
    hide UpsertNodes;
    hide PeersOfInstances;
    hide UpsertNode;
    hide PeersOfInstance;
  }

  // ---------- the loop over machines ----------

  /** The error rows written before machine `k` is reached. */
  function ErrorsBefore(s: Snapshot, k: nat): seq<ErrorRow>
    requires k <= |s.machines|
  {
    ErrorRows("snapshot", NIL_UUID, NIL_UUID, s.errors) + MachinesErrorRows(s.machines[..k])
  }

  lemma PrefixNone(db: Db, s: Snapshot)
    ensures FlatInstances(s.machines[..0]) == []
    ensures UpsertMachines(db.machines, StampOf(s), s.machines[..0]) == db.machines
    ensures InstancesOfMachines(db.instances, StampOf(s), s.machines[..0]) == db.instances
    ensures ErrorsBefore(s, 0) == ErrorRows("snapshot", NIL_UUID, NIL_UUID, s.errors)
  {
  }

  lemma PrefixStep(db: Db, s: Snapshot, k: nat)
    requires k < |s.machines|
    ensures FlatInstances(s.machines[..k + 1]) == FlatInstances(s.machines[..k]) + s.machines[k].instances
    ensures UpsertMachines(db.machines, StampOf(s), s.machines[..k + 1])
            == UpsertMachine(UpsertMachines(db.machines, StampOf(s), s.machines[..k]), StampOf(s), s.machines[k])
    ensures InstancesOfMachines(db.instances, StampOf(s), s.machines[..k + 1])
            == InstancesOfMachine(InstancesOfMachines(db.instances, StampOf(s), s.machines[..k]), StampOf(s),
                                  s.machines[k])
  {
    hide InstancesOfMachine;
    hide UpsertMachine;
    assert s.machines[..k + 1][..k] == s.machines[..k];
  }

  lemma ErrorsStep(t: ErrorTable, s: Snapshot, k: nat)
    requires k < |s.machines|
    ensures ErrorsBefore(s, k + 1) == ErrorsBefore(s, k) + MachineErrorRows(s.machines[k])
    ensures AddErrors(t, s.collectionId, 0, ErrorsBefore(s, k + 1))
            == AddErrors(AddErrors(t, s.collectionId, 0, ErrorsBefore(s, k)), s.collectionId,
                         |ErrorsBefore(s, k)|, MachineErrorRows(s.machines[k]))
  {
    hide AddErrors;
    hide MachineErrorRows;
    assert s.machines[..k + 1][..k] == s.machines[..k];
    assert ErrorsBefore(s, k + 1) == ErrorsBefore(s, k) + MachineErrorRows(s.machines[k]);
    AddErrorsConcat(t, s.collectionId, 0, ErrorsBefore(s, k), MachineErrorRows(s.machines[k]));
  }

  lemma InnerStep(t: InstanceTable, e: ErrorTable, at: Stamp, m: Machine, k: nat, from: nat)
    requires k < |m.instances|
    ensures UpsertInstances(t, at, m.Id(), m.instances[..k + 1])
            == UpsertInstance(UpsertInstances(t, at, m.Id(), m.instances[..k]), at, m.Id(), m.instances[k])
    ensures |InstanceErrorRows(m.Id(), m.instances[..k + 1])|
            == |InstanceErrorRows(m.Id(), m.instances[..k])| + |m.instances[k].errors|
    ensures AddErrors(e, at.collectionId, from, InstanceErrorRows(m.Id(), m.instances[..k + 1]))
            == AddErrors(AddErrors(e, at.collectionId, from, InstanceErrorRows(m.Id(), m.instances[..k])),
                         at.collectionId, from + |InstanceErrorRows(m.Id(), m.instances[..k])|,
                         ErrorRows("instance", m.Id(), m.instances[k].instanceId, m.instances[k].errors))
  {
    hide AddErrors;
    hide UpsertInstance;
    assert m.instances[..k + 1][..k] == m.instances[..k];
    AddErrorsConcat(e, at.collectionId, from, InstanceErrorRows(m.Id(), m.instances[..k]),
                    ErrorRows("instance", m.Id(), m.instances[k].instanceId, m.instances[k].errors));
  }

  lemma InnerNone(t: InstanceTable, e: ErrorTable, at: Stamp, m: Machine, from: nat)
    ensures UpsertInstances(t, at, m.Id(), m.instances[..0]) == t
    ensures InstanceErrorRows(m.Id(), m.instances[..0]) == []
    ensures AddErrors(e, at.collectionId, from, []) == e
  {
  }

  lemma PrefixAll(s: Snapshot)
    ensures ErrorsBefore(s, |s.machines|) == FlatErrors(s)
  {
    assert s.machines[..|s.machines|] == s.machines;
  }

  class Store {
    var runs: map<Uuid, Run>
    var machines: MachineTable
    var instances: InstanceTable
    var nodes: NodeTable
    var peers: PeerTable
    var metrics: MetricTable
    var errors: ErrorTable

    ghost function Contents(): Db
      reads this
    {
      Db(runs, machines, instances, nodes, peers, metrics, errors)
    }

    /** The two foreign keys that keep the inserted primary keys fresh. */
    ghost predicate Valid()
      reads this
    {
      && (forall key :: key in metrics ==> key.collectionId in runs)
      && (forall key :: key in errors ==> key.0 in runs)
    }

    constructor ()
      ensures Valid() && Contents() == EMPTY
    {
      runs, machines, instances, nodes := map[], map[], map[], map[];
      peers, metrics, errors := map[], map[], map[];
    }

    /** `insertErrors`; the result is the advanced error index. No insertion meets an existing key. */
    method InsertErrors(at: Stamp, scope: string, machineId: Uuid, instanceId: Uuid,
                        failures: seq<TelemetryError>, index: nat) returns (next: nat)
      requires forall k: nat :: index <= k ==> (at.collectionId, k) !in errors
      modifies this`errors
      ensures next == index + |failures|
      ensures errors == AddErrors(old(errors), at.collectionId, index,
                                  ErrorRows(scope, machineId, instanceId, failures))
      ensures forall k: nat :: next <= k ==> (at.collectionId, k) !in errors
    {
      ghost var rows := ErrorRows(scope, machineId, instanceId, failures);
      next := index;
      for k := 0 to |failures|
        invariant next == index + k
        invariant errors == AddErrors(old(errors), at.collectionId, index, rows[..k])
        invariant forall j: nat :: next <= j ==> (at.collectionId, j) !in errors
      {
        assert rows[..k + 1][..k] == rows[..k];
        var machineValue := if machineId == NIL_UUID then None else Some(machineId);
        var instanceValue := if instanceId == NIL_UUID then None else Some(instanceId);
        errors := errors[(at.collectionId, next) := ErrorRow(scope, machineValue, instanceValue, failures[k])];
        next := next + 1;
      }
      assert rows[..|failures|] == rows;
    }

    method UpsertMachine(at: Stamp, m: Machine)
      modifies this`machines
      ensures machines == Tables.UpsertMachine(old(machines), at, m)
    {
      var row := MachineRow(InfoOf(m.session), true, None, m.observedAtMs, at.completedAt, at.collectionId);
      if m.Id() !in machines {
        machines := machines[m.Id() := row];
      } else {
        var stored := machines[m.Id()];
        if stored.observedAt < m.observedAtMs
           || (stored.observedAt == m.observedAtMs && stored.completedAt < at.completedAt) {
          machines := machines[m.Id() := row];
        }
      }
    }

    method UpsertNode(at: Stamp, i: Instance) returns (ok: bool)
      requires i.node.Some?
      modifies this`nodes
      ensures ok <==> NodeStorable(i)
      ensures ok ==> nodes == Tables.UpsertNode(old(nodes), at, i)
    {
      var node := i.node.value;
      if node.proxyCidrs.None? || node.listeners.None? {
        return false;
      }
      if i.instanceId !in nodes
         || Before(nodes[i.instanceId].observedAt, nodes[i.instanceId].completedAt, i.observedAtMs, at.completedAt) {
        nodes := nodes[i.instanceId := NodeRow(node, i.observedAtMs, at.completedAt, at.collectionId)];
      }
      return true;
    }

    method UpsertPeer(at: Stamp, i: Instance, p: Peer, detailsComplete: bool) returns (ok: bool)
      modifies this`peers
      ensures ok <==> PeerStorable(p)
      ensures ok ==> peers == Tables.UpsertPeer(old(peers), at, i, p, detailsComplete)
    {
      if p.tunnelProtocols.None? || (p.latencyMs.Some? && p.latencyMs.value < 0.0)
         || (p.lossRate.Some? && p.lossRate.value < 0.0) {
        return false;
      }
      var key := (i.instanceId, p.peerId);
      if key !in peers {
        peers := peers[key := FreshPeer(at, i.observedAtMs, p)];
      } else if Before(peers[key].observedAt, peers[key].completedAt, i.observedAtMs, at.completedAt) {
        peers := peers[key := MergedPeer(peers[key], at, i.observedAtMs, p, detailsComplete)];
      }
      return true;
    }

    method UpsertPeers(at: Stamp, i: Instance) returns (ok: bool, ids: set<PeerId>)
      modifies this`peers
      ensures ok <==> forall k :: 0 <= k < |i.peers| ==> PeerStorable(i.peers[k])
      ensures ok ==> peers == Tables.UpsertPeers(old(peers), at, i, i.peers) && ids == PeerIds(i.peers)
    {
      var detailsMissing := FindOperationError(i.errors, LIST_PEERS);
      ids := {};
      for k := 0 to |i.peers|
        invariant forall j :: 0 <= j < k ==> PeerStorable(i.peers[j])
        invariant peers == Tables.UpsertPeers(old(peers), at, i, i.peers[..k])
        invariant ids == PeerIds(i.peers[..k])
      {
        assert i.peers[..k + 1][..k] == i.peers[..k];
        ids := ids + {i.peers[k].peerId};
        var stored := UpsertPeer(at, i, i.peers[k], !detailsMissing);
        if !stored {
          return false, ids;
        }
      }
      assert i.peers[..|i.peers|] == i.peers;
      return true, ids;
    }

    /** The metric inserts of one instance: each fails on a key that is already there. */
    method InsertMetrics(ghost t: MetricTable, ghost seen: seq<Sample>, at: Stamp, i: Instance) returns (ok: bool)
      requires forall key :: key in t ==> key.collectionId != at.collectionId
      requires DistinctKeys(seen) && metrics == AddSamples(t, seen)
      modifies this`metrics
      ensures ok <==> DistinctKeys(seen + SamplesOf(at, i))
      ensures ok ==> metrics == AddSamples(t, seen + SamplesOf(at, i))
    {
      hide AddSamples;
      hide DistinctKeys;
      ghost var mine := SamplesOf(at, i);
      assert seen + mine[..0] == seen;
      for k := 0 to |i.metrics|
        invariant DistinctKeys(seen + mine[..k])
        invariant metrics == AddSamples(t, seen + mine[..k])
      {
        var m := i.metrics[k];
        var key := MetricKey(at.collectionId, i.instanceId, m.name, m.labels);
        DistinctStep(t, seen + mine[..k], mine[k]);
        assert seen + mine[..k + 1] == (seen + mine[..k]) + [mine[k]];
        if key in metrics {
          assert seen + mine == (seen + mine[..k + 1]) + mine[k + 1..];
          if DistinctKeys(seen + mine) {
            DistinctPrefix(seen + mine[..k + 1], mine[k + 1..]);
          }
          return false;
        }
        AddSamplesConcat(t, seen + mine[..k], [mine[k]]);
        AddSamplesOne(AddSamples(t, seen + mine[..k]), mine[k]);
        metrics := metrics[key := MetricRow(m.value, i.observedAtMs)];
      }
      assert mine[..|i.metrics|] == mine;
      return true;
    }

    method UpsertInstanceRow(at: Stamp, machineId: Uuid, i: Instance)
      modifies this`instances
      ensures instances == UpsertInstance(old(instances), at, machineId, i)
    {
      if i.instanceId !in instances
         || Before(instances[i.instanceId].observedAt, instances[i.instanceId].completedAt, i.observedAtMs,
                   at.completedAt) {
        instances := instances[i.instanceId := InstanceRow(machineId, true, None, i.observedAtMs, at.completedAt,
                                                           at.collectionId)];
      }
    }

    method IngestPeers(at: Stamp, i: Instance) returns (ok: bool)
      modifies this`peers
      ensures ok <==> forall k :: 0 <= k < |i.peers| ==> PeerStorable(i.peers[k])
      ensures ok ==> peers == PeersOfInstance(old(peers), at, i)
    {
      var ids;
      ok, ids := UpsertPeers(at, i);
      if !ok {
        return;
      }
      var routesMissing := FindOperationError(i.errors, LIST_ROUTES);
      if !routesMissing {
        peers := map key | key in peers &&
                           !(key.0 == i.instanceId
                             && Before(peers[key].observedAt, peers[key].completedAt, i.observedAtMs, at.completedAt)
                             && key.1 !in ids) :: peers[key];
      }
    }

    /** `ingestInstance`. A rejected row leaves the tables to the rollback. */
    method IngestInstance(ghost t: MetricTable, ghost seen: seq<Sample>, at: Stamp, machineId: Uuid, i: Instance)
      returns (ok: bool)
      requires forall key :: key in t ==> key.collectionId != at.collectionId
      requires DistinctKeys(seen) && metrics == AddSamples(t, seen)
      modifies this`instances, this`nodes, this`peers, this`metrics
      ensures instances == UpsertInstance(old(instances), at, machineId, i)
      ensures ok <==> InstanceStorable(i) && DistinctKeys(seen + SamplesOf(at, i))
      ensures ok ==> nodes == Tables.UpsertNode(old(nodes), at, i)
      ensures ok ==> peers == PeersOfInstance(old(peers), at, i)
      ensures ok ==> metrics == AddSamples(t, seen + SamplesOf(at, i))
    {
      UpsertInstanceRow(at, machineId, i);
      if i.node.Some? {
        ok := UpsertNode(at, i);
        if !ok {
          return;
        }
      }
      ok := IngestPeers(at, i);
      if ok {
        ok := InsertMetrics(t, seen, at, i);
      }
    }

    method MarkMissingInstances(at: Stamp, m: Machine)
      modifies this`instances
      ensures instances == Tables.MarkMissingInstances(old(instances), at, m)
    {
      var ids := {};
      for k := 0 to |m.instances|
        invariant ids == InstanceIds(m.instances[..k])
      {
        assert m.instances[..k + 1][..k] == m.instances[..k];
        ids := ids + {m.instances[k].instanceId};
      }
      assert m.instances[..|m.instances|] == m.instances;
      instances := map id | id in instances ::
        if instances[id].machineId == m.Id() && instances[id].active && id !in ids
           && instances[id].completedAt < at.completedAt
        then Deactivated(instances[id], at) else instances[id];
    }

    method MarkMissingMachines(at: Stamp, ms: seq<Machine>)
      modifies this`machines, this`instances
      ensures machines == Tables.MarkMissingMachines(old(machines), at, Ids(ms))
      ensures instances == MarkOrphanInstances(old(instances), at, Ids(ms))
    {
      var ids := {};
      for k := 0 to |ms|
        invariant ids == Ids(ms[..k])
      {
        assert ms[..k + 1][..k] == ms[..k];
        ids := ids + {ms[k].Id()};
      }
      assert ms[..|ms|] == ms;
      machines := Tables.MarkMissingMachines(machines, at, ids);
      instances := MarkOrphanInstances(instances, at, ids);
    }

    /** The loop over the instances of one machine. */
    method IngestInstances(ghost db: Db, ghost xs: seq<Instance>, at: Stamp, m: Machine, index: nat)
      returns (ok: bool, next: nat)
      requires forall key :: key in db.metrics ==> key.collectionId != at.collectionId
      requires Detailed(db, at, xs, nodes, peers, metrics)
      requires forall k: nat :: index <= k ==> (at.collectionId, k) !in errors
      modifies this`instances, this`nodes, this`peers, this`metrics, this`errors
      ensures ok <==> RowsStorable(at, xs + m.instances)
      ensures ok ==> Detailed(db, at, xs + m.instances, nodes, peers, metrics)
      ensures ok ==> instances == UpsertInstances(old(instances), at, m.Id(), m.instances)
      ensures ok ==> errors == AddErrors(old(errors), at.collectionId, index, InstanceErrorRows(m.Id(), m.instances))
      ensures ok ==> next == index + |InstanceErrorRows(m.Id(), m.instances)|
      ensures ok ==> forall k: nat :: next <= k ==> (at.collectionId, k) !in errors
    {
      hide Tables.RowsStorable;
      hide DistinctKeys;
      hide Detailed;
      hide AddErrors;
      hide InstanceErrorRows;
      hide UpsertInstances;
      hide Tables.UpsertNode;
      hide PeersOfInstance;
      hide InstanceStorable;
      hide FlatSamples;
      hide SamplesOf;
      hide AddSamples;
      next := index;
      InnerNone(instances, errors, at, m, index);
      assert xs + m.instances[..0] == xs;
      for k := 0 to |m.instances|
        invariant Detailed(db, at, xs + m.instances[..k], nodes, peers, metrics)
        invariant instances == UpsertInstances(old(instances), at, m.Id(), m.instances[..k])
        invariant errors == AddErrors(old(errors), at.collectionId, index, InstanceErrorRows(m.Id(), m.instances[..k]))
        invariant next == index + |InstanceErrorRows(m.Id(), m.instances[..k])|
        invariant forall j: nat :: next <= j ==> (at.collectionId, j) !in errors
      {
        var i := m.instances[k];
        ghost var seen := xs + m.instances[..k];
        DetailedStep(db, at, seen, i, nodes, peers, metrics);
        InnerStep(old(instances), old(errors), at, m, k, index);
        assert xs + m.instances[..k + 1] == seen + [i];
        ok := IngestInstance(db.metrics, FlatSamples(at, seen), at, m.Id(), i);
        if !ok {
          assert xs + m.instances == (seen + [i]) + m.instances[k + 1..];
          if RowsStorable(at, xs + m.instances) {
            RowsStorablePrefix(at, seen + [i], m.instances[k + 1..]);
          }
          return;
        }
        next := InsertErrors(at, "instance", m.Id(), i.instanceId, i.errors, next);
      }
      assert m.instances[..|m.instances|] == m.instances;
      DetailedStorable(db, at, xs + m.instances, nodes, peers, metrics);
      ok := true;
    }

    /** The body of the loop over machines. */
    method IngestMachine(ghost db: Db, ghost xs: seq<Instance>, at: Stamp, m: Machine, index: nat)
      returns (ok: bool, next: nat)
      requires forall key :: key in db.metrics ==> key.collectionId != at.collectionId
      requires Detailed(db, at, xs, nodes, peers, metrics)
      requires forall k: nat :: index <= k ==> (at.collectionId, k) !in errors
      modifies this`machines, this`instances, this`nodes, this`peers, this`metrics, this`errors
      ensures ok <==> RowsStorable(at, xs + m.instances)
      ensures ok ==> Detailed(db, at, xs + m.instances, nodes, peers, metrics)
      ensures ok ==> machines == Tables.UpsertMachine(old(machines), at, m)
      ensures ok ==> instances == InstancesOfMachine(old(instances), at, m)
      ensures ok ==> errors == AddErrors(old(errors), at.collectionId, index, MachineErrorRows(m))
      ensures ok ==> next == index + |MachineErrorRows(m)|
      ensures ok ==> forall k: nat :: next <= k ==> (at.collectionId, k) !in errors
    {
      hide Tables.RowsStorable;
      hide DistinctKeys;
      hide Detailed;
      hide AddErrors;
      hide InstanceErrorRows;
      hide UpsertInstances;
      hide Tables.UpsertMachine;
      UpsertMachine(at, m);
      next := InsertErrors(at, "machine", m.Id(), NIL_UUID, m.errors, index);
      ok, next := IngestInstances(db, xs, at, m, next);
      if !ok {
        return;
      }
      AddErrorsConcat(old(errors), at.collectionId, index, ErrorRows("machine", m.Id(), NIL_UUID, m.errors),
                      InstanceErrorRows(m.Id(), m.instances));
      var listingFailed := FindOperationError(m.errors, LIST_INSTANCES);
      if !listingFailed {
        MarkMissingInstances(at, m);
      }
    }

    /** Everything between the insertion of the run and the commit. */
    method IngestRows(s: Snapshot) returns (ok: bool)
      requires forall key :: key in metrics ==> key.collectionId != s.collectionId
      requires forall key :: key in errors ==> key.0 != s.collectionId
      modifies this`machines, this`instances, this`nodes, this`peers, this`metrics, this`errors
      ensures ok <==> Storable(s)
      ensures ok ==> Contents() == Commit(old(Contents()), s).(runs := runs)
    {
      hide Tables.RowsStorable;
      hide DistinctKeys;
      hide Detailed;
      hide AddErrors;
      hide FlatErrors;
      hide MachinesErrorRows;
      hide FlatInstances;
      hide UpsertMachines;
      hide InstancesOfMachines;
      hide ErrorsBefore;
      hide MachineErrorRows;
      var at := StampOf(s);
      ghost var db := old(Contents());
      DetailedNone(db, at);
      PrefixNone(db, s);
      var index := InsertErrors(at, "snapshot", NIL_UUID, NIL_UUID, s.errors, 0);
      for k := 0 to |s.machines|
        invariant Detailed(db, at, FlatInstances(s.machines[..k]), nodes, peers, metrics)
        invariant machines == UpsertMachines(db.machines, at, s.machines[..k])
        invariant instances == InstancesOfMachines(db.instances, at, s.machines[..k])
        invariant errors == AddErrors(db.errors, at.collectionId, 0, ErrorsBefore(s, k))
        invariant index == |ErrorsBefore(s, k)|
        invariant forall j: nat :: index <= j ==> (at.collectionId, j) !in errors
      {
        PrefixStep(db, s, k);
        ErrorsStep(db.errors, s, k);
        var stored;
        stored, index := IngestMachine(db, FlatInstances(s.machines[..k]), at, s.machines[k], index);
        if !stored {
          RejectedPrefix(s, k);
          return false;
        }
      }
      assert s.machines[..|s.machines|] == s.machines;
      DetailedAll(db, s, nodes, peers, metrics);
      PrefixAll(s);
      if |s.errors| == 0 {
        MarkMissingMachines(at, s.machines);
      }
      ok := true;
    }

    /** `Ingest`: the answer and the tables afterwards, for every snapshot and every fault. */
    method Ingest(s: Snapshot, fault: Fault) returns (r: Result<bool, IngestError>)
      requires Valid()
      modifies this
      ensures Valid()
      ensures r == Answer(old(Contents()), s, fault)
      ensures Contents() == if fault == Aborted then old(Contents()) else Apply(old(Contents()), Deliver(s))
      ensures r == Ok(true) <==> fault == NoFault && s.collectionId !in old(runs) && s.collectionId in runs
      ensures fault != AckLost && r != Ok(true) ==> Contents() == old(Contents())
    {
      hide MachinesAfter;
      hide InstancesAfter;
      hide UpsertNodes;
      hide PeersOfInstances;
      hide AddSamples;
      hide AddErrors;
      hide FlatErrors;
      hide FlatSamples;
      hide Tables.RowsStorable;
      hide Topology.Valid;
      var invalid := Validate(s);
      if invalid.Some? {
        return Err(InvalidSnapshot(invalid.value));
      }
      var errorCount := CountErrors(s);
      var saved := (machines, instances, nodes, peers, metrics);
      var savedRuns, savedErrors := runs, errors;
      if s.collectionId in runs {
        if !Matches(runs[s.collectionId], s) {
          return Err(PayloadReused(s.collectionId));
        }
        return if fault == NoFault then Ok(false) else Err(Unavailable);
      }
      runs := runs[s.collectionId := Run(s.startedAtMs, s.completedAtMs, errorCount == 0, |s.machines|, errorCount,
                                         Some(s), Some(Sha256(s)), false)];
      var ok := IngestRows(s);
      if !ok || fault == Aborted {
        runs, errors := savedRuns, savedErrors;
        machines, instances, nodes, peers, metrics := saved.0, saved.1, saved.2, saved.3, saved.4;
        return Err(if ok then Unavailable else ConstraintViolation);
      }
      CommitKeepsReferences(old(Contents()), s);
      return if fault == NoFault then Ok(true) else Err(Unavailable);
    }
  }

  lemma RejectedPrefix(s: Snapshot, k: nat)
    requires k < |s.machines|
    requires !RowsStorable(StampOf(s), FlatInstances(s.machines[..k + 1]))
    ensures !Storable(s)
  {
    FlatInstancesPrefix(s.machines, k + 1);
    if Storable(s) {
      var rest :| FlatInstances(s.machines) == FlatInstances(s.machines[..k + 1]) + rest;
      RowsStorablePrefix(StampOf(s), FlatInstances(s.machines[..k + 1]), rest);
    }
  }

  lemma {:induction false} FlatInstancesPrefix(ms: seq<Machine>, k: nat)
    requires k <= |ms|
    ensures exists rest :: FlatInstances(ms) == FlatInstances(ms[..k]) + rest
    decreases |ms| - k
  {
    if k == |ms| {
      assert ms[..k] == ms;
      assert FlatInstances(ms) == FlatInstances(ms[..k]) + [];
    } else {
      FlatInstancesPrefix(ms, k + 1);
      FlatInstancesStep(ms, k);
      var rest :| FlatInstances(ms) == FlatInstances(ms[..k + 1]) + rest;
      assert FlatInstances(ms) == FlatInstances(ms[..k]) + (ms[k].instances + rest);
    }
  }

  lemma CommitKeepsReferences(db: Db, s: Snapshot)
    requires forall key :: key in db.metrics ==> key.collectionId in db.runs
    requires forall key :: key in db.errors ==> key.0 in db.runs
    ensures forall key :: key in Commit(db, s).metrics ==> key.collectionId in Commit(db, s).runs
    ensures forall key :: key in Commit(db, s).errors ==> key.0 in Commit(db, s).runs
  {
    var samples := FlatSamples(StampOf(s), FlatInstances(s.machines));
    forall key | key in Commit(db, s).metrics ensures key.collectionId in Commit(db, s).runs {
      AddSamplesKeys(db.metrics, samples, key);
      if key !in db.metrics {
        var k :| 0 <= k < |samples| && samples[k].key == key;
        FlatSamplesKeys(StampOf(s), FlatInstances(s.machines), k);
      }
    }
    forall key | key in Commit(db, s).errors ensures key.0 in Commit(db, s).runs {
      AddErrorsKeys(db.errors, s.collectionId, 0, FlatErrors(s), key);
    }
  }

  /** `countErrors` counts exactly the rows that `insertErrors` will write. */
  method CountErrors(s: Snapshot) returns (count: nat)
    ensures count == |FlatErrors(s)|
  {
    count := |s.errors|;
    for k := 0 to |s.machines|
      invariant count == |s.errors| + |MachinesErrorRows(s.machines[..k])|
    {
      assert s.machines[..k + 1][..k] == s.machines[..k];
      var m := s.machines[k];
      ghost var before := count;
      count := count + |m.errors|;
      for j := 0 to |m.instances|
        invariant count == before + |m.errors| + |InstanceErrorRows(m.Id(), m.instances[..j])|
      {
        assert m.instances[..j + 1][..j] == m.instances[..j];
        count := count + |m.instances[j].errors|;
      }
      assert m.instances[..|m.instances|] == m.instances;
    }
    assert s.machines[..|s.machines|] == s.machines;
  }
}
