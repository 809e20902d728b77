/** What holds of the tables in every reachable state, for any delivery order, and how row keys move
    (controller/internal/ingest/store.go:125-422). */
module IngestInvariants {
  import opened Wrappers
  import opened Topology
  import opened Tables

  // ---------- rows ----------

  /** A row's life: visible or gone, and gone exactly since the collection that last stamped it, which
      completed after the last observation. */
  predicate LifeOk(active: bool, disappearedAt: Option<nat>, observedAt: nat, completedAt: nat) {
    && observedAt <= completedAt
    && (active <==> disappearedAt.None?)
    && (!active ==> disappearedAt == Some(completedAt) && observedAt < completedAt)
  }

  predicate KeyLe(observed: nat, completed: nat, observed': nat, completed': nat) {
    observed < observed' || (observed == observed' && completed <= completed')
  }

  ghost predicate MachinesOk(t: MachineTable, runs: set<Uuid>) {
    forall id :: id in t ==>
      LifeOk(t[id].active, t[id].disappearedAt, t[id].observedAt, t[id].completedAt) && t[id].collectionId in runs
  }

  ghost predicate InstancesOk(t: InstanceTable, machines: set<Uuid>, runs: set<Uuid>) {
    forall id :: id in t ==>
      && LifeOk(t[id].active, t[id].disappearedAt, t[id].observedAt, t[id].completedAt)
      && t[id].machineId in machines && t[id].collectionId in runs
  }

  ghost predicate NodesOk(t: NodeTable, instances: InstanceTable, runs: set<Uuid>) {
    forall id :: id in t ==>
      && id in instances && t[id].observedAt <= instances[id].observedAt
      && t[id].observedAt <= t[id].completedAt && t[id].collectionId in runs
  }

  ghost predicate PeersOk(t: PeerTable, instances: InstanceTable, runs: set<Uuid>) {
    forall key :: key in t ==>
      && key.0 in instances && t[key].observedAt <= instances[key.0].observedAt
      && t[key].observedAt <= t[key].completedAt && t[key].collectionId in runs
  }

  ghost predicate MetricsOk(t: MetricTable, instances: InstanceTable, runs: set<Uuid>) {
    forall key :: key in t ==> key.collectionId in runs && key.instanceId in instances
  }

  /** The error rows of a collection are numbered without gaps and `error_count` counts them. */
  ghost predicate ErrorsOk(t: ErrorTable, runs: map<Uuid, Run>) {
    && (forall key :: key in t ==> key.0 in runs)
    && (forall id, k: nat :: id in runs ==> ((id, k) in t <==> k < runs[id].errorCount))
  }

  ghost predicate Inv(db: Db) {
    && MachinesOk(db.machines, db.runs.Keys)
    && InstancesOk(db.instances, db.machines.Keys, db.runs.Keys)
    && NodesOk(db.nodes, db.instances, db.runs.Keys)
    && PeersOk(db.peers, db.instances, db.runs.Keys)
    && MetricsOk(db.metrics, db.instances, db.runs.Keys)
    && ErrorsOk(db.errors, db.runs)
  }

  ghost predicate MachinesMove(t: MachineTable, t': MachineTable) {
    forall id :: id in t ==>
      id in t' && KeyLe(t[id].observedAt, t[id].completedAt, t'[id].observedAt, t'[id].completedAt)
  }

  ghost predicate InstancesMove(t: InstanceTable, t': InstanceTable) {
    forall id :: id in t ==>
      id in t' && KeyLe(t[id].observedAt, t[id].completedAt, t'[id].observedAt, t'[id].completedAt)
  }

  ghost predicate NodesMove(t: NodeTable, t': NodeTable) {
    forall id :: id in t ==>
      id in t' && KeyLe(t[id].observedAt, t[id].completedAt, t'[id].observedAt, t'[id].completedAt)
  }

  /** A peer link may be deleted; while it stays, its key does not decrease. */
  ghost predicate PeersMove(t: PeerTable, t': PeerTable) {
    forall key :: key in t && key in t' ==>
      KeyLe(t[key].observedAt, t[key].completedAt, t'[key].observedAt, t'[key].completedAt)
  }

  // ---------- machines ----------

  lemma {:induction false} UpsertMachinesKeep(t: MachineTable, at: Stamp, ms: seq<Machine>, runs: set<Uuid>)
    requires MachinesOk(t, runs) && at.collectionId in runs
    requires forall k :: 0 <= k < |ms| ==> ms[k].observedAtMs <= at.completedAt
    ensures MachinesOk(UpsertMachines(t, at, ms), runs)
    ensures MachinesMove(t, UpsertMachines(t, at, ms))
    ensures UpsertMachines(t, at, ms).Keys == t.Keys + Ids(ms)
  {
    if ms != [] {
      var front := ms[..|ms| - 1];
      UpsertMachinesKeep(t, at, front, runs);
      assert ms[|ms| - 1].observedAtMs <= at.completedAt;
      assert Ids(ms) == Ids(front) + {ms[|ms| - 1].Id()} by {
        assert forall k :: 0 <= k < |front| ==> front[k] == ms[k];
        forall id | id in Ids(ms) ensures id in Ids(front) + {ms[|ms| - 1].Id()} {
          var k :| 0 <= k < |ms| && ms[k].Id() == id;
          if k < |front| { assert front[k].Id() == id; }
        }
        forall id | id in Ids(front) ensures id in Ids(ms) {
          var k :| 0 <= k < |front| && front[k].Id() == id;
          assert ms[k].Id() == id;
        }
      }
    }
  }

  lemma MachinesAfterKeep(t: MachineTable, s: Snapshot, runs: set<Uuid>)
    requires MachinesOk(t, runs) && s.collectionId in runs && Valid(s)
    ensures MachinesOk(MachinesAfter(t, s), runs)
    ensures MachinesMove(t, MachinesAfter(t, s))
    ensures MachinesAfter(t, s).Keys == t.Keys + Ids(s.machines)
  {
    forall k | 0 <= k < |s.machines| ensures s.machines[k].observedAtMs <= s.completedAtMs {
      assert MachineOk(s.machines[k], s.completedAtMs);
    }
    UpsertMachinesKeep(t, StampOf(s), s.machines, runs);
  }

  // ---------- instances ----------

  /** Every listed instance has a row observed no earlier than the listing. */
  ghost predicate Covers(t: InstanceTable, xs: seq<Instance>) {
    forall k :: 0 <= k < |xs| ==> xs[k].instanceId in t && xs[k].observedAtMs <= t[xs[k].instanceId].observedAt
  }

  lemma MoveTransitive(a: InstanceTable, b: InstanceTable, c: InstanceTable)
    requires InstancesMove(a, b) && InstancesMove(b, c)
    ensures InstancesMove(a, c)
  {
  }

  lemma CoversMoves(t: InstanceTable, t': InstanceTable, xs: seq<Instance>)
    requires Covers(t, xs) && InstancesMove(t, t')
    ensures Covers(t', xs)
  {
  }

  lemma {:induction false} UpsertInstancesKeep(
      t: InstanceTable, at: Stamp, m: Uuid, xs: seq<Instance>, machines: set<Uuid>, runs: set<Uuid>)
    requires InstancesOk(t, machines, runs) && at.collectionId in runs && m in machines
    requires forall k :: 0 <= k < |xs| ==> xs[k].observedAtMs <= at.completedAt
    ensures InstancesOk(UpsertInstances(t, at, m, xs), machines, runs)
    ensures InstancesMove(t, UpsertInstances(t, at, m, xs))
    ensures Covers(UpsertInstances(t, at, m, xs), xs)
  {
    if xs != [] {
      var front := xs[..|xs| - 1];
      UpsertInstancesKeep(t, at, m, front, machines, runs);
      assert xs[|xs| - 1].observedAtMs <= at.completedAt;
      var before := UpsertInstances(t, at, m, front);
      var after := UpsertInstances(t, at, m, xs);
      assert InstancesMove(before, after);
      CoversMoves(before, after, front);
      assert forall k :: 0 <= k < |front| ==> front[k] == xs[k];
    }
  }

  lemma InstancesOfMachineKeep(t: InstanceTable, at: Stamp, m: Machine, machines: set<Uuid>, runs: set<Uuid>)
    requires InstancesOk(t, machines, runs) && at.collectionId in runs && m.Id() in machines
             && MachineOk(m, at.completedAt)
    ensures InstancesOk(InstancesOfMachine(t, at, m), machines, runs)
    ensures InstancesMove(t, InstancesOfMachine(t, at, m))
    ensures Covers(InstancesOfMachine(t, at, m), m.instances)
  {
    forall k | 0 <= k < |m.instances| ensures m.instances[k].observedAtMs <= at.completedAt {
      assert InstanceOk(m.instances[k], at.completedAt);
    }
    UpsertInstancesKeep(t, at, m.Id(), m.instances, machines, runs);
    hide UpsertInstances;
    var middle := UpsertInstances(t, at, m.Id(), m.instances);
    var after := InstancesOfMachine(t, at, m);
    assert InstancesMove(middle, after);
    MoveTransitive(t, middle, after);
    CoversMoves(middle, after, m.instances);
  }

  lemma IdsOfFront(ms: seq<Machine>)
    requires ms != []
    ensures Ids(ms[..|ms| - 1]) <= Ids(ms) && ms[|ms| - 1].Id() in Ids(ms)
  {
    assert forall k :: 0 <= k < |ms| - 1 ==> ms[..|ms| - 1][k] == ms[k];
  }

  lemma CoversBoth(t: InstanceTable, a: seq<Instance>, b: seq<Instance>)
    requires Covers(t, a) && Covers(t, b)
    ensures Covers(t, a + b)
  {
  }

  lemma {:induction false} InstancesOfMachinesKeep(
      t: InstanceTable, at: Stamp, ms: seq<Machine>, machines: set<Uuid>, runs: set<Uuid>)
    requires InstancesOk(t, machines, runs) && at.collectionId in runs && Ids(ms) <= machines
    requires forall k :: 0 <= k < |ms| ==> MachineOk(ms[k], at.completedAt)
    ensures InstancesOk(InstancesOfMachines(t, at, ms), machines, runs)
    ensures InstancesMove(t, InstancesOfMachines(t, at, ms))
    ensures Covers(InstancesOfMachines(t, at, ms), FlatInstances(ms))
  {
    if ms != [] {
      var front, m := ms[..|ms| - 1], ms[|ms| - 1];
      IdsOfFront(ms);
      hide MachineOk;
      InstancesOfMachinesKeep(t, at, front, machines, runs);
      assert MachineOk(m, at.completedAt);
      hide Ids;
      var before := InstancesOfMachines(t, at, front);
      InstancesOfMachineKeep(before, at, m, machines, runs);
      var after := InstancesOfMachine(before, at, m);
      hide InstancesOfMachine;
      MoveTransitive(t, before, after);
      CoversMoves(before, after, FlatInstances(front));
      CoversBoth(after, FlatInstances(front), m.instances);
      hide Covers;
      hide InstancesMove;
      hide InstancesOk;
    }
  }

  lemma InstancesAfterKeep(t: InstanceTable, s: Snapshot, machines: set<Uuid>, runs: set<Uuid>)
    requires InstancesOk(t, machines, runs) && s.collectionId in runs && Ids(s.machines) <= machines && Valid(s)
    ensures InstancesOk(InstancesAfter(t, s), machines, runs)
    ensures InstancesMove(t, InstancesAfter(t, s))
    ensures Covers(InstancesAfter(t, s), FlatInstances(s.machines))
  {
    InstancesOfMachinesKeep(t, StampOf(s), s.machines, machines, runs);
    var listed := InstancesOfMachines(t, StampOf(s), s.machines);
    var after := InstancesAfter(t, s);
    assert InstancesMove(listed, after);
    MoveTransitive(t, listed, after);
    CoversMoves(listed, after, FlatInstances(s.machines));
  }

  // ---------- nodes, peers, metrics, errors ----------

  lemma {:induction false} UpsertNodesKeep(
      t: NodeTable, at: Stamp, xs: seq<Instance>, instances: InstanceTable, runs: set<Uuid>)
    requires NodesOk(t, instances, runs) && Covers(instances, xs) && at.collectionId in runs
    requires forall k :: 0 <= k < |xs| ==> xs[k].observedAtMs <= at.completedAt
    ensures NodesOk(UpsertNodes(t, at, xs), instances, runs)
    ensures NodesMove(t, UpsertNodes(t, at, xs))
  {
    if xs != [] {
      assert Covers(instances, xs[..|xs| - 1]);
      UpsertNodesKeep(t, at, xs[..|xs| - 1], instances, runs);
      assert xs[|xs| - 1].instanceId in instances && xs[|xs| - 1].observedAtMs <= at.completedAt;
    }
  }

  lemma {:induction false} UpsertPeersKeep(
      t: PeerTable, at: Stamp, i: Instance, ps: seq<Peer>, instances: InstanceTable, runs: set<Uuid>)
    requires PeersOk(t, instances, runs) && at.collectionId in runs && i.observedAtMs <= at.completedAt
    requires i.instanceId in instances && i.observedAtMs <= instances[i.instanceId].observedAt
    ensures PeersOk(UpsertPeers(t, at, i, ps), instances, runs)
    ensures forall key :: key in t ==> key in UpsertPeers(t, at, i, ps)
    ensures PeersMove(t, UpsertPeers(t, at, i, ps))
  {
    if ps != [] {
      UpsertPeersKeep(t, at, i, ps[..|ps| - 1], instances, runs);
      var before := UpsertPeers(t, at, i, ps[..|ps| - 1]);
      var after := UpsertPeers(t, at, i, ps);
      assert PeersMove(before, after);
    }
  }

  lemma {:induction false} PeersOfInstancesKeep(
      t: PeerTable, at: Stamp, xs: seq<Instance>, instances: InstanceTable, runs: set<Uuid>)
    requires PeersOk(t, instances, runs) && Covers(instances, xs) && at.collectionId in runs
    requires forall k :: 0 <= k < |xs| ==> xs[k].observedAtMs <= at.completedAt
    ensures PeersOk(PeersOfInstances(t, at, xs), instances, runs)
  {
    if xs != [] {
      var i := xs[|xs| - 1];
      assert Covers(instances, xs[..|xs| - 1]);
      PeersOfInstancesKeep(t, at, xs[..|xs| - 1], instances, runs);
      assert i.instanceId in instances && i.observedAtMs <= at.completedAt;
      UpsertPeersKeep(PeersOfInstances(t, at, xs[..|xs| - 1]), at, i, i.peers, instances, runs);
    }
  }

  /** Rows of an instance that the snapshot does not list are untouched. */
  lemma {:induction false} PeersElsewhere(t: PeerTable, at: Stamp, xs: seq<Instance>, key: PeerKey)
    requires key.0 !in InstanceIds(xs)
    ensures key in PeersOfInstances(t, at, xs) <==> key in t
    ensures key in t ==> PeersOfInstances(t, at, xs)[key] == t[key]
  {
    if xs != [] {
      var i := xs[|xs| - 1];
      assert i.instanceId in InstanceIds(xs);
      assert key.0 !in InstanceIds(xs[..|xs| - 1]) by {
        assert forall k :: 0 <= k < |xs| - 1 ==>
                 xs[..|xs| - 1][k].instanceId == xs[k].instanceId && xs[k].instanceId in InstanceIds(xs);
      }
      PeersElsewhere(t, at, xs[..|xs| - 1], key);
      UpsertPeersElsewhere(PeersOfInstances(t, at, xs[..|xs| - 1]), at, i, i.peers, key);
    }
  }

  lemma {:induction false} UpsertPeersElsewhere(t: PeerTable, at: Stamp, i: Instance, ps: seq<Peer>, key: PeerKey)
    requires key.0 != i.instanceId || key.1 !in PeerIds(ps)
    ensures key in UpsertPeers(t, at, i, ps) <==> key in t
    ensures key in t ==> UpsertPeers(t, at, i, ps)[key] == t[key]
  {
    if ps != [] {
      assert ps[|ps| - 1].peerId in PeerIds(ps);
      assert PeerIds(ps[..|ps| - 1]) <= PeerIds(ps) by {
        assert forall k :: 0 <= k < |ps| - 1 ==> ps[..|ps| - 1][k] == ps[k];
      }
      UpsertPeersElsewhere(t, at, i, ps[..|ps| - 1], key);
    }
  }

  ghost predicate DistinctInstances(xs: seq<Instance>) {
    forall a, b :: 0 <= a < b < |xs| ==> xs[a].instanceId != xs[b].instanceId
  }

  /** Listings of one instance stand in nondecreasing order of observation; in particular if there is only one. */
  ghost predicate Chronological(xs: seq<Instance>) {
    forall a, b :: 0 <= a < b < |xs| && xs[a].instanceId == xs[b].instanceId ==>
      xs[a].observedAtMs <= xs[b].observedAtMs
  }

  /** A link that is still there has not gone back; one that has gone was older than some listing so far. */
  ghost predicate Advanced(t: PeerTable, cur: PeerTable, at: Stamp, xs: seq<Instance>, key: PeerKey)
    requires key in t
  {
    if key in cur then KeyLe(t[key].observedAt, t[key].completedAt, cur[key].observedAt, cur[key].completedAt)
    else exists a :: 0 <= a < |xs| && xs[a].instanceId == key.0
                     && KeyLe(t[key].observedAt, t[key].completedAt, xs[a].observedAtMs, at.completedAt)
  }

  lemma {:induction false} InsertedKey(t: PeerTable, at: Stamp, i: Instance, ps: seq<Peer>, key: PeerKey)
    requires key !in t && key.0 == i.instanceId
    ensures key in UpsertPeers(t, at, i, ps) <==> key.1 in PeerIds(ps)
    ensures key in UpsertPeers(t, at, i, ps) ==>
              && UpsertPeers(t, at, i, ps)[key].observedAt == i.observedAtMs
              && UpsertPeers(t, at, i, ps)[key].completedAt == at.completedAt
  {
    if ps != [] {
      var front, p := ps[..|ps| - 1], ps[|ps| - 1];
      InsertedKey(t, at, i, front, key);
      assert PeerIds(ps) == PeerIds(front) + {p.peerId} by {
        assert forall k :: 0 <= k < |front| ==> ps[k] == front[k];
        assert ps[|front|] == p;
      }
    }
  }

  lemma {:induction false} LinkAdvances(t: PeerTable, at: Stamp, xs: seq<Instance>, key: PeerKey)
    requires Chronological(xs) && key in t
    ensures Advanced(t, PeersOfInstances(t, at, xs), at, xs, key)
  {
    if xs != [] {
      var front, i := xs[..|xs| - 1], xs[|xs| - 1];
      assert forall k :: 0 <= k < |front| ==> front[k] == xs[k];
      LinkAdvances(t, at, front, key);
      var before := PeersOfInstances(t, at, front);
      if key in before {
        if key.0 == i.instanceId {
          UpsertPeersMove(before, at, i, i.peers, key);
        } else {
          UpsertPeersElsewhere(before, at, i, i.peers, key);
        }
        assert xs[|xs| - 1] == i;
      } else {
        var a :| 0 <= a < |front| && front[a].instanceId == key.0
                 && KeyLe(t[key].observedAt, t[key].completedAt, front[a].observedAtMs, at.completedAt);
        assert xs[a] == front[a];
        if key.0 == i.instanceId {
          InsertedKey(before, at, i, i.peers, key);
        } else {
          UpsertPeersElsewhere(before, at, i, i.peers, key);
        }
      }
    }
  }

  /** A snapshot whose listings are chronological never lowers the key of a link that survives it. */
  lemma PeersOfInstancesMove(t: PeerTable, at: Stamp, xs: seq<Instance>)
    requires Chronological(xs)
    ensures PeersMove(t, PeersOfInstances(t, at, xs))
  {
    forall key | key in t ensures Advanced(t, PeersOfInstances(t, at, xs), at, xs, key) {
      LinkAdvances(t, at, xs, key);
    }
  }

  lemma {:induction false} UpsertPeersMove(t: PeerTable, at: Stamp, i: Instance, ps: seq<Peer>, key: PeerKey)
    requires key in t
    ensures key in UpsertPeers(t, at, i, ps)
    ensures KeyLe(t[key].observedAt, t[key].completedAt,
                  UpsertPeers(t, at, i, ps)[key].observedAt, UpsertPeers(t, at, i, ps)[key].completedAt)
  {
    if ps != [] {
      UpsertPeersMove(t, at, i, ps[..|ps| - 1], key);
    }
  }

  lemma MetricsAfterKeep(t: MetricTable, at: Stamp, xs: seq<Instance>, instances: InstanceTable, runs: set<Uuid>)
    requires MetricsOk(t, instances, runs) && Covers(instances, xs) && at.collectionId in runs
    ensures MetricsOk(AddSamples(t, FlatSamples(at, xs)), instances, runs)
  {
    var samples := FlatSamples(at, xs);
    forall key | key in AddSamples(t, samples) ensures key.collectionId in runs && key.instanceId in instances {
      AddSamplesKeys(t, samples, key);
      if key !in t {
        var k :| 0 <= k < |samples| && samples[k].key == key;
        FlatSamplesKeys(at, xs, k);
      }
    }
  }

  lemma ErrorsAfterKeep(t: ErrorTable, runs: map<Uuid, Run>, s: Snapshot)
    requires ErrorsOk(t, runs) && s.collectionId !in runs
    ensures ErrorsOk(AddErrors(t, s.collectionId, 0, FlatErrors(s)), runs[s.collectionId := RunOf(s)])
  {
    hide FlatErrors;
    hide AddErrors;
    var after := AddErrors(t, s.collectionId, 0, FlatErrors(s));
    forall key | key in after ensures key.0 in runs[s.collectionId := RunOf(s)] {
      AddErrorsKeys(t, s.collectionId, 0, FlatErrors(s), key);
    }
    forall id, k: nat | id in runs[s.collectionId := RunOf(s)]
      ensures (id, k) in after <==> k < runs[s.collectionId := RunOf(s)][id].errorCount
    {
      AddErrorsKeys(t, s.collectionId, 0, FlatErrors(s), (id, k));
    }
  }

  lemma {:induction false} FlatObserved(ms: seq<Machine>, completed: Millis64)
    requires forall k :: 0 <= k < |ms| ==> MachineOk(ms[k], completed)
    ensures forall k :: 0 <= k < |FlatInstances(ms)| ==> InstanceOk(FlatInstances(ms)[k], completed)
  {
    if ms != [] {
      FlatObserved(ms[..|ms| - 1], completed);
      assert MachineOk(ms[|ms| - 1], completed);
    }
  }

  // ---------- steps and runs ----------

  lemma CommitKeeps(db: Db, s: Snapshot)
    requires Inv(db) && Accepts(db, s)
    ensures Inv(Commit(db, s))
    ensures MachinesMove(db.machines, Commit(db, s).machines)
    ensures InstancesMove(db.instances, Commit(db, s).instances)
    ensures NodesMove(db.nodes, Commit(db, s).nodes)
  {
    hide MachinesAfter;
    hide InstancesAfter;
    hide FlatInstances;
    hide Tables.RowsStorable;
    var runs := db.runs.Keys + {s.collectionId};
    var db' := Commit(db, s);
    var xs := FlatInstances(s.machines);
    assert db'.runs.Keys == runs;
    MachinesAfterKeep(db.machines, s, runs);
    InstancesAfterKeep(db.instances, s, db'.machines.Keys, runs);
    FlatObserved(s.machines, s.completedAtMs);
    assert forall k :: 0 <= k < |xs| ==> InstanceOk(xs[k], s.completedAtMs);
    UpsertNodesKeep(db.nodes, StampOf(s), xs, db'.instances, runs);
    PeersOfInstancesKeep(db.peers, StampOf(s), xs, db'.instances, runs);
    MetricsAfterKeep(db.metrics, StampOf(s), xs, db'.instances, runs);
    ErrorsAfterKeep(db.errors, db.runs, s);
  }

  lemma ApplyKeeps(db: Db, e: Event)
    requires Inv(db)
    ensures Inv(Apply(db, e))
    ensures MachinesMove(db.machines, Apply(db, e).machines)
    ensures InstancesMove(db.instances, Apply(db, e).instances)
    ensures NodesMove(db.nodes, Apply(db, e).nodes)
  {
    hide Commit;
    hide Accepts;
    match e
    case Deliver(s) =>
      if Accepts(db, s) {
        CommitKeeps(db, s);
      }
    case Prune(ids) =>
      assert PruneRuns(db.runs, ids).Keys == db.runs.Keys;
    case DeleteSamples(keys) =>
  }

  /** Every reachable state is consistent, whatever is delivered and in whatever order. */
  lemma {:induction false} ReachableIsConsistent(es: seq<Event>)
    ensures Inv(Exec(EMPTY, es))
  {
    if es != [] {
      ReachableIsConsistent(es[..|es| - 1]);
      ApplyKeeps(Exec(EMPTY, es[..|es| - 1]), es[|es| - 1]);
    }
  }

  /** Between any two moments of a history no row key of a machine, instance or node decreases. */
  lemma {:induction false} KeysNeverDecrease(es: seq<Event>, later: seq<Event>)
    ensures MachinesMove(Exec(EMPTY, es).machines, Exec(EMPTY, es + later).machines)
    ensures InstancesMove(Exec(EMPTY, es).instances, Exec(EMPTY, es + later).instances)
    ensures NodesMove(Exec(EMPTY, es).nodes, Exec(EMPTY, es + later).nodes)
    decreases |later|
  {
    hide Apply;
    hide Inv;
    if later == [] {
      assert es + later == es;
    } else {
      var front := later[..|later| - 1];
      KeysNeverDecrease(es, front);
      assert (es + later)[..|es + later| - 1] == es + front;
      ReachableIsConsistent(es + front);
      ApplyKeeps(Exec(EMPTY, es + front), later[|later| - 1]);
    }
  }
}
