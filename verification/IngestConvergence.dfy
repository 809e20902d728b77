/** Any-order convergence: whatever the delivery order, repeats, deactivations and prunes in between, the latest
    observation of each machine, instance and node wins
    (controller/internal/ingest/store.go:132-157, 179-194, 259-277). */
module IngestConvergence {
  import opened Wrappers
  import opened Topology
  import opened Tables

  ghost function Delivered(es: seq<Event>): set<Snapshot> {
    set k | 0 <= k < |es| && es[k].Deliver? :: es[k].snapshot
  }

  /** The delivered snapshots that no validation and no constraint rejects. */
  ghost function Stored(es: seq<Event>): set<Snapshot> {
    set s | s in Delivered(es) && Valid(s) && Storable(s)
  }

  ghost predicate OneIdOneSnapshot(ss: set<Snapshot>) {
    forall s, t :: s in ss && t in ss && s.collectionId == t.collectionId ==> s == t
  }

  // ---------- sightings ----------

  datatype Listing = Listing(owner: Uuid, instance: Instance)

  ghost function MachinesIn(ms: seq<Machine>, id: Uuid): set<Machine> {
    set x | x in ms && x.Id() == id
  }

  ghost function ListingsIn(ms: seq<Machine>, id: Uuid): set<Listing> {
    set m, x | m in ms && x in m.instances && x.instanceId == id :: Listing(m.Id(), x)
  }

  ghost function NodesIn(at: Stamp, xs: seq<Instance>, id: Uuid): set<NodeRow> {
    set x | x in xs && x.instanceId == id && x.node.Some? ::
      NodeRow(x.node.value, x.observedAtMs, at.completedAt, at.collectionId)
  }

  ghost function MachineSightings(ss: set<Snapshot>, id: Uuid): set<Machine> {
    set s, x | s in ss && x in MachinesIn(s.machines, id) :: x
  }

  ghost function InstanceSightings(ss: set<Snapshot>, id: Uuid): set<Listing> {
    set s, x | s in ss && x in ListingsIn(s.machines, id) :: x
  }

  ghost function NodeSightings(ss: set<Snapshot>, id: Uuid): set<NodeRow> {
    set s, x | s in ss && x in NodesIn(StampOf(s), FlatInstances(s.machines), id) :: x
  }

  // ---------- the row is the latest sighting ----------

  /** The description of a machine is its session, column by column. */
  predicate Describes(info: MachineInfo, s: Session) {
    && info.remoteUrl == s.remoteUrl && info.hostname == s.hostname && info.easytierVersion == s.easytierVersion
    && info.reportTime == s.reportTime && info.connectedAt == s.connectedAtMs
    && info.lastHeartbeatAt == s.lastHeartbeatAtMs && info.device == s.device
  }

  ghost predicate LatestMachine(t: MachineTable, seen: set<Machine>, id: Uuid) {
    && (id in t <==> seen != {})
    && (id in t ==> exists x :: x in seen && x.observedAtMs == t[id].observedAt && Describes(t[id].info, x.session))
    && (id in t ==> forall x :: x in seen ==> x.observedAtMs <= t[id].observedAt)
  }

  ghost predicate LatestInstance(t: InstanceTable, seen: set<Listing>, id: Uuid) {
    && (id in t <==> seen != {})
    && (id in t ==> exists x :: x in seen && x.instance.observedAtMs == t[id].observedAt && x.owner == t[id].machineId)
    && (id in t ==> forall x :: x in seen ==> x.instance.observedAtMs <= t[id].observedAt)
  }

  ghost predicate LatestNode(t: NodeTable, seen: set<NodeRow>, id: Uuid) {
    && (id in t <==> seen != {})
    && (id in t ==> t[id] in seen)
    && (id in t ==> forall x :: x in seen ==> !Before(t[id].observedAt, t[id].completedAt, x.observedAt, x.completedAt))
  }

  lemma UpsertMachineLatest(t: MachineTable, seen: set<Machine>, at: Stamp, m: Machine, id: Uuid)
    requires LatestMachine(t, seen, id)
    ensures LatestMachine(Tables.UpsertMachine(t, at, m), if m.Id() == id then seen + {m} else seen, id)
  {
  }

  lemma {:induction false} UpsertMachinesLatest(t: MachineTable, seen: set<Machine>, at: Stamp, ms: seq<Machine>,
                                                id: Uuid)
    requires LatestMachine(t, seen, id)
    ensures LatestMachine(UpsertMachines(t, at, ms), seen + MachinesIn(ms, id), id)
  {
    hide LatestMachine;
    hide Tables.UpsertMachine;
    if ms == [] {
      assert seen + MachinesIn(ms, id) == seen;
    } else {
      var front, m := ms[..|ms| - 1], ms[|ms| - 1];
      UpsertMachinesLatest(t, seen, at, front, id);
      assert ms == front + [m];
      var before := seen + MachinesIn(front, id);
      UpsertMachineLatest(UpsertMachines(t, at, front), before, at, m, id);
      assert seen + MachinesIn(ms, id) == if m.Id() == id then before + {m} else before;
    }
  }

  lemma UpsertInstanceLatest(t: InstanceTable, seen: set<Listing>, at: Stamp, owner: Uuid, x: Instance, id: Uuid)
    requires LatestInstance(t, seen, id)
    ensures LatestInstance(Tables.UpsertInstance(t, at, owner, x),
                           if x.instanceId == id then seen + {Listing(owner, x)} else seen, id)
  {
  }

  lemma {:induction false} UpsertInstancesLatest(
      t: InstanceTable, seen: set<Listing>, at: Stamp, owner: Uuid, xs: seq<Instance>, id: Uuid)
    requires LatestInstance(t, seen, id)
    ensures LatestInstance(UpsertInstances(t, at, owner, xs),
                           seen + (set x | x in xs && x.instanceId == id :: Listing(owner, x)), id)
  {
    hide LatestInstance;
    hide Tables.UpsertInstance;
    var mine := set x | x in xs && x.instanceId == id :: Listing(owner, x);
    if xs == [] {
      assert seen + mine == seen;
    } else {
      var front, x := xs[..|xs| - 1], xs[|xs| - 1];
      UpsertInstancesLatest(t, seen, at, owner, front, id);
      assert xs == front + [x];
      var before := seen + (set y | y in front && y.instanceId == id :: Listing(owner, y));
      UpsertInstanceLatest(UpsertInstances(t, at, owner, front), before, at, owner, x, id);
      assert seen + mine == if x.instanceId == id then before + {Listing(owner, x)} else before;
    }
  }

  ghost function ListedBy(m: Machine, id: Uuid): set<Listing> {
    set x | x in m.instances && x.instanceId == id :: Listing(m.Id(), x)
  }

  lemma InstancesOfMachineLatest(t: InstanceTable, seen: set<Listing>, at: Stamp, m: Machine, id: Uuid)
    requires LatestInstance(t, seen, id)
    ensures LatestInstance(InstancesOfMachine(t, at, m), seen + ListedBy(m, id), id)
  {
    UpsertInstancesLatest(t, seen, at, m.Id(), m.instances, id);
    hide UpsertInstances;
  }

  lemma ListingsStep(front: seq<Machine>, m: Machine, id: Uuid)
    ensures ListingsIn(front + [m], id) == ListingsIn(front, id) + ListedBy(m, id)
  {
  }

  lemma {:induction false} InstancesOfMachinesLatest(t: InstanceTable, seen: set<Listing>, at: Stamp,
                                                     ms: seq<Machine>, id: Uuid)
    requires LatestInstance(t, seen, id)
    ensures LatestInstance(InstancesOfMachines(t, at, ms), seen + ListingsIn(ms, id), id)
  {
    hide LatestInstance;
    hide InstancesOfMachine;
    if ms == [] {
      assert seen + ListingsIn(ms, id) == seen;
    } else {
      var front, m := ms[..|ms| - 1], ms[|ms| - 1];
      InstancesOfMachinesLatest(t, seen, at, front, id);
      assert ms == front + [m];
      ListingsStep(front, m, id);
      assert seen + ListingsIn(ms, id) == (seen + ListingsIn(front, id)) + ListedBy(m, id);
      InstancesOfMachineLatest(InstancesOfMachines(t, at, front), seen + ListingsIn(front, id), at, m, id);
    }
  }

  lemma {:induction false} UpsertNodesLatest(t: NodeTable, seen: set<NodeRow>, at: Stamp, xs: seq<Instance>, id: Uuid)
    requires LatestNode(t, seen, id)
    ensures LatestNode(UpsertNodes(t, at, xs), seen + NodesIn(at, xs, id), id)
  {
    if xs == [] {
      assert seen + NodesIn(at, xs, id) == seen;
    } else {
      var front, x := xs[..|xs| - 1], xs[|xs| - 1];
      UpsertNodesLatest(t, seen, at, front, id);
      assert xs == front + [x];
      var before := seen + NodesIn(at, front, id);
      assert seen + NodesIn(at, xs, id) ==
             if x.instanceId == id && x.node.Some?
             then before + {NodeRow(x.node.value, x.observedAtMs, at.completedAt, at.collectionId)} else before;
    }
  }

  // ---------- histories ----------

  /** The rows of one machine, instance and node id against everything stored so far. */
  ghost predicate Latest(db: Db, ss: set<Snapshot>, id: Uuid) {
    && LatestMachine(db.machines, MachineSightings(ss, id), id)
    && LatestInstance(db.instances, InstanceSightings(ss, id), id)
    && LatestNode(db.nodes, NodeSightings(ss, id), id)
  }

  lemma SightingsStep(ss: set<Snapshot>, s: Snapshot, id: Uuid)
    ensures MachineSightings(ss + {s}, id) == MachineSightings(ss, id) + MachinesIn(s.machines, id)
    ensures InstanceSightings(ss + {s}, id) == InstanceSightings(ss, id) + ListingsIn(s.machines, id)
    ensures NodeSightings(ss + {s}, id)
            == NodeSightings(ss, id) + NodesIn(StampOf(s), FlatInstances(s.machines), id)
  {
    hide MachinesIn;
    hide ListingsIn;
    hide NodesIn;
    hide FlatInstances;
  }

  lemma MachinesAfterLatest(t: MachineTable, seen: set<Machine>, s: Snapshot, id: Uuid)
    requires LatestMachine(t, seen, id)
    ensures LatestMachine(MachinesAfter(t, s), seen + MachinesIn(s.machines, id), id)
  {
    UpsertMachinesLatest(t, seen, StampOf(s), s.machines, id);
    hide UpsertMachines;
    hide MachinesIn;
  }

  lemma InstancesAfterLatest(t: InstanceTable, seen: set<Listing>, s: Snapshot, id: Uuid)
    requires LatestInstance(t, seen, id)
    ensures LatestInstance(InstancesAfter(t, s), seen + ListingsIn(s.machines, id), id)
  {
    InstancesOfMachinesLatest(t, seen, StampOf(s), s.machines, id);
    hide InstancesOfMachines;
    hide ListingsIn;
  }

  lemma CommitLatest(db: Db, ss: set<Snapshot>, s: Snapshot, id: Uuid)
    requires Latest(db, ss, id) && Accepts(db, s)
    ensures Latest(Apply(db, Deliver(s)), ss + {s}, id)
  {
    hide Apply;
    hide Accepts;
    hide FlatInstances;
    hide LatestMachine;
    hide LatestInstance;
    hide LatestNode;
    ApplyCurrent(db, Deliver(s));
    SightingsStep(ss, s, id);
    MachinesAfterLatest(db.machines, MachineSightings(ss, id), s, id);
    InstancesAfterLatest(db.instances, InstanceSightings(ss, id), s, id);
    UpsertNodesLatest(db.nodes, NodeSightings(ss, id), StampOf(s), FlatInstances(s.machines), id);
  }

  lemma StoredStep(es: seq<Event>, e: Event)
    ensures Delivered(es + [e]) == Delivered(es) + if e.Deliver? then {e.snapshot} else {}
    ensures Stored(es + [e])
            == Stored(es) + if e.Deliver? && Valid(e.snapshot) && Storable(e.snapshot) then {e.snapshot} else {}
  {
    hide Topology.Valid;
    hide Tables.Storable;
    var after := Delivered(es) + if e.Deliver? then {e.snapshot} else {};
    forall s | s in after ensures s in Delivered(es + [e]) {
      if s in Delivered(es) {
        var k :| 0 <= k < |es| && es[k].Deliver? && es[k].snapshot == s;
        assert (es + [e])[k].snapshot == s;
      } else {
        assert (es + [e])[|es|].snapshot == s;
      }
    }
    assert Delivered(es + [e]) == after;
  }

  ghost predicate RunsAre(db: Db, ss: set<Snapshot>) {
    forall id :: id in db.runs <==> exists s :: s in ss && s.collectionId == id
  }

  lemma RunsStep(db: Db, ss: set<Snapshot>, e: Event)
    requires RunsAre(db, ss)
    requires e.Deliver? ==> OneIdOneSnapshot(ss + {e.snapshot})
    ensures RunsAre(Apply(db, e),
                    ss + if e.Deliver? && Valid(e.snapshot) && Storable(e.snapshot) then {e.snapshot} else {})
    ensures e.Deliver? && Valid(e.snapshot) && Storable(e.snapshot) && !Accepts(db, e.snapshot) ==> e.snapshot in ss
  {
    ApplyRuns(db, e);
    hide Apply;
    hide Topology.Valid;
    hide Tables.Storable;
    hide RunOf;
    if e.Deliver? && Valid(e.snapshot) && Storable(e.snapshot) {
      var ss' := ss + {e.snapshot};
      if Accepts(db, e.snapshot) {
        assert e.snapshot in ss';
        forall id | id in db.runs ensures exists s :: s in ss' && s.collectionId == id {
          var s :| s in ss && s.collectionId == id;
          assert s in ss';
        }
      } else {
        var s :| s in ss && s.collectionId == e.snapshot.collectionId;
        assert s in ss' && e.snapshot in ss';
        assert ss' == ss;
      }
    } else {
      assert ss + {} == ss;
    }
  }

  /** After any history the rows are the latest sightings among the stored snapshots. */
  lemma {:induction false} HistoryLatest(es: seq<Event>, id: Uuid)
    requires OneIdOneSnapshot(Delivered(es))
    ensures RunsAre(Exec(EMPTY, es), Stored(es))
    ensures Latest(Exec(EMPTY, es), Stored(es), id)
  {
    hide Apply;
    hide Accepts;
    hide Latest;
    hide RunsAre;
    if es == [] {
      EmptyLatest(id);
      assert Stored(es) == {};
    } else {
      var front, e := es[..|es| - 1], es[|es| - 1];
      assert es == front + [e];
      StoredStep(front, e);
      HistoryLatest(front, id);
      var db := Exec(EMPTY, front);
      RunsStep(db, Stored(front), e);
      if e.Deliver? && Accepts(db, e.snapshot) {
        CommitLatest(db, Stored(front), e.snapshot, id);
        AcceptsStorable(db, e.snapshot);
      } else {
        assert Stored(es) == Stored(front);
        UnacceptedLatest(db, Stored(front), e, id);
      }
    }
  }

  lemma EmptyLatest(id: Uuid)
    ensures Latest(EMPTY, {}, id) && RunsAre(EMPTY, {})
  {
    assert MachineSightings({}, id) == {} && InstanceSightings({}, id) == {} && NodeSightings({}, id) == {};
  }

  lemma AcceptsStorable(db: Db, s: Snapshot)
    requires Accepts(db, s)
    ensures Valid(s) && Storable(s)
  {
    hide Topology.Valid;
    hide Tables.Storable;
  }

  lemma UnacceptedLatest(db: Db, ss: set<Snapshot>, e: Event, id: Uuid)
    requires Latest(db, ss, id)
    requires !(e.Deliver? && Accepts(db, e.snapshot))
    ensures Latest(Apply(db, e), ss, id)
  {
    ApplyCurrent(db, e);
    hide Apply;
    hide Accepts;
  }

  // ---------- convergence ----------

  ghost predicate DistinctMachineTimes(seen: set<Machine>) {
    forall x, y :: x in seen && y in seen && x.observedAtMs == y.observedAtMs ==> x == y
  }

  ghost predicate DistinctListingTimes(seen: set<Listing>) {
    forall x, y :: x in seen && y in seen && x.instance.observedAtMs == y.instance.observedAtMs ==> x == y
  }

  ghost predicate DistinctNodeKeys(seen: set<NodeRow>) {
    forall x, y :: x in seen && y in seen && x.observedAt == y.observedAt && x.completedAt == y.completedAt ==> x == y
  }

  /** Two histories that store the same snapshots, in any order, with any repeats, and with deactivations and
      retention in between. */
  ghost predicate SameDeliveries(es: seq<Event>, fs: seq<Event>) {
    OneIdOneSnapshot(Delivered(es)) && OneIdOneSnapshot(Delivered(fs)) && Stored(es) == Stored(fs)
  }

  lemma MachinesConverge(es: seq<Event>, fs: seq<Event>, id: Uuid)
    requires SameDeliveries(es, fs)
    ensures id in Exec(EMPTY, es).machines <==> MachineSightings(Stored(es), id) != {}
    ensures id in Exec(EMPTY, es).machines <==> id in Exec(EMPTY, fs).machines
    ensures id in Exec(EMPTY, es).machines ==>
              Exec(EMPTY, es).machines[id].observedAt == Exec(EMPTY, fs).machines[id].observedAt
    ensures id in Exec(EMPTY, es).machines ==>
              forall x :: x in MachineSightings(Stored(es), id) ==>
                x.observedAtMs <= Exec(EMPTY, es).machines[id].observedAt
    ensures id in Exec(EMPTY, es).machines && DistinctMachineTimes(MachineSightings(Stored(es), id)) ==>
              Exec(EMPTY, es).machines[id].info == Exec(EMPTY, fs).machines[id].info
  {
    HistoryLatest(es, id);
    HistoryLatest(fs, id);
  }

  lemma InstancesConverge(es: seq<Event>, fs: seq<Event>, id: Uuid)
    requires SameDeliveries(es, fs)
    ensures id in Exec(EMPTY, es).instances <==> InstanceSightings(Stored(es), id) != {}
    ensures id in Exec(EMPTY, es).instances <==> id in Exec(EMPTY, fs).instances
    ensures id in Exec(EMPTY, es).instances ==>
              Exec(EMPTY, es).instances[id].observedAt == Exec(EMPTY, fs).instances[id].observedAt
    ensures id in Exec(EMPTY, es).instances ==>
              forall x :: x in InstanceSightings(Stored(es), id) ==>
                x.instance.observedAtMs <= Exec(EMPTY, es).instances[id].observedAt
    ensures id in Exec(EMPTY, es).instances && DistinctListingTimes(InstanceSightings(Stored(es), id)) ==>
              Exec(EMPTY, es).instances[id].machineId == Exec(EMPTY, fs).instances[id].machineId
  {
    HistoryLatest(es, id);
    HistoryLatest(fs, id);
  }

  /** Nodes are never deactivated: distinct (observation, completion) keys are enough for whole rows to agree. */
  lemma NodesConverge(es: seq<Event>, fs: seq<Event>, id: Uuid)
    requires SameDeliveries(es, fs)
    requires DistinctNodeKeys(NodeSightings(Stored(es), id))
    ensures id in Exec(EMPTY, es).nodes <==> NodeSightings(Stored(es), id) != {}
    ensures id in Exec(EMPTY, es).nodes <==> id in Exec(EMPTY, fs).nodes
    ensures id in Exec(EMPTY, es).nodes ==> Exec(EMPTY, es).nodes[id] == Exec(EMPTY, fs).nodes[id]
  {
    HistoryLatest(es, id);
    HistoryLatest(fs, id);
    var a, b := Exec(EMPTY, es).nodes, Exec(EMPTY, fs).nodes;
    if id in a {
      assert !Before(a[id].observedAt, a[id].completedAt, b[id].observedAt, b[id].completedAt);
      assert !Before(b[id].observedAt, b[id].completedAt, a[id].observedAt, a[id].completedAt);
    }
  }
}
