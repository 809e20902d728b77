/** The telemetry tables and the meaning of every statement `Ingest` sends to them
    (controller/internal/ingest/store.go and database/migrations).

    Each table is a map keyed by its primary key. `Commit` describes a whole accepted snapshot table
    by table; IngestStore proves that the interleaved statements of the source add up to it. */
module Tables {
  import opened Wrappers
  import opened Topology

  /** SHA-256 of the marshalled snapshot, taken to be injective: a free constructor. */
  datatype Digest = Sha256(payload: Snapshot)

  /** `payload` is `None` once the raw payload has been replaced by JSON null; `sha256` is `None` in rows
      written before fingerprints existed. */
  datatype Run = Run(
    startedAt: nat, completedAt: nat, complete: bool, machineCount: nat, errorCount: nat,
    payload: Option<Snapshot>, sha256: Option<Digest>, pruned: bool)

  datatype MachineInfo = MachineInfo(
    remoteUrl: string, hostname: string, easytierVersion: string, reportTime: string,
    connectedAt: nat, lastHeartbeatAt: nat, device: Option<Device>)

  datatype MachineRow = MachineRow(
    info: MachineInfo, active: bool, disappearedAt: Option<nat>,
    observedAt: nat, completedAt: nat, collectionId: Uuid)

  datatype InstanceRow = InstanceRow(
    machineId: Uuid, active: bool, disappearedAt: Option<nat>,
    observedAt: nat, completedAt: nat, collectionId: Uuid)

  datatype NodeRow = NodeRow(node: Node, observedAt: nat, completedAt: nat, collectionId: Uuid)

  /** The columns of a peer link that come from the route. */
  datatype Route = Route(
    ipv4: Option<string>, hostname: string, nextHopPeerId: PeerId, direct: bool, pathCost: int, version: string)

  /** The columns of a peer link that come from `list_peers`. */
  datatype Details = Details(
    lossRate: Option<real>, rxBytes: Option<nat>, txBytes: Option<nat>, tunnelProtocols: Option<seq<string>>)

  datatype PeerRow = PeerRow(
    route: Route, latencyMs: Option<real>, details: Details,
    observedAt: nat, completedAt: nat, collectionId: Uuid)

  datatype MetricKey = MetricKey(
    collectionId: Uuid, instanceId: Uuid, name: string, labels: Option<map<string, string>>)

  datatype MetricRow = MetricRow(value: nat, observedAt: nat)

  datatype Sample = Sample(key: MetricKey, row: MetricRow)

  datatype ErrorRow = ErrorRow(
    scope: string, machineId: Option<Uuid>, instanceId: Option<Uuid>, error: TelemetryError)

  type PeerKey = (Uuid, PeerId)
  type MachineTable = map<Uuid, MachineRow>
  type InstanceTable = map<Uuid, InstanceRow>
  type NodeTable = map<Uuid, NodeRow>
  type PeerTable = map<PeerKey, PeerRow>
  type MetricTable = map<MetricKey, MetricRow>
  type ErrorTable = map<(Uuid, nat), ErrorRow>

  datatype Db = Db(
    runs: map<Uuid, Run>, machines: MachineTable, instances: InstanceTable, nodes: NodeTable,
    peers: PeerTable, metrics: MetricTable, errors: ErrorTable)

  const EMPTY := Db(map[], map[], map[], map[], map[], map[], map[])

  /** Which collection a statement is executed for. */
  datatype Stamp = Stamp(collectionId: Uuid, completedAt: Millis64)

  function StampOf(s: Snapshot): Stamp { Stamp(s.collectionId, s.completedAtMs) }

  /** The guard of every upsert: the stored key (observation, completion) is lexicographically smaller. */
  predicate Before(observed: nat, completed: nat, newObserved: nat, newCompleted: nat) {
    observed < newObserved || (observed == newObserved && completed < newCompleted)
  }

  // ---------- machines ----------

  function InfoOf(s: Session): MachineInfo {
    MachineInfo(s.remoteUrl, s.hostname, s.easytierVersion, s.reportTime, s.connectedAtMs, s.lastHeartbeatAtMs,
                s.device)
  }

  function FreshMachine(at: Stamp, m: Machine): MachineRow {
    MachineRow(InfoOf(m.session), true, None, m.observedAtMs, at.completedAt, at.collectionId)
  }

  function UpsertMachine(t: MachineTable, at: Stamp, m: Machine): MachineTable {
    if m.Id() in t && !Before(t[m.Id()].observedAt, t[m.Id()].completedAt, m.observedAtMs, at.completedAt) then t
    else t[m.Id() := FreshMachine(at, m)]
  }

  function UpsertMachines(t: MachineTable, at: Stamp, ms: seq<Machine>): MachineTable {
    if ms == [] then t
    else UpsertMachine(UpsertMachines(t, at, ms[..|ms| - 1]), at, ms[|ms| - 1])
  }

  function MarkMissingMachines(t: MachineTable, at: Stamp, listed: set<Uuid>): MachineTable {
    map id | id in t ::
      if t[id].active && id !in listed && t[id].completedAt < at.completedAt
      then t[id].(active := false, disappearedAt := Some(at.completedAt),
                  completedAt := at.completedAt, collectionId := at.collectionId)
      else t[id]
  }

  function Ids(ms: seq<Machine>): set<Uuid> { set k | 0 <= k < |ms| :: ms[k].Id() }

  function MachinesAfter(t: MachineTable, s: Snapshot): MachineTable {
    var upserted := UpsertMachines(t, StampOf(s), s.machines);
    if s.errors == [] then MarkMissingMachines(upserted, StampOf(s), Ids(s.machines)) else upserted
  }

  // ---------- instances ----------

  function FreshInstance(at: Stamp, machineId: Uuid, i: Instance): InstanceRow {
    InstanceRow(machineId, true, None, i.observedAtMs, at.completedAt, at.collectionId)
  }

  function UpsertInstance(t: InstanceTable, at: Stamp, machineId: Uuid, i: Instance): InstanceTable {
    var id := i.instanceId;
    if id in t && !Before(t[id].observedAt, t[id].completedAt, i.observedAtMs, at.completedAt) then t
    else t[id := FreshInstance(at, machineId, i)]
  }

  function UpsertInstances(t: InstanceTable, at: Stamp, machineId: Uuid, xs: seq<Instance>): InstanceTable {
    if xs == [] then t
    else UpsertInstance(UpsertInstances(t, at, machineId, xs[..|xs| - 1]), at, machineId, xs[|xs| - 1])
  }

  function Deactivated(r: InstanceRow, at: Stamp): InstanceRow {
    r.(active := false, disappearedAt := Some(at.completedAt),
       completedAt := at.completedAt, collectionId := at.collectionId)
  }

  function InstanceIds(xs: seq<Instance>): set<Uuid> { set k | 0 <= k < |xs| :: xs[k].instanceId }

  function MarkMissingInstances(t: InstanceTable, at: Stamp, m: Machine): InstanceTable {
    map id | id in t ::
      if t[id].machineId == m.Id() && t[id].active && id !in InstanceIds(m.instances)
         && t[id].completedAt < at.completedAt
      then Deactivated(t[id], at) else t[id]
  }

  function MarkOrphanInstances(t: InstanceTable, at: Stamp, listed: set<Uuid>): InstanceTable {
    map id | id in t ::
      if t[id].active && t[id].machineId !in listed && t[id].completedAt < at.completedAt
      then Deactivated(t[id], at) else t[id]
  }

  function InstancesOfMachine(t: InstanceTable, at: Stamp, m: Machine): InstanceTable {
    var upserted := UpsertInstances(t, at, m.Id(), m.instances);
    if HasOperationError(m.errors, LIST_INSTANCES) then upserted else MarkMissingInstances(upserted, at, m)
  }

  function InstancesOfMachines(t: InstanceTable, at: Stamp, ms: seq<Machine>): InstanceTable {
    if ms == [] then t
    else InstancesOfMachine(InstancesOfMachines(t, at, ms[..|ms| - 1]), at, ms[|ms| - 1])
  }

  function InstancesAfter(t: InstanceTable, s: Snapshot): InstanceTable {
    var listed := InstancesOfMachines(t, StampOf(s), s.machines);
    if s.errors == [] then MarkOrphanInstances(listed, StampOf(s), Ids(s.machines)) else listed
  }

  // ---------- nodes ----------

  function UpsertNode(t: NodeTable, at: Stamp, i: Instance): NodeTable {
    var id := i.instanceId;
    if i.node.None? then t
    else if id in t && !Before(t[id].observedAt, t[id].completedAt, i.observedAtMs, at.completedAt) then t
    else t[id := NodeRow(i.node.value, i.observedAtMs, at.completedAt, at.collectionId)]
  }

  function UpsertNodes(t: NodeTable, at: Stamp, xs: seq<Instance>): NodeTable {
    if xs == [] then t else UpsertNode(UpsertNodes(t, at, xs[..|xs| - 1]), at, xs[|xs| - 1])
  }

  // ---------- peers ----------

  function RouteOf(p: Peer): Route { Route(p.ipv4, p.hostname, p.nextHopPeerId, p.direct, p.pathCost, p.version) }

  function DetailsOf(p: Peer): Details { Details(p.lossRate, p.rxBytes, p.txBytes, p.tunnelProtocols) }

  function FreshPeer(at: Stamp, observedAt: nat, p: Peer): PeerRow {
    PeerRow(RouteOf(p), p.latencyMs, DetailsOf(p), observedAt, at.completedAt, at.collectionId)
  }

  /** Columns that `list_peers` supplies are kept when that call failed; the latency of an indirect peer
      comes from its route and is always replaced. */
  function MergedPeer(prior: PeerRow, at: Stamp, observedAt: nat, p: Peer, detailsComplete: bool): PeerRow {
    PeerRow(RouteOf(p),
            if detailsComplete || !p.direct then p.latencyMs else prior.latencyMs,
            if detailsComplete then DetailsOf(p) else prior.details,
            observedAt, at.completedAt, at.collectionId)
  }

  function UpsertPeer(t: PeerTable, at: Stamp, i: Instance, p: Peer, detailsComplete: bool): PeerTable {
    var key := (i.instanceId, p.peerId);
    if key !in t then t[key := FreshPeer(at, i.observedAtMs, p)]
    else if !Before(t[key].observedAt, t[key].completedAt, i.observedAtMs, at.completedAt) then t
    else t[key := MergedPeer(t[key], at, i.observedAtMs, p, detailsComplete)]
  }

  function UpsertPeers(t: PeerTable, at: Stamp, i: Instance, ps: seq<Peer>): PeerTable {
    if ps == [] then t
    else UpsertPeer(UpsertPeers(t, at, i, ps[..|ps| - 1]), at, i, ps[|ps| - 1],
                    !HasOperationError(i.errors, LIST_PEERS))
  }

  function PeerIds(ps: seq<Peer>): set<PeerId> { set k | 0 <= k < |ps| :: ps[k].peerId }

  predicate Stale(t: PeerTable, at: Stamp, i: Instance, key: PeerKey)
    requires key in t
  {
    && key.0 == i.instanceId
    && Before(t[key].observedAt, t[key].completedAt, i.observedAtMs, at.completedAt)
    && key.1 !in PeerIds(i.peers)
  }

  function DeleteStalePeers(t: PeerTable, at: Stamp, i: Instance): PeerTable {
    map key | key in t && !Stale(t, at, i, key) :: t[key]
  }

  function PeersOfInstance(t: PeerTable, at: Stamp, i: Instance): PeerTable {
    var upserted := UpsertPeers(t, at, i, i.peers);
    if HasOperationError(i.errors, LIST_ROUTES) then upserted else DeleteStalePeers(upserted, at, i)
  }

  function PeersOfInstances(t: PeerTable, at: Stamp, xs: seq<Instance>): PeerTable {
    if xs == [] then t else PeersOfInstance(PeersOfInstances(t, at, xs[..|xs| - 1]), at, xs[|xs| - 1])
  }

  // ---------- metrics ----------

  function SamplesOf(at: Stamp, i: Instance): seq<Sample> {
    seq(|i.metrics|, k requires 0 <= k < |i.metrics| =>
      Sample(MetricKey(at.collectionId, i.instanceId, i.metrics[k].name, i.metrics[k].labels),
             MetricRow(i.metrics[k].value, i.observedAtMs)))
  }

  function FlatSamples(at: Stamp, xs: seq<Instance>): seq<Sample> {
    if xs == [] then [] else FlatSamples(at, xs[..|xs| - 1]) + SamplesOf(at, xs[|xs| - 1])
  }

  function AddSamples(t: MetricTable, samples: seq<Sample>): MetricTable {
    if samples == [] then t
    else AddSamples(t, samples[..|samples| - 1])[samples[|samples| - 1].key := samples[|samples| - 1].row]
  }

  // ---------- errors ----------

  function ErrorRows(scope: string, machineId: Uuid, instanceId: Uuid, errors: seq<TelemetryError>): seq<ErrorRow> {
    seq(|errors|, k requires 0 <= k < |errors| =>
      ErrorRow(scope, if machineId == NIL_UUID then None else Some(machineId),
               if instanceId == NIL_UUID then None else Some(instanceId), errors[k]))
  }

  function InstanceErrorRows(machineId: Uuid, xs: seq<Instance>): seq<ErrorRow> {
    if xs == [] then []
    else InstanceErrorRows(machineId, xs[..|xs| - 1])
         + ErrorRows("instance", machineId, xs[|xs| - 1].instanceId, xs[|xs| - 1].errors)
  }

  function MachineErrorRows(m: Machine): seq<ErrorRow> {
    ErrorRows("machine", m.Id(), NIL_UUID, m.errors) + InstanceErrorRows(m.Id(), m.instances)
  }

  function MachinesErrorRows(ms: seq<Machine>): seq<ErrorRow> {
    if ms == [] then [] else MachinesErrorRows(ms[..|ms| - 1]) + MachineErrorRows(ms[|ms| - 1])
  }

  /** Every error of the snapshot in the order in which it is inserted. */
  function FlatErrors(s: Snapshot): seq<ErrorRow> {
    ErrorRows("snapshot", NIL_UUID, NIL_UUID, s.errors) + MachinesErrorRows(s.machines)
  }

  function AddErrors(t: ErrorTable, collectionId: Uuid, from: nat, rows: seq<ErrorRow>): ErrorTable {
    if rows == [] then t
    else AddErrors(t, collectionId, from, rows[..|rows| - 1])[(collectionId, from + |rows| - 1) := rows[|rows| - 1]]
  }

  // ---------- constraints ----------

  predicate NodeStorable(i: Instance) {
    i.node.Some? ==> i.node.value.proxyCidrs.Some? && i.node.value.listeners.Some?
  }

  predicate PeerStorable(p: Peer) {
    && p.tunnelProtocols.Some?
    && (p.latencyMs.Some? ==> p.latencyMs.value >= 0.0)
    && (p.lossRate.Some? ==> p.lossRate.value >= 0.0)
  }

  predicate InstanceStorable(i: Instance) {
    NodeStorable(i) && forall k :: 0 <= k < |i.peers| ==> PeerStorable(i.peers[k])
  }

  predicate DistinctKeys(samples: seq<Sample>) {
    forall a, b :: 0 <= a < b < |samples| ==> samples[a].key != samples[b].key
  }

  /** No NOT NULL, CHECK or primary-key constraint rejects the rows of these instances. */
  predicate RowsStorable(at: Stamp, xs: seq<Instance>) {
    && (forall k :: 0 <= k < |xs| ==> InstanceStorable(xs[k]))
    && DistinctKeys(FlatSamples(at, xs))
  }

  predicate Storable(s: Snapshot) { RowsStorable(StampOf(s), FlatInstances(s.machines)) }

  // ---------- a whole snapshot ----------

  function RunOf(s: Snapshot): Run {
    Run(s.startedAtMs, s.completedAtMs, |FlatErrors(s)| == 0, |s.machines|, |FlatErrors(s)|,
        Some(s), Some(Sha256(s)), false)
  }

  function Commit(db: Db, s: Snapshot): Db {
    var at := StampOf(s);
    var xs := FlatInstances(s.machines);
    Db(db.runs[s.collectionId := RunOf(s)],
       MachinesAfter(db.machines, s),
       InstancesAfter(db.instances, s),
       UpsertNodes(db.nodes, at, xs),
       PeersOfInstances(db.peers, at, xs),
       AddSamples(db.metrics, FlatSamples(at, xs)),
       AddErrors(db.errors, s.collectionId, 0, FlatErrors(s)))
  }

  predicate Accepts(db: Db, s: Snapshot) {
    Valid(s) && s.collectionId !in db.runs && Storable(s)
  }

  /** The duplicate test: the fingerprint decides when there is one, the raw payload otherwise. */
  predicate Matches(run: Run, s: Snapshot) {
    if run.sha256.Some? then run.sha256.value == Sha256(s) else run.payload == Some(s)
  }

  // ---------- retention ----------

  predicate Prunable(run: Run) { !run.pruned && run.sha256.Some? }

  function PruneRuns(runs: map<Uuid, Run>, ids: set<Uuid>): map<Uuid, Run> {
    map id | id in runs ::
      if id in ids && Prunable(runs[id]) then runs[id].(payload := None, pruned := true) else runs[id]
  }

  // ---------- histories ----------

  /** One transaction as the database sees it. A delivery that fails before its commit is no event; one whose
      acknowledgement is lost is a delivery, and its retry another. */
  datatype Event =
    | Deliver(snapshot: Snapshot)
    | Prune(ids: set<Uuid>)
    | DeleteSamples(keys: set<MetricKey>)

  function Apply(db: Db, e: Event): Db {
    match e
    case Deliver(s) => if Accepts(db, s) then Commit(db, s) else db
    case Prune(ids) => db.(runs := PruneRuns(db.runs, ids))
    case DeleteSamples(keys) => db.(metrics := db.metrics - keys)
  }

  function Exec(db: Db, es: seq<Event>): Db {
    if es == [] then db else Apply(Exec(db, es[..|es| - 1]), es[|es| - 1])
  }

  // Small equations, so that proofs about one table need not open a whole step.

  lemma ExecStep(db: Db, es: seq<Event>, e: Event)
    ensures Exec(db, es + [e]) == Apply(Exec(db, es), e)
  {
    hide Apply;
    assert (es + [e])[..|es|] == es;
  }

  lemma ApplyRuns(db: Db, e: Event)
    ensures Apply(db, e).runs ==
            match e
            case Deliver(s) => if Accepts(db, s) then db.runs[s.collectionId := RunOf(s)] else db.runs
            case Prune(ids) => PruneRuns(db.runs, ids)
            case DeleteSamples(_) => db.runs
  {
    hide Accepts;
    hide RunOf;
    hide PruneRuns;
    hide MachinesAfter;
    hide InstancesAfter;
  }

  lemma ApplyCurrent(db: Db, e: Event)
    ensures e.Deliver? && Accepts(db, e.snapshot) ==>
              && Apply(db, e).machines == MachinesAfter(db.machines, e.snapshot)
              && Apply(db, e).instances == InstancesAfter(db.instances, e.snapshot)
              && Apply(db, e).nodes == UpsertNodes(db.nodes, StampOf(e.snapshot), FlatInstances(e.snapshot.machines))
              && Apply(db, e).peers
                 == PeersOfInstances(db.peers, StampOf(e.snapshot), FlatInstances(e.snapshot.machines))
    ensures !(e.Deliver? && Accepts(db, e.snapshot)) ==>
              && Apply(db, e).machines == db.machines && Apply(db, e).instances == db.instances
              && Apply(db, e).nodes == db.nodes && Apply(db, e).peers == db.peers
  {
    hide Accepts;
    hide RunOf;
    hide MachinesAfter;
    hide InstancesAfter;
  }

  // ---------- answers ----------

  datatype IngestError =
    | InvalidSnapshot(reason: Invalid)
    | PayloadReused(collectionId: Uuid)
    | ConstraintViolation
    | Unavailable

  /** What the connection does to one call: nothing, lose the transaction before it commits, or lose the
      acknowledgement of a commit that took effect. */
  datatype Fault = NoFault | Aborted | AckLost

  /** The answer of one call, as a function of the tables it finds. */
  function Answer(db: Db, s: Snapshot, fault: Fault): Result<bool, IngestError> {
    var invalid := Validate(s);
    if invalid.Some? then Err(InvalidSnapshot(invalid.value))
    else if s.collectionId in db.runs && !Matches(db.runs[s.collectionId], s) then Err(PayloadReused(s.collectionId))
    else if s.collectionId !in db.runs && !Storable(s) then Err(ConstraintViolation)
    else if fault != NoFault then Err(Unavailable)
    else Ok(s.collectionId !in db.runs)
  }

  // ---------- ids and keys ----------

  lemma IdsStep(front: seq<Machine>, m: Machine)
    ensures Ids(front + [m]) == Ids(front) + {m.Id()}
  {
    var ms := front + [m];
    assert ms[|front|] == m;
    forall id | id in Ids(front) ensures id in Ids(ms) {
      var k :| 0 <= k < |front| && front[k].Id() == id;
      assert ms[k].Id() == id;
    }
  }

  lemma InstanceIdsStep(front: seq<Instance>, x: Instance)
    ensures InstanceIds(front + [x]) == InstanceIds(front) + {x.instanceId}
  {
    var xs := front + [x];
    assert xs[|front|] == x;
    forall id | id in InstanceIds(front) ensures id in InstanceIds(xs) {
      var k :| 0 <= k < |front| && front[k].instanceId == id;
      assert xs[k].instanceId == id;
    }
  }

  lemma {:induction false} AddSamplesKeys(t: MetricTable, a: seq<Sample>, key: MetricKey)
    ensures key in AddSamples(t, a) <==> key in t || exists k :: 0 <= k < |a| && a[k].key == key
  {
    if a != [] {
      AddSamplesKeys(t, a[..|a| - 1], key);
      assert forall k :: 0 <= k < |a| - 1 ==> a[..|a| - 1][k] == a[k];
      assert a[|a| - 1].key == key ==> exists k :: 0 <= k < |a| && a[k].key == key;
    }
  }

  lemma {:induction false} AddErrorsKeys(t: ErrorTable, cid: Uuid, from: nat, rows: seq<ErrorRow>, key: (Uuid, nat))
    ensures key in AddErrors(t, cid, from, rows) <==> key in t || (key.0 == cid && from <= key.1 < from + |rows|)
    ensures key in AddErrors(t, cid, from, rows) && !(key.0 == cid && from <= key.1 < from + |rows|)
            ==> AddErrors(t, cid, from, rows)[key] == t[key]
    ensures key.0 == cid && from <= key.1 < from + |rows| ==> AddErrors(t, cid, from, rows)[key] == rows[key.1 - from]
  {
    if rows != [] {
      AddErrorsKeys(t, cid, from, rows[..|rows| - 1], key);
    }
  }

  lemma {:induction false} FlatSamplesKeys(at: Stamp, xs: seq<Instance>, k: nat)
    requires k < |FlatSamples(at, xs)|
    ensures FlatSamples(at, xs)[k].key.collectionId == at.collectionId
    ensures exists j :: 0 <= j < |xs| && xs[j].instanceId == FlatSamples(at, xs)[k].key.instanceId
  {
    var before := FlatSamples(at, xs[..|xs| - 1]);
    if k < |before| {
      FlatSamplesKeys(at, xs[..|xs| - 1], k);
      var j :| 0 <= j < |xs| - 1 && xs[..|xs| - 1][j].instanceId == before[k].key.instanceId;
      assert xs[j].instanceId == FlatSamples(at, xs)[k].key.instanceId;
    } else {
      assert FlatSamples(at, xs)[k] == SamplesOf(at, xs[|xs| - 1])[k - |before|];
    }
  }
}
