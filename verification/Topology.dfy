/** The `nexustier.topology.v1` snapshot as the controller decodes it, and its validation
    (controller/internal/gatewayclient/types.go). */
module Topology {
  import opened Wrappers

  /** A UUID is compared as sixteen unsigned bytes, that is, as a number below 2^128. */
  type Uuid = n: nat | n < 0x1_0000_0000_0000_0000_0000_0000_0000_0000

  type PeerId = n: nat | n < 0x1_0000_0000

  type Millis64 = n: nat | n < 0x1_0000_0000_0000_0000

  type UInt64 = n: nat | n < 0x1_0000_0000_0000_0000

  const NIL_UUID: Uuid := 0
  const SCHEMA_VERSION := "nexustier.topology.v1"
  const MAX_TIMESTAMP_MS: Millis64 := 253_402_300_799_999

  const LIST_INSTANCES := "list_network_instances"
  const LIST_PEERS := "list_peers"
  const LIST_ROUTES := "list_routes"

  datatype TelemetryError = TelemetryError(code: string, operation: string, message: string)

  datatype Device = Device(osType: string, osVersion: string, distribution: string)

  datatype Session = Session(
    machineId: Uuid, remoteUrl: string, hostname: string, easytierVersion: string, reportTime: string,
    connectedAtMs: Millis64, lastHeartbeatAtMs: Millis64, runningInstanceIds: seq<Uuid>, device: Option<Device>)

  /** `None` for a list or for labels is JSON null: a nil list reaches a list column as NULL, and nil labels are hashed
      as `null`. */
  datatype Node = Node(
    peerId: PeerId, ipv4: string, hostname: string,
    proxyCidrs: Option<seq<string>>, listeners: Option<seq<string>>, version: string)

  datatype Peer = Peer(
    peerId: PeerId, ipv4: Option<string>, hostname: string, nextHopPeerId: PeerId, direct: bool, pathCost: int,
    latencyMs: Option<real>, lossRate: Option<real>, rxBytes: Option<UInt64>, txBytes: Option<UInt64>,
    tunnelProtocols: Option<seq<string>>, version: string)

  datatype Metric = Metric(name: string, value: UInt64, labels: Option<map<string, string>>)

  datatype Instance = Instance(
    instanceId: Uuid, observedAtMs: Millis64, node: Option<Node>,
    peers: seq<Peer>, metrics: seq<Metric>, errors: seq<TelemetryError>)

  datatype Machine = Machine(
    session: Session, observedAtMs: Millis64, instances: seq<Instance>, errors: seq<TelemetryError>)
  {
    function Id(): Uuid { session.machineId }
  }

  datatype Snapshot = Snapshot(
    schemaVersion: string, collectionId: Uuid, startedAtMs: Millis64, completedAtMs: Millis64, collectedAtMs: Millis64,
    machines: seq<Machine>, errors: seq<TelemetryError>)

  datatype Invalid =
    | UnsupportedSchema
    | NilCollectionId
    | StartedAfterCompleted
    | CollectedNotCompleted
    | TimestampOutOfRange
    | NilMachineId(machine: nat)
    | MachineObservedLate(machine: nat)
    | NilInstanceId(machine: nat, instance: nat)
    | InstanceObservedLate(machine: nat, instance: nat)

  // ---------- what validation promises ----------

  predicate InstanceOk(i: Instance, completed: Millis64) {
    i.instanceId != NIL_UUID && i.observedAtMs <= completed
  }

  predicate MachineOk(m: Machine, completed: Millis64) {
    && m.Id() != NIL_UUID
    && m.observedAtMs <= completed
    && m.session.connectedAtMs <= MAX_TIMESTAMP_MS
    && m.session.lastHeartbeatAtMs <= MAX_TIMESTAMP_MS
    && (forall k :: 0 <= k < |m.instances| ==> InstanceOk(m.instances[k], completed))
  }

  predicate HeaderOk(s: Snapshot) {
    && s.schemaVersion == SCHEMA_VERSION
    && s.collectionId != NIL_UUID
    && s.startedAtMs <= s.completedAtMs
    && s.collectedAtMs == s.completedAtMs
    && s.completedAtMs <= MAX_TIMESTAMP_MS
  }

  /** The facts every ingestion step may rely on. */
  predicate Valid(s: Snapshot) {
    && HeaderOk(s)
    && (forall k :: 0 <= k < |s.machines| ==> MachineOk(s.machines[k], s.completedAtMs))
  }

  /** The first failing header check, in the order the source tests them. */
  function HeaderError(s: Snapshot): (r: Option<Invalid>)
    ensures r.None? <==> HeaderOk(s)
  {
    if s.schemaVersion != SCHEMA_VERSION then Some(UnsupportedSchema)
    else if s.collectionId == NIL_UUID then Some(NilCollectionId)
    else if s.startedAtMs > s.completedAtMs then Some(StartedAfterCompleted)
    else if s.collectedAtMs != s.completedAtMs then Some(CollectedNotCompleted)
    else if s.startedAtMs > MAX_TIMESTAMP_MS then Some(TimestampOutOfRange)
    else if s.completedAtMs > MAX_TIMESTAMP_MS then Some(TimestampOutOfRange)
    else None
  }

  function InstancesError(insts: seq<Instance>, machine: nat, from: nat, completed: Millis64): (r: Option<Invalid>)
    requires from <= |insts|
    decreases |insts| - from
    ensures r.None? <==> forall k :: from <= k < |insts| ==> InstanceOk(insts[k], completed)
  {
    if from == |insts| then None
    else if insts[from].instanceId == NIL_UUID then Some(NilInstanceId(machine, from))
    else if insts[from].observedAtMs > completed then Some(InstanceObservedLate(machine, from))
    else InstancesError(insts, machine, from + 1, completed)
  }

  function MachineError(m: Machine, machine: nat, completed: Millis64): (r: Option<Invalid>)
    ensures r.None? <==> MachineOk(m, completed)
  {
    if m.Id() == NIL_UUID then Some(NilMachineId(machine))
    else if m.observedAtMs > completed then Some(MachineObservedLate(machine))
    else if m.session.connectedAtMs > MAX_TIMESTAMP_MS then Some(TimestampOutOfRange)
    else if m.session.lastHeartbeatAtMs > MAX_TIMESTAMP_MS then Some(TimestampOutOfRange)
    else InstancesError(m.instances, machine, 0, completed)
  }

  function MachinesError(ms: seq<Machine>, from: nat, completed: Millis64): (r: Option<Invalid>)
    requires from <= |ms|
    decreases |ms| - from
    ensures r.None? <==> forall k :: from <= k < |ms| ==> MachineOk(ms[k], completed)
  {
    if from == |ms| then None
    else
      var e := MachineError(ms[from], from, completed);
      if e.Some? then e else MachinesError(ms, from + 1, completed)
  }

  /** `Snapshot.Validate`: the first failing check, or nothing exactly for valid snapshots. */
  function Validate(s: Snapshot): (r: Option<Invalid>)
    ensures r.None? <==> Valid(s)
  {
    var e := HeaderError(s);
    if e.Some? then e else MachinesError(s.machines, 0, s.completedAtMs)
  }

  /** The failure of an instance is its own: a nil id, or else a late observation. */
  predicate InstanceFailure(x: Instance, machine: nat, k: nat, completed: Millis64, e: Invalid) {
    if x.instanceId == NIL_UUID then e == NilInstanceId(machine, k)
    else x.observedAtMs > completed && e == InstanceObservedLate(machine, k)
  }

  lemma {:induction false} FirstBadInstance(insts: seq<Instance>, machine: nat, from: nat, completed: Millis64)
      returns (k: nat)
    requires from <= |insts| && InstancesError(insts, machine, from, completed).Some?
    ensures from <= k < |insts| && forall j :: from <= j < k ==> InstanceOk(insts[j], completed)
    ensures InstanceFailure(insts[k], machine, k, completed, InstancesError(insts, machine, from, completed).value)
    decreases |insts| - from
  {
    if InstanceOk(insts[from], completed) {
      k := FirstBadInstance(insts, machine, from + 1, completed);
    } else {
      k := from;
    }
  }

  lemma {:induction false} FirstBadMachine(ms: seq<Machine>, from: nat, completed: Millis64) returns (k: nat)
    requires from <= |ms| && MachinesError(ms, from, completed).Some?
    ensures from <= k < |ms| && forall j :: from <= j < k ==> MachineOk(ms[j], completed)
    ensures !MachineOk(ms[k], completed) && MachinesError(ms, from, completed) == MachineError(ms[k], k, completed)
    decreases |ms| - from
  {
    hide MachineOk;
    if MachineOk(ms[from], completed) {
      k := FirstBadMachine(ms, from + 1, completed);
    } else {
      k := from;
    }
  }

  /** What a bad header reports: the schema, the collection id, the order of start and completion, the collection time,
      or a time out of range, in this order. */
  predicate HeaderFailure(s: Snapshot, e: Invalid) {
    if s.schemaVersion != SCHEMA_VERSION then e == UnsupportedSchema
    else if s.collectionId == NIL_UUID then e == NilCollectionId
    else if s.startedAtMs > s.completedAtMs then e == StartedAfterCompleted
    else if s.collectedAtMs != s.completedAtMs then e == CollectedNotCompleted
    else MAX_TIMESTAMP_MS < s.completedAtMs && e == TimestampOutOfRange
  }

  /** What a bad machine reports: its nil id, its late observation, a session time out of range, or its first bad
      instance, in this order. */
  predicate MachineFailure(m: Machine, k: nat, i: nat, completed: Millis64, e: Invalid) {
    if m.Id() == NIL_UUID then e == NilMachineId(k)
    else if m.observedAtMs > completed then e == MachineObservedLate(k)
    else if m.session.connectedAtMs > MAX_TIMESTAMP_MS || m.session.lastHeartbeatAtMs > MAX_TIMESTAMP_MS
    then e == TimestampOutOfRange
    else
      && i < |m.instances| && InstanceFailure(m.instances[i], k, i, completed, e)
      && forall j :: 0 <= j < i ==> InstanceOk(m.instances[j], completed)
  }

  /** An invalid snapshot is reported by its first failure: the header's if that is bad, otherwise that of the first bad
      machine. */
  lemma ValidateReportsTheFirst(s: Snapshot) returns (k: nat, i: nat)
    requires !Valid(s)
    ensures Validate(s).Some?
    ensures !HeaderOk(s) ==> HeaderFailure(s, Validate(s).value)
    ensures HeaderOk(s) ==>
              && k < |s.machines| && (forall j :: 0 <= j < k ==> MachineOk(s.machines[j], s.completedAtMs))
              && MachineFailure(s.machines[k], k, i, s.completedAtMs, Validate(s).value)
  {
    k, i := 0, 0;
    if HeaderOk(s) {
      k := FirstBadMachine(s.machines, 0, s.completedAtMs);
      if InstancesError(s.machines[k].instances, k, 0, s.completedAtMs).Some? {
        i := FirstBadInstance(s.machines[k].instances, k, 0, s.completedAtMs);
      }
    }
  }

  /** Go's `time.UnixMilli(int64(value))`: the uint64 is reinterpreted as a signed 64-bit number. */
  function SignedMillis(value: Millis64): int {
    if value < 0x8000_0000_0000_0000 then value else value - 0x1_0000_0000_0000_0000
  }

  /** Validation bounds every timestamp that reaches a table, so the signed conversion never wraps:
      the tables below may hold the milliseconds themselves. */
  lemma ValidTimesDoNotWrap(s: Snapshot, k: nat, j: nat)
    requires Valid(s) && k < |s.machines| && j < |s.machines[k].instances|
    ensures SignedMillis(s.startedAtMs) == s.startedAtMs && SignedMillis(s.completedAtMs) == s.completedAtMs
    ensures SignedMillis(s.machines[k].observedAtMs) == s.machines[k].observedAtMs
    ensures SignedMillis(s.machines[k].session.connectedAtMs) == s.machines[k].session.connectedAtMs
    ensures SignedMillis(s.machines[k].session.lastHeartbeatAtMs) == s.machines[k].session.lastHeartbeatAtMs
    ensures SignedMillis(s.machines[k].instances[j].observedAtMs) == s.machines[k].instances[j].observedAtMs
  {
    assert MachineOk(s.machines[k], s.completedAtMs);
    assert InstanceOk(s.machines[k].instances[j], s.completedAtMs);
  }

  /** Every observation was made after the collection started. */
  ghost predicate Timed(s: Snapshot) {
    && (forall m :: m in s.machines ==> s.startedAtMs <= m.observedAtMs)
    && (forall m, x :: m in s.machines && x in m.instances ==> s.startedAtMs <= x.observedAtMs)
  }

  // ---------- errors inside a snapshot ----------

  predicate HasOperationError(errors: seq<TelemetryError>, operation: string) {
    exists k :: 0 <= k < |errors| && errors[k].operation == operation
  }

  method FindOperationError(errors: seq<TelemetryError>, operation: string) returns (found: bool)
    ensures found <==> HasOperationError(errors, operation)
  {
    for k := 0 to |errors|
      invariant forall j :: 0 <= j < k ==> errors[j].operation != operation
    {
      if errors[k].operation == operation {
        return true;
      }
    }
    return false;
  }

  function FlatInstances(ms: seq<Machine>): seq<Instance> {
    if ms == [] then [] else FlatInstances(ms[..|ms| - 1]) + ms[|ms| - 1].instances
  }
}
