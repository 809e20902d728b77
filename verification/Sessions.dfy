/** Gateway sessions: heartbeats, the shared pool, and the lifecycle of `accept_session` under every interleaving
    (crates/nexustier-gateway/src/session.rs, session_pool.rs, gateway.rs). */
module Sessions {
  import opened Wrappers
  import opened Topology

  // ---------- heartbeats ----------

  datatype Heartbeat = Heartbeat(machineId: Option<Uuid>, userToken: string, hostname: string)

  datatype Refusal = MissingMachineId | InsecureSession | WrongToken | MachineIdChanged

  /** Whether the tunnel is encrypted, and the token every heartbeat has to carry if one is configured. */
  datatype Policy = Policy(secure: bool, admissionToken: Option<string>)

  datatype SessionState = SessionState(heartbeat: Option<Heartbeat>, connectedAtMs: nat, lastHeartbeatAtMs: nat)

  function RefusalOf(policy: Policy, state: SessionState, h: Heartbeat): Option<Refusal> {
    if h.machineId.None? then Some(MissingMachineId)
    else if !policy.secure then Some(InsecureSession)
    else if policy.admissionToken.Some? && h.userToken != policy.admissionToken.value then Some(WrongToken)
    else if state.heartbeat.Some? && state.heartbeat.value.machineId.Some?
            && state.heartbeat.value.machineId != h.machineId
    then Some(MachineIdChanged)
    else None
  }

  function Receive(policy: Policy, state: SessionState, h: Heartbeat, now: nat): SessionState {
    if RefusalOf(policy, state, h).Some? then state
    else state.(heartbeat := Some(h), lastHeartbeatAtMs := now)
  }

  /** The heartbeat names a machine, over a secure tunnel, with the token if one is configured, and with the id that the
      session has if it already has one. */
  predicate Admissible(policy: Policy, state: SessionState, h: Heartbeat) {
    && h.machineId.Some? && policy.secure && policy.admissionToken in {None, Some(h.userToken)}
    && (state.heartbeat.None? || state.heartbeat.value.machineId in {None, h.machineId})
  }

  /** The machine a session stands for, once it has had a heartbeat. */
  function MachineOf(state: SessionState): Option<Uuid> {
    if state.heartbeat.Some? then state.heartbeat.value.machineId else None
  }

  class GatewaySession {
    const policy: Policy
    var heartbeat: Option<Heartbeat>
    const connectedAtMs: nat
    var lastHeartbeatAtMs: nat

    ghost function State(): SessionState
      reads this
    {
      SessionState(heartbeat, connectedAtMs, lastHeartbeatAtMs)
    }

    constructor (policy: Policy, now: nat)
      ensures this.policy == policy && State() == SessionState(None, now, now)
    {
      this.policy := policy;
      heartbeat, connectedAtMs, lastHeartbeatAtMs := None, now, now;
    }

    method ReceiveHeartbeat(h: Heartbeat, now: nat) returns (r: Option<Refusal>)
      modifies this
      ensures r == RefusalOf(policy, old(State()), h)
      ensures r == None <==> Admissible(policy, old(State()), h)
      ensures r == Some(MissingMachineId) <==> h.machineId.None?
      ensures r == Some(InsecureSession) <==> h.machineId.Some? && !policy.secure
      ensures r == Some(WrongToken)
          <==> h.machineId.Some? && policy.secure && policy.admissionToken !in {None, Some(h.userToken)}
      ensures State() == Receive(policy, old(State()), h, now)
      ensures forall w: World, id: SessionId ::
                id in w.connections && w.connections[id].policy == policy && w.connections[id].state == old(State()) ==>
                  Take(w, Beat(id, h, now)).connections[id].state == State()
    {
      if h.machineId.None? {
        return Some(MissingMachineId);
      }
      if !policy.secure {
        return Some(InsecureSession);
      }
      if policy.admissionToken.Some? && h.userToken != policy.admissionToken.value {
        return Some(WrongToken);
      }
      if heartbeat.Some? && heartbeat.value.machineId.Some? && heartbeat.value.machineId != h.machineId {
        return Some(MachineIdChanged);
      }
      heartbeat := Some(h);
      lastHeartbeatAtMs := now;
      return None;
    }
  }

  // ---------- the pool ----------

  /** Sessions are compared by identity. */
  type SessionId = nat

  type Pool = map<Uuid, SessionId>

  function WithoutIfCurrent(pool: Pool, machineId: Uuid, session: SessionId): Pool {
    if machineId in pool && pool[machineId] == session then pool - {machineId} else pool
  }

  class SessionPool {
    var sessions: Pool

    constructor ()
      ensures sessions == map[]
    {
      sessions := map[];
    }

    method Insert(machineId: Uuid, session: SessionId) returns (previous: Option<SessionId>)
      modifies this
      ensures sessions == old(sessions)[machineId := session]
      ensures previous == if machineId in old(sessions) then Some(old(sessions)[machineId]) else None
      ensures forall w: World ::
                && w.pool == old(sessions) && session in w.connections
                && w.connections[session].phase == Inserting(machineId) ==>
                  var w' := Take(w, Step.Insert(session));
                  && w'.pool == sessions
                  && w'.connections[session].phase
                     == if previous.Some? then Displacing(machineId, previous.value) else Watching(machineId)
    {
      previous := if machineId in sessions then Some(sessions[machineId]) else None;
      sessions := sessions[machineId := session];
    }

    method RemoveIfCurrent(machineId: Uuid, session: SessionId) returns (removed: bool)
      modifies this
      ensures sessions == WithoutIfCurrent(old(sessions), machineId, session)
      ensures removed <==> sessions != old(sessions)
      ensures forall w: World ::
                && w.pool == old(sessions) && session in w.connections
                && w.connections[session].phase == Leaving(machineId) ==>
                  Take(w, Step.Remove(session)).pool == sessions
    {
      removed := machineId in sessions && sessions[machineId] == session;
      if removed {
        sessions := sessions - {machineId};
      }
    }
  }

  // ---------- the lifecycle of a connection ----------

  /** Where the task of a connection stands in `accept_session`. */
  datatype Phase =
    | Waiting
    | Inserting(machineId: Uuid)
    | Displacing(machineId: Uuid, previous: SessionId)
    | Watching(machineId: Uuid)
    | Leaving(machineId: Uuid)
    | Finished

  datatype Connection = Connection(policy: Policy, state: SessionState, running: bool, phase: Phase)

  datatype World = World(connections: map<SessionId, Connection>, pool: Pool)

  /** The atomic steps of the environment and of the tasks. A step that is not enabled does nothing. */
  datatype Step =
    | Connect(id: SessionId, policy: Policy, now: nat)
    | Beat(id: SessionId, heartbeat: Heartbeat, now: nat)
    | Disconnect(id: SessionId)
    | GiveUp(id: SessionId)
    | FirstHeartbeat(id: SessionId)
    | Insert(id: SessionId)
    | StopPrevious(id: SessionId)
    | NoticeStopped(id: SessionId)
    | Remove(id: SessionId)

  function Put(w: World, id: SessionId, c: Connection): World { w.(connections := w.connections[id := c]) }

  function Take(w: World, step: Step): World {
    if step.Connect? then
      if step.id in w.connections then w
      else Put(w, step.id, Connection(step.policy, SessionState(None, step.now, step.now), true, Waiting))
    else if step.id !in w.connections then w
    else
      var c := w.connections[step.id];
      match step
      case Beat(_, h, now) => Put(w, step.id, c.(state := Receive(c.policy, c.state, h, now)))
      case Disconnect(_) => Put(w, step.id, c.(running := false))
      case GiveUp(_) => if c.phase.Waiting? then Put(w, step.id, c.(phase := Finished)) else w
      case FirstHeartbeat(_) =>
        if c.phase.Waiting? && c.state.heartbeat.Some? then
          Put(w, step.id,
              c.(phase := if MachineOf(c.state).Some? then Inserting(MachineOf(c.state).value) else Finished))
        else w
      case Insert(_) =>
        if c.phase.Inserting? then
          var m := c.phase.machineId;
          Put(w.(pool := w.pool[m := step.id]), step.id,
              c.(phase := if m in w.pool then Displacing(m, w.pool[m]) else Watching(m)))
        else w
      case StopPrevious(_) =>
        if c.phase.Displacing? then
          var w' := Put(w, step.id, c.(phase := Watching(c.phase.machineId)));
          var p := c.phase.previous;
          if p in w'.connections then Put(w', p, w'.connections[p].(running := false)) else w'
        else w
      case NoticeStopped(_) =>
        if c.phase.Watching? && !c.running then Put(w, step.id, c.(phase := Leaving(c.phase.machineId))) else w
      case Remove(_) =>
        if c.phase.Leaving? then
          Put(w.(pool := WithoutIfCurrent(w.pool, c.phase.machineId, step.id)), step.id, c.(phase := Finished))
        else w
  }

  function Run(steps: seq<Step>): World {
    if steps == [] then World(map[], map[]) else Take(Run(steps[..|steps| - 1]), steps[|steps| - 1])
  }

  // ---------- safety ----------

  predicate Registered(c: Connection) { c.phase.Displacing? || c.phase.Watching? || c.phase.Leaving? }

  predicate HasMachine(c: Connection) { Registered(c) || c.phase.Inserting? }

  /** An accepted heartbeat names a machine, over a secure tunnel, with the admission token. */
  predicate Admitted(c: Connection) {
    c.state.heartbeat.Some? ==>
      && c.policy.secure && c.state.heartbeat.value.machineId.Some?
      && (c.policy.admissionToken.Some? ==> c.state.heartbeat.value.userToken == c.policy.admissionToken.value)
  }

  ghost predicate BeingStopped(w: World, id: SessionId) {
    exists j :: j in w.connections && w.connections[j].phase.Displacing? && w.connections[j].phase.previous == id
  }

  /** The connection is what its pool entry says, or it has been stopped, or its displacer is about to stop it. */
  ghost predicate Accounted(w: World, id: SessionId)
    requires id in w.connections && Registered(w.connections[id])
  {
    || (w.connections[id].phase.machineId in w.pool && w.pool[w.connections[id].phase.machineId] == id)
    || !w.connections[id].running || BeingStopped(w, id)
  }

  predicate Consistent(c: Connection) {
    Admitted(c) && (HasMachine(c) ==> MachineOf(c.state) == Some(c.phase.machineId))
  }

  predicate EntryOk(w: World, m: Uuid)
    requires m in w.pool
  {
    && w.pool[m] in w.connections && Registered(w.connections[w.pool[m]])
    && w.connections[w.pool[m]].phase.machineId == m
  }

  ghost predicate Safe(w: World) {
    && (forall id :: id in w.connections ==> Consistent(w.connections[id]))
    && (forall m :: m in w.pool ==> EntryOk(w, m))
    && (forall id :: id in w.connections && Registered(w.connections[id]) ==> Accounted(w, id))
    && (forall j :: j in w.connections && w.connections[j].phase.Displacing? ==>
        w.connections[j].phase.previous in w.connections)
  }

  /** A change inside one connection that leaves its place in the pool protocol. */
  predicate SamePlace(before: Phase, after: Phase) {
    if before.Displacing? then after == before
    else if before.Watching? || before.Leaving?
    then (after.Watching? || after.Leaving?) && after.machineId == before.machineId
    else after.Waiting? || after.Inserting? || after.Finished?
  }

  lemma PutKeepsStopping(w: World, id: SessionId, c: Connection, k: SessionId)
    requires id in w.connections ==> SamePlace(w.connections[id].phase, c.phase)
    requires BeingStopped(w, k)
    ensures BeingStopped(Put(w, id, c), k)
  {
    var j :| j in w.connections && w.connections[j].phase.Displacing? && w.connections[j].phase.previous == k;
    assert Put(w, id, c).connections[j].phase == w.connections[j].phase;
  }

  lemma PutKeeps(w: World, id: SessionId, c: Connection)
    requires Safe(w) && Consistent(c)
    requires if id in w.connections then SamePlace(w.connections[id].phase, c.phase)
             && (c.running ==> w.connections[id].running)
             else c.phase.Waiting?
    ensures Safe(Put(w, id, c))
  {
    var w' := Put(w, id, c);
    hide Consistent;
    hide BeingStopped;
    forall m | m in w'.pool ensures EntryOk(w', m) {
      assert EntryOk(w, m);
    }
    forall k | k in w'.connections && Registered(w'.connections[k]) ensures Accounted(w', k) {
      assert Accounted(w, k);
      if BeingStopped(w, k) {
        PutKeepsStopping(w, id, c, k);
      }
    }
  }

  lemma ReceiveKeeps(c: Connection, h: Heartbeat, now: nat)
    requires Consistent(c)
    ensures Consistent(c.(state := Receive(c.policy, c.state, h, now)))
  {
  }

  /** The displaced session is the one its displacer is about to stop. */
  lemma InsertKeeps(w: World, id: SessionId)
    requires Safe(w)
    ensures Safe(Take(w, Insert(id)))
  {
    var w' := Take(w, Insert(id));
    hide Consistent;
    if id in w.connections && w.connections[id].phase.Inserting? {
      var m := w.connections[id].phase.machineId;
      assert Consistent(w'.connections[id]) by { InsertedConsistent(w.connections[id], w'.connections[id]); }
      forall n | n in w'.pool ensures EntryOk(w', n) {
        assert n != m ==> EntryOk(w, n);
      }
      assert m in w.pool ==> EntryOk(w, m);
      forall k | k in w'.connections && Registered(w'.connections[k]) ensures Accounted(w', k) {
        if k != id {
          assert Accounted(w, k);
          if m in w.pool && w.pool[m] == k {
            assert w'.connections[id].phase == Displacing(m, k);
            assert BeingStopped(w', k);
          } else if BeingStopped(w, k) {
            var j :| j in w.connections && w.connections[j].phase.Displacing? && w.connections[j].phase.previous == k;
            assert w'.connections[j].phase == w.connections[j].phase;
          }
        }
      }
    }
  }

  lemma InsertedConsistent(c: Connection, c': Connection)
    requires Consistent(c) && c.phase.Inserting? && HasMachine(c') && c'.phase.machineId == c.phase.machineId
    requires c'.state == c.state && c'.policy == c.policy
    ensures Consistent(c')
  {
  }

  /** A displacer whose predecessor has stopped turns to watching its own connection. */
  lemma DisplacedKeeps(w: World, id: SessionId)
    requires Safe(w) && id in w.connections && w.connections[id].phase.Displacing?
    requires !w.connections[w.connections[id].phase.previous].running
    ensures Safe(Put(w, id, w.connections[id].(phase := Watching(w.connections[id].phase.machineId))))
  {
    var c := w.connections[id];
    var w' := Put(w, id, c.(phase := Watching(c.phase.machineId)));
    assert Consistent(w'.connections[id]);
    hide Consistent;
    forall m | m in w'.pool ensures EntryOk(w', m) {
      assert EntryOk(w, m);
    }
    forall k | k in w'.connections && Registered(w'.connections[k]) ensures Accounted(w', k) {
      assert Accounted(w, k);
      if BeingStopped(w, k) && k != c.phase.previous {
        var j :| j in w.connections && w.connections[j].phase.Displacing? && w.connections[j].phase.previous == k;
        assert w'.connections[j].phase == w.connections[j].phase;
      }
    }
  }

  lemma StopIsTwoPuts(w: World, id: SessionId)
    requires id in w.connections && w.connections[id].phase.Displacing?
    requires w.connections[id].phase.previous in w.connections
    ensures var p := w.connections[id].phase.previous;
            var stopped := Put(w, p, w.connections[p].(running := false));
            Take(w, StopPrevious(id))
            == Put(stopped, id, stopped.connections[id].(phase := Watching(w.connections[id].phase.machineId)))
  {
    hide WithoutIfCurrent;
    hide Receive;
    var p := w.connections[id].phase.previous;
    var stopped := Put(w, p, w.connections[p].(running := false));
    assert Take(w, StopPrevious(id)).connections
        == Put(stopped, id, stopped.connections[id].(phase := Watching(w.connections[id].phase.machineId))).connections;
  }

  lemma StopKeeps(w: World, id: SessionId)
    requires Safe(w)
    ensures Safe(Take(w, StopPrevious(id)))
  {
    if id in w.connections && w.connections[id].phase.Displacing? {
      var p := w.connections[id].phase.previous;
      assert p in w.connections && Consistent(w.connections[p].(running := false));
      hide Safe;
      hide Take;
      PutKeeps(w, p, w.connections[p].(running := false));
      DisplacedKeeps(Put(w, p, w.connections[p].(running := false)), id);
      StopIsTwoPuts(w, id);
    }
  }

  lemma RemoveKeeps(w: World, id: SessionId)
    requires Safe(w)
    ensures Safe(Take(w, Remove(id)))
  {
    var w' := Take(w, Remove(id));
    if id in w.connections && w.connections[id].phase.Leaving? {
      assert Consistent(w'.connections[id]);
      hide Consistent;
      forall m | m in w'.pool ensures EntryOk(w', m) {
        assert EntryOk(w, m);
      }
      forall k | k in w'.connections && Registered(w'.connections[k]) ensures Accounted(w', k) {
        assert Accounted(w, k);
        if BeingStopped(w, k) {
          var j :| j in w.connections && w.connections[j].phase.Displacing? && w.connections[j].phase.previous == k;
          assert w'.connections[j].phase == w.connections[j].phase;
        }
      }
    }
  }

  lemma LocalKeeps(w: World, step: Step)
    requires Safe(w)
    requires step.Connect? || step.Beat? || step.Disconnect? || step.GiveUp? || step.FirstHeartbeat?
             || step.NoticeStopped?
    ensures Safe(Take(w, step))
  {
    var w' := Take(w, step);
    if w' != w {
      var id := step.id;
      if step.Beat? {
        ReceiveKeeps(w.connections[id], step.heartbeat, step.now);
      }
      assert Consistent(w'.connections[id]);
      assert w' == Put(w, id, w'.connections[id]);
      PutKeeps(w, id, w'.connections[id]);
    }
  }

  lemma TakeKeeps(w: World, step: Step)
    requires Safe(w)
    ensures Safe(Take(w, step))
  {
    hide Safe;
    hide Take;
    match step
    case Insert(id) => InsertKeeps(w, id);
    case StopPrevious(id) => StopKeeps(w, id);
    case Remove(id) => RemoveKeeps(w, id);
    case _ => LocalKeeps(w, step);
  }

  /** Under every interleaving: a pool entry is keyed by its session's machine id and its task is still there to
      remove it; a registered session that is not in the pool has been stopped, or its displacer is about to. */
  lemma {:induction false} RunIsSafe(steps: seq<Step>)
    ensures Safe(Run(steps))
  {
    if steps != [] {
      RunIsSafe(steps[..|steps| - 1]);
      TakeKeeps(Run(steps[..|steps| - 1]), steps[|steps| - 1]);
    }
  }

  lemma EntryIsRegistered(w: World, m: Uuid)
    requires Safe(w) && m in w.pool
    ensures w.pool[m] in w.connections && !w.connections[w.pool[m]].phase.Finished?
  {
    assert EntryOk(w, m);
  }

  /** A session that has had a heartbeat gets into the pool by its own next two steps, and a session that it displaces
      is stopped by the third. */
  lemma AcceptedIsPooled(steps: seq<Step>, id: SessionId)
    requires id in Run(steps).connections && Run(steps).connections[id].phase.Waiting?
    requires Run(steps).connections[id].state.heartbeat.Some?
    ensures var w := Run(steps);
            var w' := Take(Take(w, FirstHeartbeat(id)), Step.Insert(id));
            && MachineOf(w.connections[id].state).Some?
            && var m := MachineOf(w.connections[id].state).value;
               && w'.pool == w.pool[m := id]
               && (m !in w.pool ==> w'.connections[id].phase == Watching(m))
               && (m in w.pool ==> var w'' := Take(w', StopPrevious(id));
                     && w.pool[m] in w''.connections && !w''.connections[w.pool[m]].running
                     && w''.connections[id].phase == Watching(m) && w''.pool == w'.pool)
  {
    RunIsSafe(steps);
    hide Run;
    var w := Run(steps);
    assert Consistent(w.connections[id]);
    var m := MachineOf(w.connections[id].state).value;
    if m in w.pool {
      assert EntryOk(w, m);
    }
  }

  /** A session that has been stopped leaves the pool, if it is still in it, by its own next two steps. */
  lemma StoppedLeaves(w: World, id: SessionId)
    requires id in w.connections && w.connections[id].phase.Watching? && !w.connections[id].running
    ensures var m := w.connections[id].phase.machineId;
            var w' := Take(Take(w, NoticeStopped(id)), Remove(id));
            && w'.connections[id].phase.Finished?
            && w'.pool == if m in w.pool && w.pool[m] == id then w.pool - {m} else w.pool
  {
  }

  /** A session gives up only before its first heartbeat is seen, and starts to leave only once it has been stopped or
      has disconnected. */
  lemma {:induction false} LeavesOnlyWhenStopped(steps: seq<Step>, id: SessionId)
    requires id in Run(steps).connections
    ensures Run(steps).connections[id].phase.Leaving? ==> !Run(steps).connections[id].running
    ensures var c' := Take(Run(steps), GiveUp(id)).connections[id];
            c' == if Run(steps).connections[id].phase.Waiting? then Run(steps).connections[id].(phase := Finished)
                  else Run(steps).connections[id]
  {
    if steps != [] {
      var w, step := Run(steps[..|steps| - 1]), steps[|steps| - 1];
      if id in w.connections {
        LeavesOnlyWhenStopped(steps[..|steps| - 1], id);
      }
      hide Run;
    }
  }

  /** When every task has finished the pool is empty. */
  lemma PoolDrains(steps: seq<Step>)
    requires forall id :: id in Run(steps).connections ==> Run(steps).connections[id].phase.Finished?
    ensures Run(steps).pool == map[]
  {
    RunIsSafe(steps);
    hide Safe;
    hide Run;
    if Run(steps).pool != map[] {
      var m :| m in Run(steps).pool;
      EntryIsRegistered(Run(steps), m);
    }
  }

  /** A step that takes an entry away from a session is that session's own removal or the insertion of a successor
      for the same machine: a late disconnect never removes its replacement. */
  lemma EntryStays(w: World, step: Step, m: Uuid)
    requires Safe(w) && m in w.pool
    ensures var w' := Take(w, step);
            || (m in w'.pool && w'.pool[m] == w.pool[m])
            || (step == Remove(w.pool[m]) && !w.connections[w.pool[m]].phase.Watching? && m !in w'.pool)
            || (step.Insert? && step.id != w.pool[m] && m in w'.pool && w'.pool[m] == step.id
                && w'.connections[step.id].phase == Displacing(m, w.pool[m]))
  {
    assert EntryOk(w, m);
  }

  /** What a heartbeat does in any run: one that names a machine, over a secure tunnel, with the token if one is
      configured, and with the machine id of the session's earlier heartbeats, becomes the session's heartbeat and its
      time; any other changes nothing. */
  lemma HeartbeatExactly(steps: seq<Step>, id: SessionId, h: Heartbeat, now: nat)
    requires id in Run(steps).connections
    ensures var w, w' := Run(steps), Run(steps + [Beat(id, h, now)]);
            var c := w.connections[id];
            && w'.pool == w.pool && w'.connections.Keys == w.connections.Keys
            && (forall k :: k in w.connections && k != id ==> w'.connections[k] == w.connections[k])
            && w'.connections[id]
               == if && h.machineId.Some? && c.policy.secure
                     && (c.policy.admissionToken.Some? ==> h.userToken == c.policy.admissionToken.value)
                     && (c.state.heartbeat.Some? ==> c.state.heartbeat.value.machineId == h.machineId)
                  then c.(state := SessionState(Some(h), c.state.connectedAtMs, now))
                  else c
  {
    RunIsSafe(steps);
    assert (steps + [Beat(id, h, now)])[..|steps|] == steps;
    hide Run;
    assert Consistent(Run(steps).connections[id]);
  }

  /** The machine id of a session never changes. */
  lemma {:induction false} MachineIdIsImmutable(steps: seq<Step>, later: seq<Step>, id: SessionId)
    requires id in Run(steps).connections && MachineOf(Run(steps).connections[id].state).Some?
    ensures id in Run(steps + later).connections
    ensures MachineOf(Run(steps + later).connections[id].state) == MachineOf(Run(steps).connections[id].state)
    decreases |later|
  {
    if later == [] {
      assert steps + later == steps;
    } else {
      var front := later[..|later| - 1];
      MachineIdIsImmutable(steps, front, id);
      assert (steps + later)[..|steps + later| - 1] == steps + front;
      assert (steps + later)[|steps + later| - 1] == later[|later| - 1];
      TakeKeepsMachine(Run(steps + front), later[|later| - 1], id);
    }
  }

  lemma TakeKeepsMachine(w: World, step: Step, id: SessionId)
    requires id in w.connections && MachineOf(w.connections[id].state).Some?
    ensures id in Take(w, step).connections
    ensures MachineOf(Take(w, step).connections[id].state) == MachineOf(w.connections[id].state)
  {
  }

  /** What a collection finds: the session pooled under a machine id stands for that machine then and at any later
      moment, so its snapshot never lacks a machine id. */
  lemma PooledSessionIdentity(steps: seq<Step>, later: seq<Step>, m: Uuid)
    requires m in Run(steps).pool
    ensures Run(steps).pool[m] in Run(steps + later).connections
    ensures MachineOf(Run(steps + later).connections[Run(steps).pool[m]].state) == Some(m)
  {
    RunIsSafe(steps);
    assert EntryOk(Run(steps), m);
    MachineIdIsImmutable(steps, later, Run(steps).pool[m]);
  }
}
