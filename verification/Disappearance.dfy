/** No false disappearance, across the two programs: a machine whose session is pooled when a collection starts is
    never marked inactive by that collection (crates/nexustier-gateway/src/telemetry.rs:201-287,
    controller/internal/ingest/store.go:113-117, 402-422). */
module Disappearance {
  import opened Wrappers
  import opened Topology
  import opened Tables
  import Collection
  import Collector
  import EndToEnd
  import Sessions

  /** The machine id under which a collection reports a session it looks at: the nil id if there is none yet. */
  function ReportedId(w: Sessions.World, x: Sessions.SessionId): Uuid {
    if x in w.connections && Sessions.MachineOf(w.connections[x].state).Some?
    then Sessions.MachineOf(w.connections[x].state).value else NIL_UUID
  }

  /** The task of a session looks at it at some moment after the collection started. */
  ghost predicate LooksAt(steps: seq<Sessions.Step>, x: Sessions.SessionId,
                          collect: Sessions.SessionId -> Option<Machine>) {
    collect(x).Some? ==>
      exists later: seq<Sessions.Step> :: collect(x).value.Id() == ReportedId(Sessions.Run(steps + later), x)
  }

  /** The snapshot speaks for the machine: it lists it, or admits that something is missing. */
  ghost predicate SpeaksFor(s: Snapshot, m: Uuid) { m in Ids(s.machines) || s.errors != [] }

  /** Whatever happens to the sessions meanwhile, and whichever tasks panic or are cut off by the deadline. */
  lemma PooledMachineIsSpokenFor(
      steps: seq<Sessions.Step>, m: Uuid, sessions: seq<Sessions.SessionId>,
      collect: Sessions.SessionId -> Option<Machine>,
      timeout: Option<nat>, s: Snapshot)
    requires m in Sessions.Run(steps).pool && Sessions.Run(steps).pool[m] in sessions
    requires forall x :: x in sessions ==> LooksAt(steps, x, collect)
    requires Collection.Collected(sessions, collect, s.machines, s.errors, timeout)
    ensures SpeaksFor(s, m)
  {
    var x := Sessions.Run(steps).pool[m];
    if s.errors == [] {
      assert collect(x).Some? && collect(x).value in s.machines;
      assert LooksAt(steps, x, collect);
      var later: seq<Sessions.Step> :| collect(x).value.Id() == ReportedId(Sessions.Run(steps + later), x);
      Sessions.PooledSessionIdentity(steps, later, m);
      hide Sessions.Run;
      var k :| 0 <= k < |s.machines| && s.machines[k] == collect(x).value;
      assert s.machines[k].Id() == m;
    }
  }

  predicate Visible(db: Db, m: Uuid) { m in db.machines && db.machines[m].active }

  lemma {:induction false} UpsertsKeepVisible(t: MachineTable, at: Stamp, ms: seq<Machine>, m: Uuid)
    requires m in t && t[m].active
    ensures m in UpsertMachines(t, at, ms) && UpsertMachines(t, at, ms)[m].active
  {
    if ms != [] {
      UpsertsKeepVisible(t, at, ms[..|ms| - 1], m);
    }
  }

  /** An event can hide a machine only if it is a delivery that is accepted and does not speak for it. */
  lemma SpokenForStaysVisible(db: Db, e: Event, m: Uuid)
    requires Visible(db, m)
    requires e.Deliver? && Accepts(db, e.snapshot) ==> SpeaksFor(e.snapshot, m)
    ensures Visible(Apply(db, e), m)
  {
    ApplyCurrent(db, e);
    hide Apply;
    hide Accepts;
    if e.Deliver? {
      UpsertsKeepVisible(db.machines, StampOf(e.snapshot), e.snapshot.machines, m);
    }
  }

  /** Over whole histories: as long as every accepted snapshot speaks for a machine it stays visible. */
  lemma {:induction false} StaysVisible(db: Db, es: seq<Event>, later: seq<Event>, m: Uuid)
    requires Visible(Exec(db, es), m)
    requires forall e :: e in later && e.Deliver? && Valid(e.snapshot) ==> SpeaksFor(e.snapshot, m)
    ensures Visible(Exec(db, es + later), m)
    decreases |later|
  {
    hide Apply;
    if later == [] {
      assert es + later == es;
    } else {
      var front := later[..|later| - 1];
      var e := later[|later| - 1];
      assert (es + later)[..|es + later| - 1] == es + front;
      assert e in later && later == front + [e];
      StaysVisible(db, es, front, m);
      AcceptedIsValid(Exec(db, es + front), e);
      SpokenForStaysVisible(Exec(db, es + front), e, m);
    }
  }

  lemma AcceptedIsValid(db: Db, e: Event)
    ensures e.Deliver? && Accepts(db, e.snapshot) ==> Valid(e.snapshot)
  {
  }

  /** The whole chain for one collection: whatever the tables hold when its snapshot arrives, the pooled machine does
      not turn inactive. */
  lemma NoFalseDisappearance(
      steps: seq<Sessions.Step>, m: Uuid, sessions: seq<Sessions.SessionId>,
      collect: Sessions.SessionId -> Option<Machine>,
      timeout: Option<nat>, s: Snapshot, db: Db)
    requires m in Sessions.Run(steps).pool && Sessions.Run(steps).pool[m] in sessions
    requires forall x :: x in sessions ==> LooksAt(steps, x, collect)
    requires Collection.Collected(sessions, collect, s.machines, s.errors, timeout)
    ensures Visible(db, m) ==> Visible(Apply(db, Deliver(s)), m)
  {
    PooledMachineIsSpokenFor(steps, m, sessions, collect, timeout, s);
    hide Sessions.Run;
    hide Collection.Collected;
    hide LooksAt;
    hide Apply;
    if Visible(db, m) {
      SpokenForStaysVisible(db, Deliver(s), m);
    }
  }

  /** Conversely a machine disappears exactly when an accepted snapshot without top-level errors does not list it and
      completed after the row was last stamped. */
  lemma DisappearsExactly(db: Db, e: Event, m: Uuid)
    requires Visible(db, m)
    ensures m in Apply(db, e).machines
    ensures !Apply(db, e).machines[m].active <==>
              && e.Deliver? && Accepts(db, e.snapshot) && !SpeaksFor(e.snapshot, m)
              && db.machines[m].completedAt < e.snapshot.completedAtMs
  {
    ApplyCurrent(db, e);
    hide Apply;
    hide Accepts;
    if e.Deliver? {
      var s := e.snapshot;
      UpsertsKeepVisible(db.machines, StampOf(s), s.machines, m);
      if m !in Ids(s.machines) {
        UnlistedUntouched(db.machines, StampOf(s), s.machines, m);
      }
    }
  }

  lemma {:induction false} UnlistedUntouched(t: MachineTable, at: Stamp, ms: seq<Machine>, m: Uuid)
    requires m in t && m !in Ids(ms)
    ensures m in UpsertMachines(t, at, ms) && UpsertMachines(t, at, ms)[m] == t[m]
  {
    if ms != [] {
      var front := ms[..|ms| - 1];
      assert ms[|ms| - 1].Id() in Ids(ms);
      forall id | id in Ids(front) ensures id in Ids(ms) {
        var k :| 0 <= k < |front| && front[k].Id() == id;
        assert ms[k].Id() == id;
      }
      UnlistedUntouched(t, at, front, m);
    }
  }

  /** Some listing of the machine in this snapshot has a later key than its row. */
  ghost predicate Supersedes(r: MachineRow, ms: seq<Machine>, completed: nat, m: Uuid) {
    exists k :: 0 <= k < |ms| && ms[k].Id() == m && Before(r.observedAt, r.completedAt, ms[k].observedAtMs, completed)
  }

  lemma {:induction false} UpsertsRevive(t: MachineTable, at: Stamp, ms: seq<Machine>, m: Uuid)
    requires m in t
    ensures m in UpsertMachines(t, at, ms)
    ensures if Supersedes(t[m], ms, at.completedAt, m) then UpsertMachines(t, at, ms)[m].active
            else UpsertMachines(t, at, ms)[m] == t[m]
  {
    if ms != [] {
      var front, x := ms[..|ms| - 1], ms[|ms| - 1];
      UpsertsRevive(t, at, front, m);
      if Supersedes(t[m], front, at.completedAt, m) {
        var k :| 0 <= k < |front| && front[k].Id() == m
                 && Before(t[m].observedAt, t[m].completedAt, front[k].observedAtMs, at.completedAt);
        assert ms[k] == front[k];
      } else {
        assert forall k :: 0 <= k < |front| ==> ms[k] == front[k];
        assert ms[|ms| - 1] == x;
      }
    }
  }

  /** A machine that has disappeared comes back exactly when an accepted snapshot lists it with a later observation than
      its row's, or with the same and a later completion. The completion of the collection that missed it does not
      protect the row: the observation is compared first. */
  lemma ReappearsExactly(db: Db, e: Event, m: Uuid)
    requires m in db.machines && !db.machines[m].active
    ensures m in Apply(db, e).machines
    ensures Apply(db, e).machines[m].active <==>
              && e.Deliver? && Accepts(db, e.snapshot)
              && Supersedes(db.machines[m], e.snapshot.machines, e.snapshot.completedAtMs, m)
  {
    ApplyCurrent(db, e);
    hide Apply;
    hide Accepts;
    if e.Deliver? {
      var s := e.snapshot;
      UpsertsRevive(db.machines, StampOf(s), s.machines, m);
      hide Before;
      if Supersedes(db.machines[m], s.machines, s.completedAtMs, m) {
        assert m in Ids(s.machines);
      }
    }
  }

  // ---------- sessions, collections, poller and tables in one run ----------

  type SessionId = Sessions.SessionId

  /** What a flight works on: the sessions that were in the pool when it started, and what their tasks have reported. */
  datatype Roster = Roster(pooled: map<Uuid, SessionId>, reported: map<SessionId, Machine>)

  datatype World = World(sessions: Sessions.World, path: EndToEnd.World, rosters: map<nat, Roster>)

  /** A step of the sessions; any other step of the telemetry path; and the steps at which a collection looks at
      sessions: it starts with those in the pool, a task reports the machine of its session, and it finishes with what
      the scheduler makes of the reports. A step that is not enabled does nothing. */
  datatype Step =
    | Session(session: Sessions.Step)
    | Path(path: EndToEnd.Step)
    | Start(flight: nat)
    | Report(flight: nat, task: SessionId, machine: Machine)
    | Finish(flight: nat, collectionId: Uuid, machines: seq<Machine>, errors: seq<TelemetryError>)

  /** The steps that look at sessions are not taken behind their back. */
  predicate Other(step: EndToEnd.Step) {
    step.Gateway? ==> !step.step.Begin? && !step.step.ObserveMachine? && !step.step.Complete?
  }

  function TaskOf(w: World, f: nat): Option<Collector.Task> {
    if f < |w.path.gateway.tasks| then Some(w.path.gateway.tasks[f]) else None
  }

  ghost function Through(w: World, g: Collector.Step): World {
    w.(path := EndToEnd.Take(w.path, EndToEnd.Gateway(g)))
  }

  /** The scheduler's result for the tasks that reported; the others panicked or were cut off. */
  ghost predicate Scheduled(r: Roster, machines: seq<Machine>, errors: seq<TelemetryError>) {
    exists listed, timeout :: ScheduledAs(r, listed, timeout, machines, errors)
  }

  ghost predicate ScheduledAs(r: Roster, listed: seq<SessionId>, timeout: Option<nat>,
                              machines: seq<Machine>, errors: seq<TelemetryError>) {
    && (forall m :: m in r.pooled ==> r.pooled[m] in listed)
    && Collection.Collected(listed, (x: SessionId) => Reported(r, x), machines, errors, timeout)
  }

  function Reported(r: Roster, x: SessionId): Option<Machine> { if x in r.reported then Some(r.reported[x]) else None }

  /** A task reports once, while its flight is collecting. */
  predicate MayReport(w: World, f: nat, x: SessionId) {
    && f in w.rosters && x in w.rosters[f].pooled.Values && x !in w.rosters[f].reported
    && TaskOf(w, f).Some? && TaskOf(w, f).value.Collecting?
  }

  function WithReport(r: Roster, x: SessionId, m: Machine): Roster { r.(reported := r.reported[x := m]) }

  ghost function Take(w: World, step: Step): World {
    match step
    case Session(s) => w.(sessions := Sessions.Take(w.sessions, s))
    case Path(p) => if Other(p) then w.(path := EndToEnd.Take(w.path, p)) else w
    case Start(f) =>
      if TaskOf(w, f) == Some(Collector.Spawned)
      then Through(w, Collector.Begin(f)).(rosters := w.rosters[f := Roster(w.sessions.pool, map[])]) else w
    case Report(f, x, m) =>
      if MayReport(w, f, x) && m.Id() == ReportedId(w.sessions, x) then
        Through(w, Collector.ObserveMachine(f, m)).(
          rosters := w.rosters[f := WithReport(w.rosters[f], x, m.(observedAtMs := w.path.gateway.clock))])
      else w
    case Finish(f, id, ms, es) =>
      if f in w.rosters && Scheduled(w.rosters[f], ms, es) then Through(w, Collector.Complete(f, id, ms, es)) else w
  }

  ghost function Run(ttl: nat, start: Millis64, steps: seq<Step>): World {
    if steps == [] then World(Sessions.World(map[], map[]), EndToEnd.Run(ttl, start, []), map[])
    else Take(Run(ttl, start, steps[..|steps| - 1]), steps[|steps| - 1])
  }

  /** A collection starts with the sessions that are in the pool at that moment, and keeps what their tasks report. */
  lemma StartSeesThePool(w: World, f: nat, x: SessionId, m: Machine)
    ensures TaskOf(w, f) == Some(Collector.Spawned) ==>
              var w' := Take(w, Start(f));
              && f in w'.rosters && w'.rosters[f].pooled == w.sessions.pool && w'.rosters[f].reported == map[]
              && TaskOf(w', f) == Some(Collector.Collecting(w.path.gateway.clock, {}, {}))
    ensures MayReport(w, f, x) && m.Id() == ReportedId(w.sessions, x)
            && (forall i :: i in m.instances ==> i in TaskOf(w, f).value.instances) ==>
              var w', stamped := Take(w, Report(f, x, m)), m.(observedAtMs := w.path.gateway.clock);
              && f in w'.rosters && w'.rosters[f].pooled == w.rosters[f].pooled
              && w'.rosters[f].reported == w.rosters[f].reported[x := stamped]
              && TaskOf(w', f).Some? && TaskOf(w', f).value.Collecting? && stamped in TaskOf(w', f).value.machines
  {
  }

  /** A collection finishes with what the scheduler makes of the reports, whatever that is. */
  lemma FinishCompletes(w: World, f: nat, id: Uuid, machines: seq<Machine>, errors: seq<TelemetryError>)
    requires f in w.rosters && Scheduled(w.rosters[f], machines, errors)
    requires TaskOf(w, f).Some? && TaskOf(w, f).value.Collecting? && Collector.FreshId(w.path.gateway, id)
    requires forall m :: m in machines ==> m in TaskOf(w, f).value.machines
    ensures var t := TaskOf(Take(w, Finish(f, id, machines, errors)), f);
            t == Some(Collector.Collected(Snapshot("nexustier.topology.v1", id, TaskOf(w, f).value.startedAt,
                                                   w.path.gateway.clock, w.path.gateway.clock, machines, errors)))
  {
    hide Collector.FreshId;
    hide Scheduled;
  }

  // ---------- what every reachable world keeps ----------

  /** The pooled session stands for its machine, and its report says so. */
  ghost predicate RosterOk(sessions: Sessions.World, r: Roster) {
    forall m :: m in r.pooled ==>
      && r.pooled[m] in sessions.connections && Sessions.MachineOf(sessions.connections[r.pooled[m]].state) == Some(m)
      && (r.pooled[m] in r.reported ==> r.reported[r.pooled[m]].Id() == m)
  }

  /** Whatever has begun has a roster, and a finished snapshot speaks for the machines on it. */
  ghost predicate FlightOk(t: Collector.Task, f: nat, rosters: map<nat, Roster>) {
    && (!t.Spawned? ==> f in rosters)
    && (Collector.HasSnapshot(t) ==> forall m :: m in rosters[f].pooled ==> SpeaksFor(t.snapshot, m))
  }

  ghost predicate FlightsOk(tasks: seq<Collector.Task>, rosters: map<nat, Roster>) {
    forall f :: 0 <= f < |tasks| ==> FlightOk(tasks[f], f, rosters)
  }

  ghost predicate RostersOk(sessions: Sessions.World, rosters: map<nat, Roster>) {
    forall f :: f in rosters ==> RosterOk(sessions, rosters[f])
  }

  ghost predicate Inv(w: World) {
    && Sessions.Safe(w.sessions) && EndToEnd.Inv(w.path)
    && RostersOk(w.sessions, w.rosters) && FlightsOk(w.path.gateway.tasks, w.rosters)
  }

  /** Steps of the sessions change no machine id. */
  lemma SessionKeeps(w: Sessions.World, step: Sessions.Step, rosters: map<nat, Roster>)
    requires RostersOk(w, rosters)
    ensures RostersOk(Sessions.Take(w, step), rosters)
  {
    var w' := Sessions.Take(w, step);
    forall f | f in rosters ensures RosterOk(w', rosters[f]) {
      var r := rosters[f];
      assert RosterOk(w, r);
      forall m | m in r.pooled
        ensures r.pooled[m] in w'.connections && Sessions.MachineOf(w'.connections[r.pooled[m]].state) == Some(m)
      {
        Sessions.TakeKeepsMachine(w, step, r.pooled[m]);
      }
    }
  }

  /** Other steps of the path begin and finish no collection. */
  lemma OtherKeepsTasks(st: Collector.State, g: Collector.Step, rosters: map<nat, Roster>)
    requires FlightsOk(st.tasks, rosters) && !g.Begin? && !g.Complete?
    ensures FlightsOk(Collector.Take(st, g).tasks, rosters)
  {
    var st' := Collector.Take(st, g);
    hide SpeaksFor;
    forall f | 0 <= f < |st'.tasks| ensures FlightOk(st'.tasks[f], f, rosters) {
      if f < |st.tasks| {
        assert FlightOk(st.tasks[f], f, rosters);
      }
    }
  }

  lemma PathKeepsFlights(w: EndToEnd.World, step: EndToEnd.Step, rosters: map<nat, Roster>)
    requires FlightsOk(w.gateway.tasks, rosters)
    requires step.Gateway? ==> !step.step.Begin? && !step.step.Complete?
    ensures FlightsOk(EndToEnd.Take(w, step).gateway.tasks, rosters)
  {
    hide FlightsOk;
    hide Collector.Take;
    if step.Gateway? {
      OtherKeepsTasks(w.gateway, step.step, rosters);
    } else if step.Ask? {
      OtherKeepsTasks(w.gateway, Collector.Arrive(step.call), rosters);
    }
  }

  lemma PoolIsRoster(sessions: Sessions.World)
    requires Sessions.Safe(sessions)
    ensures RosterOk(sessions, Roster(sessions.pool, map[]))
  {
    forall m | m in sessions.pool
      ensures sessions.pool[m] in sessions.connections
              && Sessions.MachineOf(sessions.connections[sessions.pool[m]].state) == Some(m)
    {
      assert Sessions.EntryOk(sessions, m);
    }
  }

  lemma BeginTasks(st: Collector.State, f: nat)
    requires f < |st.tasks| && st.tasks[f].Spawned?
    ensures var tasks' := Collector.Take(st, Collector.Begin(f)).tasks;
            && |tasks'| == |st.tasks| && tasks'[f].Collecting?
            && forall k :: 0 <= k < |tasks'| && k != f ==> tasks'[k] == st.tasks[k]
  {
    hide Collector.FreshId;
  }

  lemma StartKeeps(w: World, f: nat)
    requires Inv(w)
    ensures Inv(Take(w, Start(f)))
  {
    hide Sessions.Safe;
    hide EndToEnd.Inv;
    hide RosterOk;
    hide Collector.Take;
    hide SpeaksFor;
    if TaskOf(w, f) == Some(Collector.Spawned) {
      var w' := Take(w, Start(f));
      EndToEnd.TakeKeeps(w.path, EndToEnd.Gateway(Collector.Begin(f)));
      BeginTasks(w.path.gateway, f);
      PoolIsRoster(w.sessions);
      forall k | 0 <= k < |w'.path.gateway.tasks| ensures FlightOk(w'.path.gateway.tasks[k], k, w'.rosters) {
        assert FlightOk(w.path.gateway.tasks[k], k, w.rosters);
      }
    }
  }

  lemma SameRosters(tasks: seq<Collector.Task>, rosters: map<nat, Roster>, f: nat, r: Roster)
    requires FlightsOk(tasks, rosters) && f in rosters && r.pooled == rosters[f].pooled
    ensures FlightsOk(tasks, rosters[f := r])
  {
    hide SpeaksFor;
    hide Collector.HasSnapshot;
    forall k | 0 <= k < |tasks| ensures FlightOk(tasks[k], k, rosters[f := r]) {
      assert FlightOk(tasks[k], k, rosters);
    }
  }

  lemma ReportOk(sessions: Sessions.World, r: Roster, x: SessionId, m: Machine)
    requires RosterOk(sessions, r) && m.Id() == ReportedId(sessions, x)
    ensures RosterOk(sessions, WithReport(r, x, m))
  {
  }

  lemma ReportKeeps(w: World, step: Step)
    requires Inv(w) && step.Report?
    ensures Inv(Take(w, step))
  {
    hide Sessions.Safe;
    hide EndToEnd.Inv;
    hide EndToEnd.Take;
    hide FlightsOk;
    hide RosterOk;
    hide WithReport;
    hide ReportedId;
    var f, x := step.flight, step.task;
    if MayReport(w, f, x) && step.machine.Id() == ReportedId(w.sessions, x) {
      var g := EndToEnd.Gateway(Collector.ObserveMachine(f, step.machine));
      var stamped := step.machine.(observedAtMs := w.path.gateway.clock);
      EndToEnd.TakeKeeps(w.path, g);
      PathKeepsFlights(w.path, g, w.rosters);
      ReportOk(w.sessions, w.rosters[f], x, stamped);
      ReportKeepsPool(w.rosters[f], x, stamped);
      SameRosters(EndToEnd.Take(w.path, g).gateway.tasks, w.rosters, f, WithReport(w.rosters[f], x, stamped));
    }
  }

  lemma ReportKeepsPool(r: Roster, x: SessionId, m: Machine)
    ensures WithReport(r, x, m).pooled == r.pooled
  {
  }

  /** A collection made of the reports speaks for every machine on its roster. */
  lemma ScheduledSpeaks(sessions: Sessions.World, r: Roster, machines: seq<Machine>, errors: seq<TelemetryError>,
                        s: Snapshot, m: Uuid)
    requires RosterOk(sessions, r) && Scheduled(r, machines, errors) && m in r.pooled
    requires s.machines == machines && s.errors == errors
    ensures SpeaksFor(s, m)
  {
    var listed, timeout :| ScheduledAs(r, listed, timeout, machines, errors);
    if errors == [] {
      var x := r.pooled[m];
      assert ((y: SessionId) => Reported(r, y))(x) == Reported(r, x);
      assert Reported(r, x).Some? && Reported(r, x).value in machines;
      var k :| 0 <= k < |machines| && machines[k] == Reported(r, x).value;
      assert machines[k].Id() == m;
    }
  }

  lemma FinishKeeps(w: World, step: Step)
    requires Inv(w) && step.Finish?
    ensures Inv(Take(w, step))
  {
    var f := step.flight;
    if f in w.rosters && Scheduled(w.rosters[f], step.machines, step.errors) {
      var g := Collector.Complete(f, step.collectionId, step.machines, step.errors);
      EndToEnd.TakeKeeps(w.path, EndToEnd.Gateway(g));
      var tasks, tasks' := w.path.gateway.tasks, Collector.Take(w.path.gateway, g).tasks;
      assert |tasks'| == |tasks| && forall k :: 0 <= k < |tasks| && k != f ==> tasks'[k] == tasks[k];
      assert RosterOk(w.sessions, w.rosters[f]);
      forall k | 0 <= k < |tasks'| ensures FlightOk(tasks'[k], k, w.rosters) {
        assert FlightOk(tasks[k], k, w.rosters);
        if k == f && tasks'[f] != tasks[f] {
          var s := tasks'[f].snapshot;
          assert s.machines == step.machines && s.errors == step.errors;
          forall m | m in w.rosters[f].pooled ensures SpeaksFor(s, m) {
            ScheduledSpeaks(w.sessions, w.rosters[f], step.machines, step.errors, s, m);
          }
        }
      }
      hide Sessions.Safe;
      hide EndToEnd.Inv;
      hide RosterOk;
    }
  }

  lemma TakeKeeps(w: World, step: Step)
    requires Inv(w)
    ensures Inv(Take(w, step))
  {
    hide EndToEnd.Inv;
    hide Sessions.Safe;
    match step
    case Session(s) =>
      Sessions.TakeKeeps(w.sessions, s);
      SessionKeeps(w.sessions, s, w.rosters);
    case Path(p) =>
      if Other(p) {
        EndToEnd.TakeKeeps(w.path, p);
        PathKeepsFlights(w.path, p, w.rosters);
      }
    case Start(f) => StartKeeps(w, f);
    case Report(_, _, _) => ReportKeeps(w, step);
    case Finish(_, _, _, _) => FinishKeeps(w, step);
  }

  lemma {:induction false} RunKeeps(ttl: nat, start: Millis64, steps: seq<Step>)
    ensures Inv(Run(ttl, start, steps))
  {
    hide Take;
    if steps == [] {
      EndToEnd.RunKeeps(ttl, start, []);
    } else {
      RunKeeps(ttl, start, steps[..|steps| - 1]);
      TakeKeeps(Run(ttl, start, steps[..|steps| - 1]), steps[|steps| - 1]);
    }
  }

  // ---------- the log only grows ----------

  lemma PathLogGrows(w: EndToEnd.World, step: EndToEnd.Step)
    ensures w.log <= EndToEnd.Take(w, step).log
  {
    hide Collector.Take;
  }

  lemma LogGrows(w: World, step: Step)
    ensures w.path.log <= Take(w, step).path.log
  {
    hide EndToEnd.Take;
    hide Scheduled;
    match step
    case Session(_) =>
    case Path(p) => PathLogGrows(w.path, p);
    case Start(f) => PathLogGrows(w.path, EndToEnd.Gateway(Collector.Begin(f)));
    case Report(f, _, m) => PathLogGrows(w.path, EndToEnd.Gateway(Collector.ObserveMachine(f, m)));
    case Finish(f, id, ms, es) => PathLogGrows(w.path, EndToEnd.Gateway(Collector.Complete(f, id, ms, es)));
  }

  lemma {:induction false} LogPrefix(ttl: nat, start: Millis64, steps: seq<Step>, later: seq<Step>)
    ensures Run(ttl, start, steps).path.log <= Run(ttl, start, steps + later).path.log
    decreases |later|
  {
    hide Take;
    if later == [] {
      assert steps + later == steps;
    } else {
      var front := later[..|later| - 1];
      LogPrefix(ttl, start, steps, front);
      assert (steps + later)[..|steps + later| - 1] == steps + front;
      LogGrows(Run(ttl, start, steps + front), later[|later| - 1]);
    }
  }

  lemma {:induction false} EventsOfConcat(a: seq<EndToEnd.Entry>, b: seq<EndToEnd.Entry>)
    ensures EndToEnd.EventsOf(a + b) == EndToEnd.EventsOf(a) + EndToEnd.EventsOf(b)
  {
    if b == [] {
      assert a + b == a;
    } else {
      var front, last := b[..|b| - 1], b[|b| - 1];
      EventsOfConcat(a, front);
      hide EndToEnd.EventOf;
      assert (a + b)[..|a + b| - 1] == a + front && (a + b)[|a + b| - 1] == last;
      assert EndToEnd.EventsOf(a + b) == EndToEnd.EventsOf(a + front) + EndToEnd.EventOf(last);
    }
  }

  predicate IsEntryOf(x: EndToEnd.Entry, e: Event)
    requires e.Deliver?
  {
    (x.Reached? && x.snapshot == e.snapshot) || x == EndToEnd.Retained(e)
  }

  lemma {:induction false} EventsAreEntries(log: seq<EndToEnd.Entry>, e: Event)
    requires e in EndToEnd.EventsOf(log) && e.Deliver?
    ensures exists k :: 0 <= k < |log| && IsEntryOf(log[k], e)
  {
    var front, last := log[..|log| - 1], log[|log| - 1];
    if e in EndToEnd.EventsOf(front) {
      EventsAreEntries(front, e);
      var k :| 0 <= k < |front| && IsEntryOf(front[k], e);
      assert log[k] == front[k];
    } else {
      assert e in EndToEnd.EventOf(last);
      assert log[|log| - 1] == last;
    }
  }

  // ---------- the theorem ----------

  /** The machine's session was in the pool when the flight started. */
  predicate PooledAtStart(w: World, flight: nat, m: Uuid) { flight in w.rosters && m in w.rosters[flight].pooled }

  /** The tables, if they held `db` when the gateway came up. */
  ghost function TablesOf(db: Db, w: World): Db { Exec(db, EndToEnd.EventsOf(w.path.log)) }

  /** Every snapshot the poller hands over speaks for the machines that were pooled when its collection started. */
  lemma HandedOverSpeaks(w: World, k: nat, m: Uuid)
    requires Inv(w) && k < |w.path.log| && w.path.log[k].Reached? && PooledAtStart(w, w.path.log[k].flight, m)
    ensures SpeaksFor(w.path.log[k].snapshot, m)
  {
    var e := w.path.log[k];
    assert EndToEnd.Recorded(w.path.gateway, e);
    assert FlightOk(w.path.gateway.tasks[e.flight], e.flight, w.rosters);
  }

  /** The machine was pooled at the start of every collection delivered from the `n`th entry on. */
  ghost predicate PooledFrom(w: World, n: nat, m: Uuid) {
    forall k :: n <= k < |w.path.log| && w.path.log[k].Reached? ==> PooledAtStart(w, w.path.log[k].flight, m)
  }

  lemma EntrySpeaks(w: World, n: nat, m: Uuid, k: nat, e: Event)
    requires Inv(w) && n <= k < |w.path.log| && PooledFrom(w, n, m) && e.Deliver?
    requires IsEntryOf(w.path.log[k], e)
    ensures SpeaksFor(e.snapshot, m)
  {
    assert EndToEnd.NoDeliveryRetained(w.path.log);
    HandedOverSpeaks(w, k, m);
  }

  lemma LaterEventsSpeak(w: World, n: nat, m: Uuid)
    requires Inv(w) && n <= |w.path.log| && PooledFrom(w, n, m)
    ensures forall e :: e in EndToEnd.EventsOf(w.path.log[n..]) && e.Deliver? ==> SpeaksFor(e.snapshot, m)
  {
    hide Inv;
    hide PooledFrom;
    hide SpeaksFor;
    hide EndToEnd.EventsOf;
    var more := w.path.log[n..];
    forall e | e in EndToEnd.EventsOf(more) && e.Deliver? ensures SpeaksFor(e.snapshot, m) {
      EventsAreEntries(more, e);
      var k :| 0 <= k < |more| && IsEntryOf(more[k], e);
      EntrySpeaks(w, n, m, n + k, e);
    }
  }

  /** The machine was pooled at the start of every collection that the poller delivers in the later part of the run. */
  ghost predicate PooledSince(ttl: nat, start: Millis64, steps: seq<Step>, later: seq<Step>, m: Uuid) {
    PooledFrom(Run(ttl, start, steps + later), |Run(ttl, start, steps).path.log|, m)
  }

  /** A machine that is visible stays visible through any run, as long as its session is in the pool
      whenever a collection starts that the poller will deliver; whatever else sessions, requests, tasks,
      faults and retention do. */
  lemma PooledMachineStaysVisible(db: Db, ttl: nat, start: Millis64, steps: seq<Step>, later: seq<Step>, m: Uuid)
    ensures Visible(TablesOf(db, Run(ttl, start, steps)), m) && PooledSince(ttl, start, steps, later, m) ==>
              Visible(TablesOf(db, Run(ttl, start, steps + later)), m)
  {
    hide Run;
    hide Inv;
    hide Exec;
    hide Visible;
    hide SpeaksFor;
    hide PooledFrom;
    if Visible(TablesOf(db, Run(ttl, start, steps)), m) && PooledSince(ttl, start, steps, later, m) {
      LogPrefix(ttl, start, steps, later);
      RunKeeps(ttl, start, steps + later);
      var before, after := Run(ttl, start, steps).path.log, Run(ttl, start, steps + later).path.log;
      LaterEventsSpeak(Run(ttl, start, steps + later), |before|, m);
      hide EndToEnd.EventsOf;
      assert after == before + after[|before|..];
      EventsOfConcat(before, after[|before|..]);
      StaysVisible(db, EndToEnd.EventsOf(before), EndToEnd.EventsOf(after[|before|..]), m);
    }
  }
}
