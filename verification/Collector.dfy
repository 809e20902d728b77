/** Single-flight collection: requests, the cache, the running flight and its watch channel, under every interleaving,
    and what callers of `topology` may rely on
    (crates/nexustier-gateway/src/telemetry.rs:163-199, 201-264, 575-577). */
module Collector {
  import opened Wrappers
  import opened Topology

  /** The cached snapshot, with the number of the flight that produced it. */
  datatype Cached = Cached(flight: nat, snapshot: Snapshot)

  /** What a request does under the lock. */
  datatype Entry = Hit(cached: Cached) | Join(flight: nat) | Start

  /** `snapshot_age` saturates at zero. */
  function Age(s: Snapshot, now: nat): nat { if now <= s.completedAtMs then 0 else now - s.completedAtMs }

  function Enter(cached: Option<Cached>, running: Option<nat>, now: nat, ttl: nat): Entry {
    if cached.Some? && Age(cached.value.snapshot, now) <= ttl then Hit(cached.value)
    else if running.Some? then Join(running.value)
    else Start
  }

  /** The state behind the mutex. */
  class CollectorState {
    var cached: Option<Cached>
    var running: Option<nat>

    /** These are the fields behind the mutex of a protocol state. */
    ghost predicate Front(st: State)
      reads this
    {
      cached == st.cached && running == st.running
    }

    constructor ()
      ensures forall ttl: nat :: Front(Initial(ttl))
    {
      cached, running := None, None;
    }

    /** The critical section of `topology`; `next` numbers the flight it may have to start. It is the `Decide` step of
        the protocol: same fields afterwards, and the entry is where the request goes from here. */
    method EnterTopology(now: nat, ttl: nat, next: nat) returns (entry: Entry)
      modifies this
      ensures cached == old(cached) && running == if entry.Start? then Some(next) else old(running)
      ensures forall st: State, c: nat, floor: nat ::
                old(Front(st)) && st.clock == now && st.ttl == ttl && |st.tasks| == next ==>
                  Front(DecideStep(st, c, floor)) && DecideStep(st, c, floor).calls[c] == Turn(entry, floor, next)
    {
      if cached.Some? {
        var completed := cached.value.snapshot.completedAtMs;
        var elapsed := if now <= completed then 0 else now - completed;
        if elapsed <= ttl {
          return Hit(cached.value);
        }
      }
      if running.Some? {
        return Join(running.value);
      }
      running := Some(next);
      return Start;
    }

    /** The critical section of the spawned task: the `Commit` step of the protocol. */
    method CommitFlight(flight: nat, snapshot: Snapshot)
      modifies this
      ensures cached == Some(Cached(flight, snapshot)) && running == None
      ensures forall st: State ::
                old(Front(st)) && flight < |st.tasks| && st.tasks[flight] == Collected(snapshot) ==>
                  Front(TaskStep(st, Commit(flight)))
    {
      cached := Some(Cached(flight, snapshot));
      running := None;
    }
  }

  /** Where a request goes from its critical section. */
  function Turn(entry: Entry, floor: nat, next: nat): Call {
    match entry
    case Hit(cached) => Returned(floor, cached.flight, cached.snapshot)
    case Join(flight) => AtBorrow(floor, flight, 0)
    case Start => AtBorrow(floor, next, 0)
  }

  // ---------- the protocol ----------

  /** Where the task of a flight stands. While collecting it holds what has been observed so far. Its channel holds the
      snapshot once published; finishing drops the sender. */
  datatype Task =
    | Spawned
    | Collecting(startedAt: Millis64, instances: set<Instance>, machines: set<Machine>)
    | Collected(snapshot: Snapshot)
    | Committed(snapshot: Snapshot)
    | Published(snapshot: Snapshot)
    | Finished(snapshot: Snapshot)
  {
    predicate Active() { Spawned? || Collecting? || Collected? }

    predicate HasValue() { Published? || Finished? }

    /** The version of the watch channel. */
    function Version(): nat { if HasValue() then 1 else 0 }
  }

  /** Where a request stands. `floor` is one more than the latest flight that had been returned to anybody when the
      request arrived; `seen` is the channel version its receiver has marked as seen. */
  datatype Call =
    | Arrived(floor: nat)
    | AtBorrow(floor: nat, flight: nat, seen: nat)
    | AtChanged(floor: nat, flight: nat, seen: nat)
    | Returned(floor: nat, flight: nat, snapshot: Snapshot)
    | SenderDropped(floor: nat)
    | Abandoned(floor: nat)

  datatype State = State(
    clock: Millis64, ttl: nat, cached: Option<Cached>, running: Option<nat>,
    tasks: seq<Task>, calls: map<nat, Call>, answered: nat)

  function Initial(ttl: nat): State { State(0, ttl, None, None, [], map[], 0) }

  /** The atomic steps. An observation is stamped with the clock of its moment; a machine is made up of instances
      observed before it, and a completed collection of machines observed in it. A step that is not enabled does
      nothing. */
  datatype Step =
    | Tick(now: Millis64)
    | Arrive(call: nat)
    | Decide(call: nat)
    | Begin(flight: nat)
    | ObserveInstance(flight: nat, instance: Instance)
    | ObserveMachine(flight: nat, machine: Machine)
    | Complete(flight: nat, collectionId: Uuid, machines: seq<Machine>, errors: seq<TelemetryError>)
    | Commit(flight: nat)
    | Publish(flight: nat)
    | DropSender(flight: nat)
    | Borrow(call: nat)
    | Changed(call: nat)
    | Abandon(call: nat)

  function PutTask(st: State, f: nat, t: Task): State
    requires f < |st.tasks|
  {
    st.(tasks := st.tasks[f := t])
  }

  function PutCall(st: State, c: nat, call: Call): State { st.(calls := st.calls[c := call]) }

  function Answer(st: State, c: nat, floor: nat, flight: nat, s: Snapshot): State {
    PutCall(st, c, Returned(floor, flight, s)).(answered := if st.answered <= flight then flight + 1 else st.answered)
  }

  function Assemble(id: Uuid, startedAt: Millis64, completedAt: Millis64, ms: seq<Machine>,
                    es: seq<TelemetryError>): Snapshot {
    Snapshot(SCHEMA_VERSION, id, startedAt, completedAt, completedAt, ms, es)
  }

  predicate HasSnapshot(t: Task) { t.Collected? || t.Committed? || t.Published? || t.Finished? }

  /** The random id of a collection is new. */
  ghost predicate FreshId(st: State, id: Uuid) {
    forall g :: 0 <= g < |st.tasks| && HasSnapshot(st.tasks[g]) ==> st.tasks[g].snapshot.collectionId != id
  }

  predicate OnTask(step: Step) {
    || step.Begin? || step.ObserveInstance? || step.ObserveMachine? || step.Complete?
    || step.Commit? || step.Publish? || step.DropSender?
  }

  function DecideStep(st: State, c: nat, floor: nat): State {
    match Enter(st.cached, st.running, st.clock, st.ttl)
    case Hit(cached) => Answer(st, c, floor, cached.flight, cached.snapshot)
    case Join(f) => PutCall(st, c, AtBorrow(floor, f, 0))
    case Start =>
      PutCall(st.(running := Some(|st.tasks|), tasks := st.tasks + [Spawned]), c, AtBorrow(floor, |st.tasks|, 0))
  }

  ghost function TaskStep(st: State, step: Step): State
    requires OnTask(step)
    requires step.flight < |st.tasks|
  {
    var t := st.tasks[step.flight];
    match step
    case Begin(f) => if t.Spawned? then PutTask(st, f, Collecting(st.clock, {}, {})) else st
    case ObserveInstance(f, x) =>
      if t.Collecting? then PutTask(st, f, t.(instances := t.instances + {x.(observedAtMs := st.clock)})) else st
    case ObserveMachine(f, m) =>
      if t.Collecting? && (forall x :: x in m.instances ==> x in t.instances)
      then PutTask(st, f, t.(machines := t.machines + {m.(observedAtMs := st.clock)})) else st
    case Complete(f, id, ms, es) =>
      if t.Collecting? && FreshId(st, id) && (forall m :: m in ms ==> m in t.machines)
      then PutTask(st, f, Collected(Assemble(id, t.startedAt, st.clock, ms, es))) else st
    case Commit(f) =>
      if t.Collected?
      then PutTask(st, f, Committed(t.snapshot)).(cached := Some(Cached(f, t.snapshot)), running := None) else st
    case Publish(f) => if t.Committed? then PutTask(st, f, Published(t.snapshot)) else st
    case DropSender(f) => if t.Published? then PutTask(st, f, Finished(t.snapshot)) else st
  }

  function CallStep(st: State, step: Step): State
    requires step.Decide? || step.Borrow? || step.Changed? || step.Abandon?
    requires step.call in st.calls
  {
    var call := st.calls[step.call];
    match step
    case Decide(c) => if call.Arrived? then DecideStep(st, c, call.floor) else st
    case Borrow(c) =>
      if !call.AtBorrow? || call.flight >= |st.tasks| then st
      else if st.tasks[call.flight].HasValue()
      then Answer(st, c, call.floor, call.flight, st.tasks[call.flight].snapshot)
      else PutCall(st, c, AtChanged(call.floor, call.flight, call.seen))
    case Changed(c) =>
      if !call.AtChanged? || call.flight >= |st.tasks| then st
      else if st.tasks[call.flight].Version() != call.seen
      then PutCall(st, c, AtBorrow(call.floor, call.flight, st.tasks[call.flight].Version()))
      else if st.tasks[call.flight].Finished? then PutCall(st, c, SenderDropped(call.floor))
      else st
    case Abandon(c) => if call.Returned? || call.SenderDropped? then st else PutCall(st, c, Abandoned(call.floor))
  }

  ghost function Take(st: State, step: Step): State {
    if step.Tick? then if st.clock <= step.now then st.(clock := step.now) else st
    else if step.Arrive? then if step.call in st.calls then st else PutCall(st, step.call, Arrived(st.answered))
    else if OnTask(step) then if step.flight < |st.tasks| then TaskStep(st, step) else st
    else if step.call in st.calls then CallStep(st, step)
    else st
  }

  ghost function Run(ttl: nat, steps: seq<Step>): State {
    if steps == [] then Initial(ttl) else Take(Run(ttl, steps[..|steps| - 1]), steps[|steps| - 1])
  }

  // ---------- invariants ----------

  /** How many flights have been committed: all but a running one. */
  function CommittedCount(st: State): int { |st.tasks| - if st.running.Some? then 1 else 0 }

  /** One flight at a time: `running` names the last flight exactly while it is active. */
  ghost predicate OneFlight(st: State) {
    && (st.running.Some? ==> st.running.value == |st.tasks| - 1 && st.tasks[st.running.value].Active())
    && (forall f :: 0 <= f < |st.tasks| && st.tasks[f].Active() ==> st.running == Some(f))
  }

  /** The cache holds the latest committed flight. */
  ghost predicate CacheIsLatest(st: State) {
    && CommittedCount(st) >= 0
    && (st.cached.None? <==> CommittedCount(st) == 0)
    && (st.cached.Some? ==>
          && st.cached.value.flight == CommittedCount(st) - 1
          && !st.tasks[st.cached.value.flight].Active()
          && st.tasks[st.cached.value.flight].snapshot == st.cached.value.snapshot)
  }

  /** Everything in a snapshot is observed between its start and its completion. */
  ghost predicate ObservedWithin(s: Snapshot) {
    && (forall m :: m in s.machines ==> s.startedAtMs <= m.observedAtMs <= s.completedAtMs)
    && (forall m, x :: m in s.machines && x in m.instances ==> s.startedAtMs <= x.observedAtMs <= s.completedAtMs)
  }

  ghost predicate TaskTimed(st: State, f: nat)
    requires f < |st.tasks|
  {
    match st.tasks[f]
    case Spawned => true
    case Collecting(s, instances, machines) =>
      && s <= st.clock
      && (forall x :: x in instances ==> s <= x.observedAtMs <= st.clock)
      && (forall m :: m in machines ==> s <= m.observedAtMs <= st.clock)
      && (forall m, x :: m in machines && x in m.instances ==> x in instances)
    case _ =>
      var s := st.tasks[f].snapshot;
      s.startedAtMs <= s.completedAtMs <= st.clock && s.collectedAtMs == s.completedAtMs && ObservedWithin(s)
  }

  /** A flight starts more than the time to live after its predecessor completed. */
  ghost predicate Spaced(st: State, f: nat)
    requires f < |st.tasks|
  {
    f > 0 && !st.tasks[f - 1].Active() ==>
      var since := st.tasks[f - 1].snapshot.completedAtMs + st.ttl;
      match st.tasks[f]
      case Spawned => since < st.clock
      case Collecting(s, _, _) => since < s
      case _ => since < st.tasks[f].snapshot.startedAtMs
  }

  ghost predicate DistinctIds(st: State) {
    forall f, g :: 0 <= f < g < |st.tasks| && HasSnapshot(st.tasks[f]) && HasSnapshot(st.tasks[g]) ==>
      st.tasks[f].snapshot.collectionId != st.tasks[g].snapshot.collectionId
  }

  ghost predicate FlightsOk(st: State) {
    && (forall f :: 0 <= f < |st.tasks| ==> TaskTimed(st, f))
    && (forall f :: 0 <= f < |st.tasks| ==> Spaced(st, f))
    && DistinctIds(st)
  }

  ghost predicate CallOk(st: State, call: Call) {
    && call.floor <= st.answered
    && match call
       case AtBorrow(floor, f, seen) => f < |st.tasks| && floor <= f + 1 && seen <= st.tasks[f].Version()
       case AtChanged(floor, f, seen) => f < |st.tasks| && floor <= f + 1 && seen == 0
       case Returned(floor, f, s) =>
         f < |st.tasks| && floor <= f + 1 <= st.answered && !st.tasks[f].Active() && st.tasks[f].snapshot == s
       case SenderDropped(_) => false
       case _ => true
  }

  ghost predicate CallsOk(st: State) {
    && st.answered <= CommittedCount(st)
    && forall c :: c in st.calls ==> CallOk(st, st.calls[c])
  }

  ghost predicate Inv(st: State) { OneFlight(st) && CacheIsLatest(st) && FlightsOk(st) && CallsOk(st) }

  // ---------- task steps ----------

  /** Tasks only move forward, and a snapshot once taken stays. */
  predicate Advances(before: Task, after: Task) {
    && (HasSnapshot(before) ==> HasSnapshot(after) && after.snapshot == before.snapshot)
    && (!before.Active() ==> !after.Active())
    && before.Version() <= after.Version()
  }

  lemma TaskStepAdvances(st: State, step: Step, f: nat)
    requires OnTask(step)
    requires step.flight < |st.tasks| && f < |st.tasks|
    ensures |TaskStep(st, step).tasks| == |st.tasks|
    ensures Advances(st.tasks[f], TaskStep(st, step).tasks[f])
    ensures TaskStep(st, step).calls == st.calls && TaskStep(st, step).answered == st.answered
    ensures f != step.flight ==> TaskStep(st, step).tasks[f] == st.tasks[f]
  {
    hide FreshId;
    hide Assemble;
  }

  lemma CallOkAdvances(st: State, st': State, call: Call)
    requires CallOk(st, call) && st.answered <= st'.answered && |st.tasks| <= |st'.tasks|
    requires forall f :: 0 <= f < |st.tasks| ==> Advances(st.tasks[f], st'.tasks[f])
    ensures CallOk(st', call)
  {
  }

  lemma TaskStepFlight(st: State, step: Step)
    requires Inv(st)
    requires OnTask(step)
    requires step.flight < |st.tasks|
    ensures OneFlight(TaskStep(st, step)) && CacheIsLatest(TaskStep(st, step))
    ensures CommittedCount(st) <= CommittedCount(TaskStep(st, step))
  {
    hide FreshId;
    hide Assemble;
    hide FlightsOk;
    hide CallsOk;
  }

  /** What is observed while the clock moves on is observed in time. */
  lemma CompletedInTime(st: State, f: nat, id: Uuid, ms: seq<Machine>, es: seq<TelemetryError>)
    requires f < |st.tasks| && st.tasks[f].Collecting? && TaskTimed(st, f)
    requires forall m :: m in ms ==> m in st.tasks[f].machines
    ensures ObservedWithin(Assemble(id, st.tasks[f].startedAt, st.clock, ms, es))
  {
  }

  lemma OwnTaskTimed(st: State, step: Step)
    requires OnTask(step) && step.flight < |st.tasks| && TaskTimed(st, step.flight)
    ensures TaskTimed(TaskStep(st, step), step.flight)
  {
    hide FreshId;
    var f := step.flight;
    if step.Complete? && st.tasks[f].Collecting? && (forall m :: m in step.machines ==> m in st.tasks[f].machines) {
      CompletedInTime(st, f, step.collectionId, step.machines, step.errors);
    }
    hide ObservedWithin;
  }

  lemma TaskStepTimes(st: State, step: Step)
    requires Inv(st)
    requires OnTask(step)
    requires step.flight < |st.tasks|
    ensures FlightsOk(TaskStep(st, step))
  {
    hide ObservedWithin;
    hide CallsOk;
    var st' := TaskStep(st, step);
    var k := step.flight;
    assert TaskTimed(st, k) && Spaced(st, k);
    forall f | 0 <= f < |st'.tasks| ensures TaskTimed(st', f) {
      assert TaskTimed(st, f);
      if f == k {
        OwnTaskTimed(st, step);
      }
    }
    forall f | 0 <= f < |st'.tasks| ensures Spaced(st', f) {
      assert Spaced(st, f);
    }
  }

  lemma TaskStepKeeps(st: State, step: Step)
    requires Inv(st)
    requires OnTask(step)
    requires step.flight < |st.tasks|
    ensures Inv(TaskStep(st, step))
  {
    TaskStepFlight(st, step);
    TaskStepTimes(st, step);
    var st' := TaskStep(st, step);
    TaskStepAdvances(st, step, step.flight);
    forall f | 0 <= f < |st.tasks| ensures Advances(st.tasks[f], st'.tasks[f]) {
      TaskStepAdvances(st, step, f);
    }
    hide TaskStep;
    hide Advances;
    hide OneFlight;
    hide CacheIsLatest;
    hide FlightsOk;
    hide CallOk;
    forall c | c in st'.calls ensures CallOk(st', st'.calls[c]) {
      CallOkAdvances(st, st', st.calls[c]);
    }
  }

  // ---------- call steps ----------

  lemma PutCallKeeps(st: State, c: nat, call: Call)
    requires Inv(st) && CallOk(st, call)
    ensures Inv(PutCall(st, c, call))
  {
    var st' := PutCall(st, c, call);
    assert FlightsOk(st') by { SameFlights(st, st'); }
    hide FlightsOk;
    forall k | k in st'.calls ensures CallOk(st', st'.calls[k]) {
    }
  }

  lemma SameFlights(st: State, st': State)
    requires FlightsOk(st) && st'.tasks == st.tasks && st'.ttl == st.ttl && st.clock <= st'.clock
    ensures FlightsOk(st')
  {
    hide Timed;
    forall f | 0 <= f < |st'.tasks| ensures TaskTimed(st', f) && Spaced(st', f) {
      assert TaskTimed(st, f) && Spaced(st, f);
    }
  }

  lemma AnswerKeeps(st: State, c: nat, floor: nat, flight: nat, s: Snapshot)
    requires Inv(st) && flight < CommittedCount(st) && floor <= flight + 1 && floor <= st.answered
    requires !st.tasks[flight].Active() && st.tasks[flight].snapshot == s
    ensures Inv(Answer(st, c, floor, flight, s))
  {
    var up := st.(answered := if st.answered <= flight then flight + 1 else st.answered);
    SameFlights(st, up);
    assert Inv(up) by {
      hide FlightsOk;
      forall k | k in up.calls ensures CallOk(up, up.calls[k]) {
        CallOkAdvances(st, up, st.calls[k]);
      }
    }
    PutCallKeeps(up, c, Returned(floor, flight, s));
    assert Answer(st, c, floor, flight, s) == PutCall(up, c, Returned(floor, flight, s));
  }

  /** Starting a flight: the cache is too old or empty, and nothing runs. */
  lemma StartKeeps(st: State)
    requires Inv(st) && Enter(st.cached, st.running, st.clock, st.ttl).Start?
    ensures Inv(st.(running := Some(|st.tasks|), tasks := st.tasks + [Spawned]))
  {
    var st' := st.(running := Some(|st.tasks|), tasks := st.tasks + [Spawned]);
    assert OneFlight(st') && CacheIsLatest(st');
    forall f | 0 <= f < |st'.tasks| ensures TaskTimed(st', f) && Spaced(st', f) {
      if f < |st.tasks| {
        assert TaskTimed(st, f) && Spaced(st, f);
      }
    }
    forall k | k in st'.calls ensures CallOk(st', st'.calls[k]) {
      CallOkAdvances(st, st', st.calls[k]);
    }
  }

  lemma DecideKeeps(st: State, c: nat)
    requires Inv(st) && c in st.calls && st.calls[c].Arrived?
    ensures Inv(DecideStep(st, c, st.calls[c].floor))
  {
    var floor := st.calls[c].floor;
    assert CallOk(st, st.calls[c]);
    match Enter(st.cached, st.running, st.clock, st.ttl)
    case Hit(cached) => AnswerKeeps(st, c, floor, cached.flight, cached.snapshot);
    case Join(f) => PutCallKeeps(st, c, AtBorrow(floor, f, 0));
    case Start =>
      StartKeeps(st);
      PutCallKeeps(st.(running := Some(|st.tasks|), tasks := st.tasks + [Spawned]), c, AtBorrow(floor, |st.tasks|, 0));
  }

  lemma CallStepKeeps(st: State, step: Step)
    requires Inv(st)
    requires step.Decide? || step.Borrow? || step.Changed? || step.Abandon?
    requires step.call in st.calls
    ensures Inv(CallStep(st, step))
  {
    var call := st.calls[step.call];
    assert CallOk(st, call);
    match step
    case Decide(c) =>
      if call.Arrived? {
        DecideKeeps(st, c);
      }
    case Borrow(c) =>
      if call.AtBorrow? {
        if st.tasks[call.flight].HasValue() {
          ValuesAreCommitted(st, call.flight);
          AnswerKeeps(st, c, call.floor, call.flight, st.tasks[call.flight].snapshot);
        } else {
          PutCallKeeps(st, c, AtChanged(call.floor, call.flight, call.seen));
        }
      }
    case Changed(c) =>
      if call.AtChanged? && st.tasks[call.flight].Version() != call.seen {
        PutCallKeeps(st, c, AtBorrow(call.floor, call.flight, st.tasks[call.flight].Version()));
      }
    case Abandon(c) =>
      if !call.Returned? && !call.SenderDropped? {
        PutCallKeeps(st, c, Abandoned(call.floor));
      }
  }

  lemma ValuesAreCommitted(st: State, f: nat)
    requires Inv(st) && f < |st.tasks| && !st.tasks[f].Active()
    ensures f < CommittedCount(st)
  {
  }

  lemma TakeKeeps(st: State, step: Step)
    requires Inv(st)
    ensures Inv(Take(st, step))
  {
    if step.Tick? {
      if st.clock <= step.now {
        SameFlights(st, st.(clock := step.now));
        hide FlightsOk;
        assert forall c :: c in st.calls ==> CallOk(st.(clock := step.now), st.calls[c]) by {
          assert forall c :: c in st.calls ==> CallOk(st, st.calls[c]);
        }
      }
    } else if step.Arrive? {
      if step.call !in st.calls {
        PutCallKeeps(st, step.call, Arrived(st.answered));
      }
    } else if step.Decide? || step.Borrow? || step.Changed? || step.Abandon? {
      if step.call in st.calls {
        CallStepKeeps(st, step);
      }
    } else if step.flight < |st.tasks| {
      TaskStepKeeps(st, step);
    }
  }

  lemma {:induction false} RunKeeps(ttl: nat, steps: seq<Step>)
    ensures Inv(Run(ttl, steps)) && Run(ttl, steps).ttl == ttl
  {
    if steps != [] {
      RunKeeps(ttl, steps[..|steps| - 1]);
      TakeKeeps(Run(ttl, steps[..|steps| - 1]), steps[|steps| - 1]);
      TtlStays(Run(ttl, steps[..|steps| - 1]), steps[|steps| - 1]);
      hide Take;
      hide Inv;
    }
  }

  lemma TtlStays(st: State, step: Step)
    ensures Take(st, step).ttl == st.ttl
  {
    hide FreshId;
    hide Assemble;
  }

  // ---------- how a state may follow another ----------

  predicate Waiting(c: Call) { c.AtBorrow? || c.AtChanged? }

  /** A flight that had not finished collecting at `clock` completes no earlier, and if it had not begun it starts no
      earlier; a snapshot once taken stays. */
  predicate TaskFollows(clock: nat, t: Task, t': Task) {
    && Advances(t, t')
    && (t.Spawned? && t'.Collecting? ==> clock <= t'.startedAt)
    && (t.Spawned? && HasSnapshot(t') ==> clock <= t'.snapshot.startedAtMs && clock <= t'.snapshot.completedAtMs)
    && (t.Collecting? ==>
          || (t'.Collecting? && t'.startedAt == t.startedAt)
          || (HasSnapshot(t') && t'.snapshot.startedAtMs == t.startedAt && clock <= t'.snapshot.completedAtMs))
  }

  /** A request keeps waiting for the flight it joined until it returns that flight or is abandoned. */
  predicate CallFollows(c: Call, c': Call) {
    && c'.floor == c.floor
    && (Waiting(c) && (Waiting(c') || c'.Returned?) ==> c'.flight == c.flight)
    && (Waiting(c) ==> !c'.Arrived?)
    && (c.Returned? || c.Abandoned? || c.SenderDropped? ==> c' == c)
  }

  ghost predicate Follows(st: State, st': State) {
    && st.clock <= st'.clock && st.answered <= st'.answered && |st.tasks| <= |st'.tasks|
    && (forall f :: 0 <= f < |st.tasks| ==> TaskFollows(st.clock, st.tasks[f], st'.tasks[f]))
    && (forall c :: c in st.calls ==> c in st'.calls && CallFollows(st.calls[c], st'.calls[c]))
    && (forall c :: c in st'.calls && c !in st.calls ==> st.answered <= st'.calls[c].floor)
  }

  lemma TaskStepFollows(st: State, step: Step)
    requires Inv(st)
    requires OnTask(step)
    requires step.flight < |st.tasks|
    ensures Follows(st, TaskStep(st, step))
  {
    hide FreshId;
    hide CallsOk;
    hide OneFlight;
    hide CacheIsLatest;
    assert TaskTimed(st, step.flight);
    hide FlightsOk;
  }

  lemma CallStepFollows(st: State, step: Step)
    requires step.Decide? || step.Borrow? || step.Changed? || step.Abandon?
    requires step.call in st.calls
    ensures Follows(st, CallStep(st, step))
  {
  }

  lemma TakeFollows(st: State, step: Step)
    requires Inv(st)
    ensures Follows(st, Take(st, step))
  {
    if step.Decide? || step.Borrow? || step.Changed? || step.Abandon? {
      hide Inv;
      hide CallStep;
      if step.call in st.calls {
        CallStepFollows(st, step);
      }
    } else if !step.Tick? && !step.Arrive? {
      hide Inv;
      hide TaskStep;
      if step.flight < |st.tasks| {
        TaskStepFollows(st, step);
      }
    }
  }

  lemma FollowsTransitive(a: State, b: State, c: State)
    requires Follows(a, b) && Follows(b, c)
    ensures Follows(a, c)
  {
    forall f | 0 <= f < |a.tasks| ensures TaskFollows(a.clock, a.tasks[f], c.tasks[f]) {
      assert TaskFollows(a.clock, a.tasks[f], b.tasks[f]) && TaskFollows(b.clock, b.tasks[f], c.tasks[f]);
    }
    forall k | k in a.calls ensures k in c.calls && CallFollows(a.calls[k], c.calls[k]) {
      assert CallFollows(a.calls[k], b.calls[k]) && CallFollows(b.calls[k], c.calls[k]);
    }
  }

  lemma {:induction false} RunFollows(ttl: nat, steps: seq<Step>, later: seq<Step>)
    ensures Follows(Run(ttl, steps), Run(ttl, steps + later))
    decreases |later|
  {
    if later == [] {
      assert steps + later == steps;
      hide Run;
    } else {
      var front := later[..|later| - 1];
      RunFollows(ttl, steps, front);
      assert (steps + later)[..|steps + later| - 1] == steps + front;
      assert (steps + later)[|steps + later| - 1] == later[|later| - 1];
      RunKeeps(ttl, steps + front);
      TakeFollows(Run(ttl, steps + front), later[|later| - 1]);
      hide Follows;
      hide Inv;
      hide Take;
      FollowsTransitive(Run(ttl, steps), Run(ttl, steps + front), Run(ttl, steps + later));
    }
  }

  // ---------- the guarantees ----------

  /** At most one collection is under way, and `running` is set exactly while one is. */
  lemma OneCollectionAtATime(ttl: nat, steps: seq<Step>, f: nat)
    requires f < |Run(ttl, steps).tasks|
    ensures Run(ttl, steps).tasks[f].Active() <==> Run(ttl, steps).running == Some(f)
  {
    RunKeeps(ttl, steps);
    hide Run;
    hide FlightsOk;
    hide CallsOk;
  }

  /** No waiter ever finds its sender dropped without a value. */
  lemma NoSenderDropped(ttl: nat, steps: seq<Step>, c: nat)
    requires c in Run(ttl, steps).calls
    ensures !Run(ttl, steps).calls[c].SenderDropped?
  {
    RunKeeps(ttl, steps);
    hide Run;
    assert CallOk(Run(ttl, steps), Run(ttl, steps).calls[c]);
  }

  /** Whatever happens next, a waiter waits for the collection it joined, gives up, or gets
      that collection's snapshot. */
  lemma WaiterGetsItsFlight(ttl: nat, steps: seq<Step>, later: seq<Step>, c: nat)
    requires c in Run(ttl, steps).calls && Waiting(Run(ttl, steps).calls[c])
    ensures c in Run(ttl, steps + later).calls
    ensures var flight, call := Run(ttl, steps).calls[c].flight, Run(ttl, steps + later).calls[c];
            || call.Abandoned?
            || (Waiting(call) && call.flight == flight)
            || (call.Returned? && call.flight == flight && flight < |Run(ttl, steps + later).tasks|
                && HasSnapshot(Run(ttl, steps + later).tasks[flight])
                && call.snapshot == Run(ttl, steps + later).tasks[flight].snapshot)
  {
    RunFollows(ttl, steps, later);
    RunKeeps(ttl, steps + later);
    hide Run;
    var st := Run(ttl, steps + later);
    assert CallOk(st, st.calls[c]);
  }

  /** No wakeup is lost: once its flight has published, a waiter returns by its own next steps. */
  lemma NoLostWakeup(ttl: nat, steps: seq<Step>, c: nat)
    requires c in Run(ttl, steps).calls && Waiting(Run(ttl, steps).calls[c])
    ensures var st := Run(ttl, steps);
            var f := st.calls[c].flight;
            f < |st.tasks| && (st.tasks[f].HasValue() ==>
              var turns := if st.calls[c].AtBorrow? then Take(st, Borrow(c)) else Take(Take(st, Changed(c)), Borrow(c));
              turns.calls[c] == Returned(st.calls[c].floor, f, st.tasks[f].snapshot))
  {
    RunKeeps(ttl, steps);
    hide Run;
    var st := Run(ttl, steps);
    assert CallOk(st, st.calls[c]);
    hide Inv;
  }

  /** Flights are numbered in time: each collection starts more than the time to live after any
      earlier one completed. */
  lemma {:induction false} FlightsAreSpaced(st: State, f: nat, g: nat)
    requires Inv(st) && f < g < |st.tasks| && !st.tasks[g].Active()
    ensures !st.tasks[f].Active()
    ensures st.tasks[f].snapshot.completedAtMs + st.ttl < st.tasks[g].snapshot.startedAtMs
    ensures st.tasks[f].snapshot.collectionId != st.tasks[g].snapshot.collectionId
    decreases g
  {
    assert Spaced(st, g) && TaskTimed(st, g);
    if f < g - 1 {
      FlightsAreSpaced(st, f, g - 1);
      assert TaskTimed(st, g - 1);
    }
    hide Spaced;
    hide TaskTimed;
    hide CallsOk;
  }

  /** A request that arrives after another returned never gets an older collection: it gets the same one, or one that
      started more than the time to live after the first completed. */
  lemma NeverOlder(ttl: nat, steps: seq<Step>, later: seq<Step>, a: nat, b: nat)
    requires a in Run(ttl, steps).calls && Run(ttl, steps).calls[a].Returned?
    requires b !in Run(ttl, steps).calls
    requires b in Run(ttl, steps + later).calls && Run(ttl, steps + later).calls[b].Returned?
    ensures var first, second := Run(ttl, steps).calls[a].snapshot, Run(ttl, steps + later).calls[b].snapshot;
            second == first
            || (first.completedAtMs + ttl < second.startedAtMs && first.collectionId != second.collectionId)
  {
    RunFollows(ttl, steps, later);
    RunKeeps(ttl, steps);
    RunKeeps(ttl, steps + later);
    hide Run;
    var st, st' := Run(ttl, steps), Run(ttl, steps + later);
    assert CallOk(st, st.calls[a]) && CallOk(st', st'.calls[b]);
    var f, g := st.calls[a].flight, st'.calls[b].flight;
    assert TaskFollows(st.clock, st.tasks[f], st'.tasks[f]);
    if f < g {
      FlightsAreSpaced(st', f, g);
    }
  }

  // ---------- from a given moment on ----------

  /** It is `start` or later, and every collection that has begun began then or later. */
  ghost predicate Since(st: State, start: nat) {
    start <= st.clock && forall f :: 0 <= f < |st.tasks| ==> BegunSince(st.tasks[f], start)
  }

  predicate BegunSince(t: Task, start: nat) {
    && (t.Collecting? ==> start <= t.startedAt)
    && (HasSnapshot(t) ==> start <= t.snapshot.startedAtMs)
  }

  lemma TakeSince(st: State, step: Step, start: nat)
    requires Since(st, start)
    ensures Since(Take(st, step), start)
  {
    hide FreshId;
    var st' := Take(st, step);
    forall f | 0 <= f < |st'.tasks| ensures BegunSince(st'.tasks[f], start) {
      if f < |st.tasks| {
        assert BegunSince(st.tasks[f], start);
      }
    }
  }

  // ---------- how fresh an answer is ----------

  /** In every run the collections are in time: what a finished one holds was observed between its start and its
      completion, and it completed no later than now. */
  lemma ObservedInTime(ttl: nat, steps: seq<Step>, f: nat)
    requires f < |Run(ttl, steps).tasks| && HasSnapshot(Run(ttl, steps).tasks[f])
    ensures var s := Run(ttl, steps).tasks[f].snapshot;
            ObservedWithin(s) && s.startedAtMs <= s.completedAtMs <= Run(ttl, steps).clock
  {
    RunKeeps(ttl, steps);
    assert TaskTimed(Run(ttl, steps), f);
  }

  /** The snapshot in hand when a request is decided, if there is one: the cached one, or that of a flight which has
      finished collecting but waits for the lock. */
  function InHand(st: State): Option<Snapshot> {
    match Enter(st.cached, st.running, st.clock, st.ttl)
    case Hit(cached) => Some(cached.snapshot)
    case Join(f) => if f < |st.tasks| && st.tasks[f].Collected? then Some(st.tasks[f].snapshot) else None
    case Start => None
  }

  /** An answer is a collection that completed no earlier than the request was decided, unless a snapshot was in hand
      at that moment; then it is that snapshot. */
  lemma AnswerAge(ttl: nat, steps: seq<Step>, later: seq<Step>, c: nat)
    requires c in Run(ttl, steps).calls && Run(ttl, steps).calls[c].Arrived?
    requires c in Run(ttl, steps + [Decide(c)] + later).calls
             && Run(ttl, steps + [Decide(c)] + later).calls[c].Returned?
    ensures var st, answer := Run(ttl, steps), Run(ttl, steps + [Decide(c)] + later).calls[c].snapshot;
            match InHand(st)
            case Some(s) => answer == s && s.completedAtMs <= st.clock
            case None => st.clock <= answer.completedAtMs
  {
    var st, st1, st2 := Run(ttl, steps), Run(ttl, steps + [Decide(c)]), Run(ttl, steps + [Decide(c)] + later);
    assert st1 == DecideStep(st, c, st.calls[c].floor) by {
      assert (steps + [Decide(c)])[..|steps|] == steps;
    }
    RunKeeps(ttl, steps);
    RunFollows(ttl, steps + [Decide(c)], later);
    RunKeeps(ttl, steps + [Decide(c)] + later);
    hide Run;
    DecidedAge(st, st1, st2, c);
  }

  lemma DecidedAge(st: State, st1: State, st2: State, c: nat)
    requires Inv(st) && Inv(st2) && c in st.calls && st.calls[c].Arrived?
    requires st1 == DecideStep(st, c, st.calls[c].floor) && Follows(st1, st2)
    requires c in st2.calls && st2.calls[c].Returned?
    ensures match InHand(st)
            case Some(s) => st2.calls[c].snapshot == s && s.completedAtMs <= st.clock
            case None => st.clock <= st2.calls[c].snapshot.completedAtMs
  {
    assert CallFollows(st1.calls[c], st2.calls[c]);
    assert CallOk(st2, st2.calls[c]);
    match Enter(st.cached, st.running, st.clock, st.ttl)
    case Hit(cached) => assert TaskTimed(st, cached.flight);
    case Join(f) =>
      assert TaskTimed(st, f);
      assert TaskFollows(st1.clock, st1.tasks[f], st2.tasks[f]);
    case Start =>
      assert TaskFollows(st1.clock, st1.tasks[|st.tasks|], st2.tasks[|st.tasks|]);
  }

  /** A collection that has been committed and is at most the time to live old. */
  predicate FreshFlight(st: State, f: nat) {
    && f < |st.tasks| && HasSnapshot(st.tasks[f]) && !st.tasks[f].Active()
    && st.clock <= st.tasks[f].snapshot.completedAtMs + st.ttl
  }

  /** The flight of this request, whether it waits or has been answered. */
  predicate Joins(c: Call, f: nat) { Waiting(c) && c.flight == f }

  /** What becomes of a request when it is decided: while a committed collection is fresh it returns at once with a
      fresh one and starts nothing; otherwise it joins the flight that has not committed yet; and if there is none it
      starts the next one. */
  lemma DecidesExactly(ttl: nat, steps: seq<Step>, c: nat)
    requires c in Run(ttl, steps).calls && Run(ttl, steps).calls[c].Arrived?
    ensures var st, st' := Run(ttl, steps), Run(ttl, steps + [Decide(c)]);
            && c in st'.calls
            && (if exists f: nat :: FreshFlight(st, f) then
                  && st'.calls[c].Returned? && FreshFlight(st, st'.calls[c].flight)
                  && st'.calls[c].snapshot == st.tasks[st'.calls[c].flight].snapshot && st'.tasks == st.tasks
                else if exists f: nat :: f < |st.tasks| && st.tasks[f].Active() then
                  && st'.tasks == st.tasks
                  && exists f: nat :: f < |st.tasks| && st.tasks[f].Active() && Joins(st'.calls[c], f)
                else st'.tasks == st.tasks + [Spawned] && Joins(st'.calls[c], |st.tasks|))
  {
    RunKeeps(ttl, steps);
    RunStep(ttl, steps, Decide(c));
    hide Run;
    FreshIsCached(Run(ttl, steps));
    hide FreshFlight;
    hide FlightsOk;
    hide CallsOk;
  }

  /** If any committed collection is fresh the cached one is. */
  lemma FreshIsCached(st: State)
    requires Inv(st)
    ensures (exists f: nat :: FreshFlight(st, f))
        <==> st.cached.Some? && st.clock <= st.cached.value.snapshot.completedAtMs + st.ttl
    ensures st.cached.Some? && st.clock <= st.cached.value.snapshot.completedAtMs + st.ttl ==>
              FreshFlight(st, st.cached.value.flight)
  {
    if f: nat :| FreshFlight(st, f) {
      var last := CommittedCount(st) - 1;
      assert f <= last;
      assert st.cached.Some? && !st.tasks[last].Active();
      assert TaskTimed(st, last);
      if f != last {
        FlightsAreSpaced(st, f, last);
      }
      assert st.clock <= st.cached.value.snapshot.completedAtMs + st.ttl;
    }
    if st.cached.Some? && st.clock <= st.cached.value.snapshot.completedAtMs + st.ttl {
      assert HasSnapshot(st.tasks[st.cached.value.flight]);
      assert FreshFlight(st, st.cached.value.flight);
    }
  }

  /** How old an answer can be: at most the time to live when its request was decided; only a flight that had finished
      collecting by then, and still waited for the lock, may answer with an older snapshot. */
  lemma AnswerIsFresh(ttl: nat, steps: seq<Step>, later: seq<Step>, c: nat)
    requires c in Run(ttl, steps).calls && Run(ttl, steps).calls[c].Arrived?
    requires var end := Run(ttl, steps + [Decide(c)] + later); c in end.calls && end.calls[c].Returned?
    ensures var st, answer := Run(ttl, steps), Run(ttl, steps + [Decide(c)] + later).calls[c].snapshot;
            && (st.clock <= answer.completedAtMs + ttl
                || exists f :: 0 <= f < |st.tasks| && st.tasks[f] == Collected(answer))
            && ((forall f: nat :: !FreshFlight(st, f)) ==>
                  forall f :: 0 <= f < |st.tasks| && st.tasks[f].Collected? ==> st.tasks[f] == Collected(answer))
  {
    AnswerAge(ttl, steps, later, c);
    RunKeeps(ttl, steps);
    FreshIsCached(Run(ttl, steps));
    hide Run;
    hide Inv;
    hide FreshFlight;
  }

  /** Of a request that has not arrived after `steps`, and is decided after `between`: its answer was complete before
      it arrived exactly if a snapshot that old was in hand when it was decided. */
  lemma OlderExactly(ttl: nat, steps: seq<Step>, between: seq<Step>, later: seq<Step>, c: nat)
    requires c !in Run(ttl, steps).calls
    requires c in Run(ttl, steps + between).calls && Run(ttl, steps + between).calls[c].Arrived?
    requires var end := Run(ttl, steps + between + [Decide(c)] + later); c in end.calls && end.calls[c].Returned?
    ensures var arrival, held := Run(ttl, steps).clock, InHand(Run(ttl, steps + between));
            Run(ttl, steps + between + [Decide(c)] + later).calls[c].snapshot.completedAtMs < arrival
            <==> held.Some? && held.value.completedAtMs < arrival
  {
    AnswerAge(ttl, steps + between, later, c);
    RunFollows(ttl, steps, between);
    hide Run;
    hide InHand;
  }

  lemma RunStep(ttl: nat, steps: seq<Step>, step: Step)
    ensures Run(ttl, steps + [step]) == Take(Run(ttl, steps), step)
  {
    hide Take;
    assert (steps + [step])[..|steps|] == steps;
  }

  lemma FirstScene(ttl: nat)
    ensures Run(ttl, [Arrive(0), Decide(0), Begin(0)])
            == State(0, ttl, None, Some(0), [Collecting(0, {}, {})], map[0 := AtBorrow(0, 0, 0)], 0)
  {
    assert [] + [Arrive(0)] == [Arrive(0)];
    RunStep(ttl, [], Arrive(0));
    RunStep(ttl, [Arrive(0)], Decide(0));
    RunStep(ttl, [Arrive(0), Decide(0)], Begin(0));
    assert [Arrive(0)] + [Decide(0)] == [Arrive(0), Decide(0)];
    assert [Arrive(0), Decide(0)] + [Begin(0)] == [Arrive(0), Decide(0), Begin(0)];
    assert Run(ttl, []) == Initial(ttl);
    hide Run;
  }

  lemma CollectedScene(ttl: nat, s: Snapshot)
    requires s == Assemble(1, 0, 0, [], [])
    ensures var st := State(0, ttl, None, Some(0), [Collecting(0, {}, {})], map[0 := AtBorrow(0, 0, 0)], 0);
            Take(Take(st, Complete(0, 1, [], [])), Tick(10))
            == State(10, ttl, None, Some(0), [Collected(s)], map[0 := AtBorrow(0, 0, 0)], 0)
  {
    var st := State(0, ttl, None, Some(0), [Collecting(0, {}, {})], map[0 := AtBorrow(0, 0, 0)], 0);
    assert FreshId(st, 1);
    hide FreshId;
  }

  lemma JoinScene(ttl: nat, s: Snapshot)
    ensures var st := State(10, ttl, None, Some(0), [Collected(s)], map[0 := AtBorrow(0, 0, 0)], 0);
            Take(Take(st, Arrive(1)), Decide(1))
            == State(10, ttl, None, Some(0), [Collected(s)], map[0 := AtBorrow(0, 0, 0), 1 := AtBorrow(0, 0, 0)], 0)
  {
  }

  lemma LastScene(ttl: nat, s: Snapshot)
    ensures var st := State(10, ttl, None, Some(0), [Collected(s)],
                            map[0 := AtBorrow(0, 0, 0), 1 := AtBorrow(0, 0, 0)], 0);
            var calls := Take(Take(Take(st, Commit(0)), Publish(0)), Borrow(1)).calls;
            1 in calls && calls[1] == Returned(0, 0, s)
  {
    hide FreshId;
    var joined := State(10, ttl, None, Some(0), [Collected(s)], map[0 := AtBorrow(0, 0, 0), 1 := AtBorrow(0, 0, 0)], 0);
    var published := Take(Take(joined, Commit(0)), Publish(0));
    assert published.tasks == [Published(s)] && published.calls == joined.calls;
  }

  /** "A waiting request gets a collection that completed after it arrived" is false: request 1 arrives after
      `steps` and waits after `joining`, but the flight it has joined had finished collecting and was only waiting
      for the lock. */
  lemma JoinerMayGetOlderSnapshot(ttl: nat)
    ensures exists steps: seq<Step>, joining: seq<Step>, later: seq<Step> ::
              JoinedTooLate(ttl, steps, joining, later)
  {
    hide Take;
    hide Run;
    var first := [Arrive(0), Decide(0), Begin(0)];
    var s := Assemble(1, 0, 0, [], []);
    FirstScene(ttl);
    RunStep(ttl, first, Complete(0, 1, [], []));
    var steps := first + [Complete(0, 1, [], [])] + [Tick(10)];
    RunStep(ttl, first + [Complete(0, 1, [], [])], Tick(10));
    CollectedScene(ttl, s);
    RunStep(ttl, steps, Arrive(1));
    RunStep(ttl, steps + [Arrive(1)], Decide(1));
    var joining, later := [Arrive(1), Decide(1)], [Commit(0), Publish(0), Borrow(1)];
    assert steps + [Arrive(1)] + [Decide(1)] == steps + joining;
    JoinScene(ttl, s);
    RunStep(ttl, steps + joining, Commit(0));
    RunStep(ttl, steps + joining + [Commit(0)], Publish(0));
    RunStep(ttl, steps + joining + [Commit(0)] + [Publish(0)], Borrow(1));
    assert steps + joining + [Commit(0)] + [Publish(0)] + [Borrow(1)] == steps + joining + later;
    LastScene(ttl, s);
    assert JoinedTooLate(ttl, steps, joining, later);
  }

  ghost predicate JoinedTooLate(ttl: nat, steps: seq<Step>, joining: seq<Step>, later: seq<Step>) {
    var arrival, joined, end := Run(ttl, steps), Run(ttl, steps + joining), Run(ttl, steps + joining + later);
    && 1 !in arrival.calls
    && 1 in joined.calls && Waiting(joined.calls[1])
    && 1 in end.calls && end.calls[1].Returned?
    && end.calls[1].snapshot.completedAtMs < arrival.clock
  }
}
