/** The whole telemetry path during one gateway lifetime: the collector's protocol, other requests, the serial poller,
    retention, and the tables (crates/nexustier-gateway/src/telemetry.rs:163-199, controller/internal/poller/worker.go,
    controller/internal/ingest/store.go). */
module EndToEnd {
  import opened Topology
  import opened Tables
  import opened IngestInOrder
  import IngestDuplicates
  import PeerHistory
  import Collector

  /** What the poller's answers came to: a snapshot that reached the database, one that did not because an error or
      a timeout struck before its commit, or a retention transaction in between. */
  datatype Entry =
    | Reached(flight: nat, snapshot: Snapshot)
    | Missed(flight: nat, snapshot: Snapshot)
    | Retained(event: Event)
  {
    predicate Polled() { Reached? || Missed? }
  }

  datatype Poll = Idle | Polling(call: nat)

  datatype World = World(gateway: Collector.State, poll: Poll, log: seq<Entry>)

  /** A step of the gateway or of any of its clients; the poller asks, hands over what it got, or gives up;
      retention runs a transaction. A step that is not enabled does nothing. */
  datatype Step =
    | Gateway(step: Collector.Step)
    | Ask(call: nat)
    | HandOver(reaches: bool)
    | GiveUp
    | Retain(event: Event)

  ghost function Take(w: World, step: Step): World {
    match step
    case Gateway(g) => w.(gateway := Collector.Take(w.gateway, g))
    case Ask(c) =>
      if w.poll.Idle? && c !in w.gateway.calls
      then w.(gateway := Collector.Take(w.gateway, Collector.Arrive(c)), poll := Polling(c)) else w
    case HandOver(reaches) =>
      if w.poll.Polling? && w.poll.call in w.gateway.calls && w.gateway.calls[w.poll.call].Returned? then
        var call := w.gateway.calls[w.poll.call];
        w.(poll := Idle,
           log := w.log + [if reaches then Reached(call.flight, call.snapshot) else Missed(call.flight, call.snapshot)])
      else w
    case GiveUp => w.(poll := Idle)
    case Retain(e) => if e.Deliver? then w else w.(log := w.log + [Retained(e)])
  }

  /** A run of a gateway that comes up at `start`. */
  ghost function Run(ttl: nat, start: Millis64, steps: seq<Step>): World {
    if steps == [] then World(Collector.Initial(ttl).(clock := start), Idle, [])
    else Take(Run(ttl, start, steps[..|steps| - 1]), steps[|steps| - 1])
  }

  function EventOf(e: Entry): seq<Event> {
    match e
    case Reached(_, s) => [Deliver(s)]
    case Missed(_, _) => []
    case Retained(event) => [event]
  }

  /** The transactions the database sees. */
  function EventsOf(log: seq<Entry>): seq<Event> {
    if log == [] then [] else EventsOf(log[..|log| - 1]) + EventOf(log[|log| - 1])
  }

  ghost predicate Known(log: seq<Entry>, flight: nat) {
    exists k :: 0 <= k < |log| && log[k].Reached? && log[k].flight == flight
  }

  ghost function NewEvents(front: seq<Entry>, e: Entry): seq<Event> {
    if e.Reached? && Known(front, e.flight) then [] else EventOf(e)
  }

  /** The same transactions without the repeats of a collection that was delivered before. */
  ghost function WithoutRepeats(log: seq<Entry>): seq<Event> {
    if log == [] then []
    else WithoutRepeats(log[..|log| - 1]) + NewEvents(log[..|log| - 1], log[|log| - 1])
  }

  /** The poller's request has been answered. */
  predicate HasAnswer(w: World) {
    w.poll.Polling? && w.poll.call in w.gateway.calls && w.gateway.calls[w.poll.call].Returned?
  }

  /** What reaches the database in a step: the snapshot that the poller's request was answered with, if it hands it over
      and nothing fails before the commit; a transaction of retention; and nothing in any other step. */
  lemma StepDelivers(w: World, step: Step)
    ensures EventsOf(Take(w, step).log)
         == EventsOf(w.log)
            + (if step == HandOver(true) && HasAnswer(w) then [Deliver(w.gateway.calls[w.poll.call].snapshot)]
               else if step.Retain? && !step.event.Deliver? then [step.event]
               else [])
    ensures step.Ask? && w.poll.Idle? && step.call !in w.gateway.calls ==> Take(w, step).poll == Polling(step.call)
    ensures step.GiveUp? || (step.HandOver? && EventsOf(Take(w, step).log) != EventsOf(w.log)) ==>
              Take(w, step).poll.Idle?
  {
    hide Collector.Take;
    hide EventsOf;
    if step.HandOver? && HasAnswer(w) {
      var call := w.gateway.calls[w.poll.call];
      EventsStep(w.log,
                 if step.reaches then Reached(call.flight, call.snapshot) else Missed(call.flight, call.snapshot));
    } else if step.Retain? && !step.event.Deliver? {
      EventsStep(w.log, Retained(step.event));
    } else {
      assert EventsOf(w.log) + [] == EventsOf(w.log);
    }
  }

  lemma EventsStep(log: seq<Entry>, e: Entry)
    ensures EventsOf(log + [e]) == EventsOf(log) + EventOf(e)
  {
    assert (log + [e])[..|log|] == log;
  }

  // ---------- what every reachable world keeps ----------

  /** An entry of the log is a finished flight of the gateway. */
  ghost predicate Recorded(st: Collector.State, e: Entry) {
    e.Polled() ==>
      && e.flight < |st.tasks| && e.flight < st.answered
      && Collector.HasSnapshot(st.tasks[e.flight]) && !st.tasks[e.flight].Active()
      && st.tasks[e.flight].snapshot == e.snapshot
  }

  ghost predicate Ordered(log: seq<Entry>) {
    forall a, b :: 0 <= a < b < |log| && log[a].Polled() && log[b].Polled() ==> log[a].flight <= log[b].flight
  }

  /** Whatever the poller gets next is no older than anything it handed over. */
  ghost predicate PollOk(w: World) {
    w.poll.Polling? ==>
      && w.poll.call in w.gateway.calls
      && forall k :: 0 <= k < |w.log| && w.log[k].Polled() ==> w.log[k].flight < w.gateway.calls[w.poll.call].floor
  }

  ghost predicate NoDeliveryRetained(log: seq<Entry>) {
    forall k :: 0 <= k < |log| && log[k].Retained? ==> !log[k].event.Deliver?
  }

  ghost predicate Inv(w: World) {
    && Collector.Inv(w.gateway)
    && (forall k :: 0 <= k < |w.log| ==> Recorded(w.gateway, w.log[k]))
    && Ordered(w.log) && PollOk(w) && NoDeliveryRetained(w.log)
  }

  lemma RecordedFollows(st: Collector.State, st': Collector.State, e: Entry)
    requires Recorded(st, e) && Collector.Follows(st, st')
    ensures Recorded(st', e)
  {
    hide Collector.HasSnapshot;
    if e.Polled() {
      assert Collector.TaskFollows(st.clock, st.tasks[e.flight], st'.tasks[e.flight]);
    }
  }

  lemma GatewayKeeps(w: World, step: Collector.Step, poll: Poll)
    requires Inv(w)
    requires poll == w.poll || (step.Arrive? && step.call !in w.gateway.calls && poll == Polling(step.call))
    ensures Inv(World(Collector.Take(w.gateway, step), poll, w.log))
  {
    var st' := Collector.Take(w.gateway, step);
    Collector.TakeKeeps(w.gateway, step);
    Collector.TakeFollows(w.gateway, step);
    assert step.Arrive? && step.call !in w.gateway.calls ==> step.call in st'.calls;
    hide Collector.Inv;
    hide Collector.Take;
    forall k | 0 <= k < |w.log| ensures Recorded(st', w.log[k]) {
      RecordedFollows(w.gateway, st', w.log[k]);
    }
    assert PollOk(World(st', poll, w.log)) by {
      hide Collector.TaskFollows;
    }
  }

  lemma HandOverKeeps(w: World, reaches: bool)
    requires Inv(w)
    ensures Inv(Take(w, HandOver(reaches)))
  {
    if w.poll.Polling? && w.gateway.calls[w.poll.call].Returned? {
      var call := w.gateway.calls[w.poll.call];
      assert Collector.CallOk(w.gateway, call);
      hide Collector.Inv;
      var e := if reaches then Reached(call.flight, call.snapshot) else Missed(call.flight, call.snapshot);
      assert Recorded(w.gateway, e);
      var log := w.log + [e];
      assert Ordered(log);
    }
  }

  lemma TakeKeeps(w: World, step: Step)
    requires Inv(w)
    ensures Inv(Take(w, step))
  {
    match step
    case Gateway(g) => GatewayKeeps(w, g, w.poll);
    case Ask(c) =>
      if w.poll.Idle? && c !in w.gateway.calls {
        GatewayKeeps(w, Collector.Arrive(c), Polling(c));
      }
    case HandOver(reaches) => HandOverKeeps(w, reaches);
    case GiveUp =>
    case Retain(e) => hide Collector.Inv; hide Recorded;
  }

  lemma {:induction false} RunKeeps(ttl: nat, start: Millis64, steps: seq<Step>)
    ensures Inv(Run(ttl, start, steps)) && Run(ttl, start, steps).gateway.ttl == ttl
  {
    if steps != [] {
      RunKeeps(ttl, start, steps[..|steps| - 1]);
      TakeKeeps(Run(ttl, start, steps[..|steps| - 1]), steps[|steps| - 1]);
      TtlStays(Run(ttl, start, steps[..|steps| - 1]), steps[|steps| - 1]);
      hide Take;
      hide Inv;
    }
  }

  lemma TtlStays(w: World, step: Step)
    ensures Take(w, step).gateway.ttl == w.gateway.ttl
  {
    hide Collector.Take;
    if step.Gateway? {
      Collector.TtlStays(w.gateway, step.step);
    } else if step.Ask? {
      Collector.TtlStays(w.gateway, Collector.Arrive(step.call));
    }
  }

  // ---------- the poller hands over an in-order sequence ----------

  /** Of two snapshots handed over, the later is the same collection, or one that started more than the time to live
      after the earlier completed. */
  lemma PolledSnapshotsAreSpaced(w: World, a: nat, b: nat)
    requires Inv(w) && a < b < |w.log| && w.log[a].Polled() && w.log[b].Polled()
    ensures w.log[a].flight == w.log[b].flight ==> w.log[a].snapshot == w.log[b].snapshot
    ensures w.log[a].flight != w.log[b].flight ==>
              && w.log[a].snapshot.completedAtMs + w.gateway.ttl < w.log[b].snapshot.startedAtMs
              && w.log[a].snapshot.collectionId != w.log[b].snapshot.collectionId
  {
    assert Recorded(w.gateway, w.log[a]) && Recorded(w.gateway, w.log[b]);
    if w.log[a].flight < w.log[b].flight {
      Collector.FlightsAreSpaced(w.gateway, w.log[a].flight, w.log[b].flight);
    }
    hide Collector.Inv;
  }

  /** Every delivery that remains is a recorded one. */
  ghost predicate DeliveriesFrom(log: seq<Entry>, es: seq<Event>) {
    forall k :: 0 <= k < |es| && es[k].Deliver? ==>
      exists j :: 0 <= j < |log| && log[j].Reached? && log[j].snapshot == es[k].snapshot
  }

  lemma ReachedTimed(w: World, k: nat)
    requires Inv(w) && k < |w.log| && w.log[k].Polled()
    ensures Timed(w.log[k].snapshot)
    ensures w.log[k].snapshot.startedAtMs <= w.log[k].snapshot.completedAtMs <= w.gateway.clock
  {
    assert Recorded(w.gateway, w.log[k]);
    assert Collector.TaskTimed(w.gateway, w.log[k].flight);
  }

  lemma {:induction false} RepeatsRemovedInOrder(w: World, n: nat)
    requires Inv(w) && n <= |w.log|
    ensures InOrder(WithoutRepeats(w.log[..n])) && DeliveriesFrom(w.log[..n], WithoutRepeats(w.log[..n]))
  {
    hide Inv;
    if n > 0 {
      RepeatsRemovedInOrder(w, n - 1);
      LogComesAfter(w, n - 1);
      hide InOrder;
      hide ComesAfter;
      hide DeliveriesFrom;
      hide WithoutRepeats;
      ExtendInOrder(w.log[..n - 1], w.log[n - 1]);
      assert w.log[..n] == w.log[..n - 1] + [w.log[n - 1]];
    }
  }

  lemma LogComesAfter(w: World, n: nat)
    requires Inv(w) && n < |w.log|
    ensures ComesAfter(w.log[..n], w.log[n])
    ensures w.log[n].Retained? ==> !w.log[n].event.Deliver?
  {
    if w.log[n].Reached? {
      ReachedTimed(w, n);
    }
    forall j | 0 <= j < n && w.log[j].Reached? && w.log[n].Reached? && w.log[j].flight != w.log[n].flight
      ensures w.log[j].snapshot.completedAtMs < w.log[n].snapshot.startedAtMs
              && w.log[j].snapshot.collectionId != w.log[n].snapshot.collectionId
    {
      PolledSnapshotsAreSpaced(w, j, n);
    }
    hide Collector.Inv;
    hide Recorded;
    hide Timed;
  }

  lemma AppendInOrder(es: seq<Event>, e: Event)
    requires InOrder(es)
    requires e.Deliver? ==> Timed(e.snapshot)
    requires e.Deliver? ==> forall k :: 0 <= k < |es| && es[k].Deliver? ==>
               && es[k].snapshot.completedAtMs < e.snapshot.startedAtMs
               && es[k].snapshot.collectionId != e.snapshot.collectionId
    ensures InOrder(es + [e])
  {
    hide Timed;
  }

  lemma DeliveriesStay(front: seq<Entry>, e: Entry, es: seq<Event>)
    requires DeliveriesFrom(front, es)
    ensures DeliveriesFrom(front + [e], es)
    ensures e.Reached? ==> DeliveriesFrom(front + [e], es + [Deliver(e.snapshot)])
    ensures e.Retained? && !e.event.Deliver? ==> DeliveriesFrom(front + [e], es + [e.event])
  {
    var log := front + [e];
    assert log[|front|] == e;
    forall k | 0 <= k < |es| && es[k].Deliver?
      ensures exists j :: 0 <= j < |log| && log[j].Reached? && log[j].snapshot == es[k].snapshot
    {
      var j :| 0 <= j < |front| && front[j].Reached? && front[j].snapshot == es[k].snapshot;
      assert log[j] == front[j];
    }
  }

  lemma WithoutRepeatsStep(front: seq<Entry>, e: Entry)
    ensures WithoutRepeats(front + [e])
            == WithoutRepeats(front) + NewEvents(front, e)
  {
    hide NewEvents;
    assert (front + [e])[..|front|] == front;
  }

  /** The snapshot comes after everything delivered so far. */
  ghost predicate ComesAfter(front: seq<Entry>, e: Entry) {
    e.Reached? ==>
      && Timed(e.snapshot)
      && forall j :: 0 <= j < |front| && front[j].Reached? && front[j].flight != e.flight ==>
           && front[j].snapshot.completedAtMs < e.snapshot.startedAtMs
           && front[j].snapshot.collectionId != e.snapshot.collectionId
  }

  lemma NewDelivery(front: seq<Entry>, e: Entry, before: seq<Event>)
    requires InOrder(before) && DeliveriesFrom(front, before) && ComesAfter(front, e) && e.Reached?
             && !Known(front, e.flight)
    ensures InOrder(before + [Deliver(e.snapshot)])
  {
    hide Timed;
    hide InOrder;
    forall k | 0 <= k < |before| && before[k].Deliver?
      ensures before[k].snapshot.completedAtMs < e.snapshot.startedAtMs
              && before[k].snapshot.collectionId != e.snapshot.collectionId
    {
      var j :| 0 <= j < |front| && front[j].Reached? && front[j].snapshot == before[k].snapshot;
    }
    AppendInOrder(before, Deliver(e.snapshot));
  }

  lemma ExtendInOrder(front: seq<Entry>, e: Entry)
    requires InOrder(WithoutRepeats(front)) && DeliveriesFrom(front, WithoutRepeats(front))
    requires e.Retained? ==> !e.event.Deliver?
    requires ComesAfter(front, e)
    ensures InOrder(WithoutRepeats(front + [e])) && DeliveriesFrom(front + [e], WithoutRepeats(front + [e]))
  {
    var before := WithoutRepeats(front);
    WithoutRepeatsStep(front, e);
    DeliveriesStay(front, e, before);
    hide InOrder;
    hide DeliveriesFrom;
    hide WithoutRepeats;
    hide ComesAfter;
    hide Known;
    if e.Reached? && !Known(front, e.flight) {
      NewDelivery(front, e, before);
    } else if e.Retained? {
      AppendInOrder(before, e.event);
    } else {
      assert before + [] == before;
    }
  }

  // ---------- repeats have no effect ----------

  lemma {:induction false} EventOfEntry(log: seq<Entry>, k: nat) returns (i: nat)
    requires k < |log| && log[k].Reached?
    ensures i < |EventsOf(log)| && EventsOf(log)[i] == Deliver(log[k].snapshot)
  {
    if k == |log| - 1 {
      i := |EventsOf(log[..|log| - 1])|;
    } else {
      i := EventOfEntry(log[..|log| - 1], k);
    }
  }

  lemma {:induction false} RepeatsHaveNoEffect(db: Db, w: World, n: nat)
    requires Inv(w) && n <= |w.log|
    ensures Exec(db, EventsOf(w.log[..n])) == Exec(db, WithoutRepeats(w.log[..n]))
  {
    hide Inv;
    hide Exec;
    if n > 0 {
      var front, e := w.log[..n - 1], w.log[n - 1];
      RepeatsHaveNoEffect(db, w, n - 1);
      assert w.log[..n] == front + [e];
      WithoutRepeatsStep(front, e);
      assert (front + [e])[..|front|] == front;
      assert EventsOf(front + [e]) == EventsOf(front) + EventOf(e);
      if e.Reached? && Known(front, e.flight) {
        RepeatHasNoEffect(db, w, n - 1);
        assert WithoutRepeats(front) + [] == WithoutRepeats(front);
      } else {
        ExecMore(db, EventsOf(front), WithoutRepeats(front), EventOf(e));
      }
    }
  }

  lemma RepeatHasNoEffect(db: Db, w: World, n: nat)
    requires Inv(w) && n < |w.log| && w.log[n].Reached? && Known(w.log[..n], w.log[n].flight)
    ensures Exec(db, EventsOf(w.log[..n]) + EventOf(w.log[n])) == Exec(db, EventsOf(w.log[..n]))
  {
    var front := w.log[..n];
    var k :| 0 <= k < |front| && front[k].Reached? && front[k].flight == w.log[n].flight;
    PolledSnapshotsAreSpaced(w, k, n);
    hide Inv;
    hide Exec;
    hide Apply;
    var i := EventOfEntry(front, k);
    IngestDuplicates.RedeliveryHasNoEffect(db, EventsOf(front), i);
    ExecStep(db, EventsOf(front), Deliver(w.log[n].snapshot));
  }

  lemma ExecMore(db: Db, es: seq<Event>, fs: seq<Event>, more: seq<Event>)
    requires Exec(db, es) == Exec(db, fs) && |more| <= 1
    ensures Exec(db, es + more) == Exec(db, fs + more)
  {
    hide Exec;
    hide Apply;
    if more == [] {
      assert es + more == es && fs + more == fs;
    } else {
      assert more == [more[0]];
      ExecStep(db, es, more[0]);
      ExecStep(db, fs, more[0]);
    }
  }

  // ---------- from what was there before ----------

  /** The ids of the delivered collections are new to the database. */
  ghost predicate NewIds(db: Db, log: seq<Entry>) {
    forall k :: 0 <= k < |log| && log[k].Reached? ==> log[k].snapshot.collectionId !in db.runs
  }

  lemma {:induction false} RunSince(ttl: nat, start: Millis64, steps: seq<Step>)
    ensures Collector.Since(Run(ttl, start, steps).gateway, start)
  {
    if steps != [] {
      var w, step := Run(ttl, start, steps[..|steps| - 1]), steps[|steps| - 1];
      RunSince(ttl, start, steps[..|steps| - 1]);
      hide Collector.Take;
      hide Collector.Since;
      if step.Gateway? {
        Collector.TakeSince(w.gateway, step.step, start);
      } else if step.Ask? {
        Collector.TakeSince(w.gateway, Collector.Arrive(step.call), start);
      }
    }
  }

  lemma ReachedSince(w: World, start: nat, k: nat)
    requires Inv(w) && Collector.Since(w.gateway, start) && k < |w.log| && w.log[k].Polled()
    ensures start <= w.log[k].snapshot.startedAtMs
  {
    assert Recorded(w.gateway, w.log[k]);
    assert Collector.BegunSince(w.gateway.tasks[w.log[k].flight], start);
  }

  /** The database continues with the deliveries of the run. */
  lemma DeliveriesContinue(db: Db, w: World, start: nat)
    requires Inv(w) && Collector.Since(w.gateway, start) && NewIds(db, w.log)
    ensures Continues(db, start, WithoutRepeats(w.log))
  {
    assert w.log[..|w.log|] == w.log;
    RepeatsRemovedInOrder(w, |w.log|);
    hide InOrder;
    hide Inv;
    hide WithoutRepeats;
    var es := WithoutRepeats(w.log);
    forall k | 0 <= k < |es| && es[k].Deliver?
      ensures start <= es[k].snapshot.startedAtMs && es[k].snapshot.collectionId !in db.runs
    {
      var j: nat :| j < |w.log| && w.log[j].Reached? && w.log[j].snapshot == es[k].snapshot;
      ReachedSince(w, start, j);
    }
  }

  // ---------- the theorems ----------

  /** During one gateway lifetime, from whatever tables it starts, and whatever other clients, lost requests, repeated
      answers, failures and retention do: the visible tables are the simple fold of the distinct snapshots the poller
      delivered. What is on record then is settled for a gateway that comes up later. */
  lemma TablesAreTheFold(db: Db, ttl: nat, start: Millis64, steps: seq<Step>)
    requires Settled(db, start) && NewIds(db, Run(ttl, start, steps).log)
    ensures var w := Run(ttl, start, steps);
            && InOrder(WithoutRepeats(w.log)) && Continues(db, start, WithoutRepeats(w.log))
            && Exec(db, EventsOf(w.log)) == Exec(db, WithoutRepeats(w.log))
            && ViewOf(Exec(db, EventsOf(w.log))) == FoldFrom(ViewOf(db), WithoutRepeats(w.log))
            && Settled(Exec(db, EventsOf(w.log)), w.gateway.clock + 1)
  {
    RunKeeps(ttl, start, steps);
    RunSince(ttl, start, steps);
    hide Run;
    var w := Run(ttl, start, steps);
    assert w.log[..|w.log|] == w.log;
    RepeatsRemovedInOrder(w, |w.log|);
    RepeatsHaveNoEffect(db, w, |w.log|);
    DeliveriesContinue(db, w, start);
    InOrderRefinesFold(db, start, WithoutRepeats(w.log));
    RunSettles(db, w, start);
  }

  lemma RunSettles(db: Db, w: World, start: nat)
    requires Inv(w) && Collector.Since(w.gateway, start) && Settled(db, start)
    requires InOrder(WithoutRepeats(w.log)) && Continues(db, start, WithoutRepeats(w.log))
    ensures Settled(Exec(db, WithoutRepeats(w.log)), w.gateway.clock + 1)
  {
    hide Exec;
    hide Settled;
    hide WithoutRepeats;
    hide Inv;
    hide InOrder;
    hide Continues;
    hide Timed;
    var es := WithoutRepeats(w.log);
    assert w.log[..|w.log|] == w.log;
    RepeatsRemovedInOrder(w, |w.log|);
    var horizon := HistoryHorizon(db, start, es);
    if horizon != start {
      var k :| 0 <= k < |es| && es[k].Deliver? && horizon == es[k].snapshot.completedAtMs + 1;
      var j: nat :| j < |w.log| && w.log[j].Reached? && w.log[j].snapshot == es[k].snapshot;
      ReachedTimed(w, j);
    }
    SettledLonger(Exec(db, es), horizon, w.gateway.clock + 1);
  }

  lemma NoOrphansEver(db: Db, ttl: nat, start: Millis64, steps: seq<Step>, id: Uuid)
    requires Settled(db, start) && NewIds(db, Run(ttl, start, steps).log) && NoOrphans(ViewOf(db))
    ensures var after := Exec(db, EventsOf(Run(ttl, start, steps).log));
            id in after.instances && after.instances[id].active ==>
              after.instances[id].machineId in after.machines && after.machines[after.instances[id].machineId].active
  {
    TablesAreTheFold(db, ttl, start, steps);
    hide Run;
    hide ViewOf;
    hide InOrder;
    hide Continues;
    hide Settled;
    hide NoOrphans;
    var es := WithoutRepeats(Run(ttl, start, steps).log);
    var after := Exec(db, es);
    hide Exec;
    if id in after.instances && after.instances[id].active {
      ActiveInstancesHaveActiveMachines(db, start, es, id);
    }
  }

  /** The earlier collections were complete before `start`, and the later ones have other ids. */
  ghost predicate Precedes(earlier: seq<Event>, start: nat, log: seq<Entry>) {
    forall k :: 0 <= k < |earlier| && earlier[k].Deliver? ==>
      && earlier[k].snapshot.completedAtMs < start
      && forall j :: 0 <= j < |log| && log[j].Reached? ==>
           log[j].snapshot.collectionId != earlier[k].snapshot.collectionId
  }

  lemma OneHistory(earlier: seq<Event>, w: World, start: nat)
    requires Inv(w) && Collector.Since(w.gateway, start) && InOrder(earlier) && Precedes(earlier, start, w.log)
    ensures InOrder(earlier + WithoutRepeats(w.log))
  {
    assert w.log[..|w.log|] == w.log;
    RepeatsRemovedInOrder(w, |w.log|);
    hide Inv;
    hide WithoutRepeats;
    hide Timed;
    var later := WithoutRepeats(w.log);
    var es := earlier + later;
    forall a, b | 0 <= a < b < |es| && es[a].Deliver? && es[b].Deliver?
      ensures es[a].snapshot.completedAtMs < es[b].snapshot.startedAtMs
              && es[a].snapshot.collectionId != es[b].snapshot.collectionId
    {
      if a < |earlier| <= b {
        assert later[b - |earlier|] == es[b];
        var j: nat :| j < |w.log| && w.log[j].Reached? && w.log[j].snapshot == es[b].snapshot;
        ReachedSince(w, start, j);
      } else if b < |earlier| {
        assert earlier[a] == es[a] && earlier[b] == es[b];
      } else {
        assert later[a - |earlier|] == es[a] && later[b - |earlier|] == es[b];
      }
    }
  }

  lemma {:induction false} ExecConcat(db: Db, es: seq<Event>, more: seq<Event>)
    ensures Exec(db, es + more) == Exec(Exec(db, es), more)
  {
    hide Apply;
    if more == [] {
      assert es + more == es;
    } else {
      var front, e := more[..|more| - 1], more[|more| - 1];
      ExecConcat(db, es, front);
      assert es + more == (es + front) + [e];
      ExecStep(db, es + front, e);
    }
  }

  /** Likewise, after an earlier in-order history, every peer link is the last known good one of the whole history. */
  lemma PeersAreLastKnownGood(earlier: seq<Event>, ttl: nat, start: Millis64, steps: seq<Step>, id: Uuid, d: PeerId)
    requires InOrder(earlier) && Precedes(earlier, start, Run(ttl, start, steps).log)
    requires PeerHistory.OncePerSnapshot(earlier + WithoutRepeats(Run(ttl, start, steps).log))
    ensures var w := Run(ttl, start, steps);
            PeerHistory.LastKnownGood(PeerHistory.Sightings(earlier + WithoutRepeats(w.log), id), d,
                                      PeerHistory.RowAt(Exec(Exec(EMPTY, earlier), EventsOf(w.log)).peers, (id, d)))
  {
    RunKeeps(ttl, start, steps);
    RunSince(ttl, start, steps);
    hide Run;
    var w := Run(ttl, start, steps);
    var db := Exec(EMPTY, earlier);
    hide Exec;
    hide InOrder;
    hide PeerHistory.OncePerSnapshot;
    OneHistory(earlier, w, start);
    assert w.log[..|w.log|] == w.log;
    RepeatsHaveNoEffect(db, w, |w.log|);
    ExecConcat(EMPTY, earlier, WithoutRepeats(w.log));
    PeerHistory.InOrderPeersAreLastKnownGood(earlier + WithoutRepeats(w.log), id, d);
  }

  /** Any two distinct collections the poller hands over are more than the time to live apart. */
  lemma HandedOverCollectionsAreSpaced(ttl: nat, start: Millis64, steps: seq<Step>, a: nat, b: nat)
    requires a < b < |Run(ttl, start, steps).log| && Run(ttl, start, steps).log[a].Polled()
             && Run(ttl, start, steps).log[b].Polled()
    ensures var s, t := Run(ttl, start, steps).log[a].snapshot, Run(ttl, start, steps).log[b].snapshot;
            s == t || (s.completedAtMs + ttl < t.startedAtMs && s.completedAtMs < t.completedAtMs
                       && s.collectionId != t.collectionId)
  {
    RunKeeps(ttl, start, steps);
    hide Run;
    PolledSnapshotsAreSpaced(Run(ttl, start, steps), a, b);
    ReachedTimed(Run(ttl, start, steps), b);
  }
}
