/** In-order delivery, as the serial poller produces it: the active machines and instances are a simple fold of the
    snapshots (controller/internal/ingest/store.go:92-117, 346-422). */
module IngestInOrder {
  import opened Wrappers
  import opened Topology
  import opened Tables

  /** What an operator sees: the active machines, and the active instances with their machine. */
  datatype View = View(machines: set<Uuid>, instances: map<Uuid, Uuid>)

  ghost function ViewOf(db: Db): View {
    View(set id | id in db.machines && db.machines[id].active,
         map id | id in db.instances && db.instances[id].active :: db.instances[id].machineId)
  }

  // ---------- the fold ----------

  datatype Claim = Claim(observedAt: nat, owner: Uuid)

  function LatestIn(best: Option<Claim>, owner: Uuid, xs: seq<Instance>, id: Uuid): Option<Claim> {
    if xs == [] then best
    else
      var b, x := LatestIn(best, owner, xs[..|xs| - 1], id), xs[|xs| - 1];
      if x.instanceId == id && (b.None? || b.value.observedAt < x.observedAtMs)
      then Some(Claim(x.observedAtMs, owner)) else b
  }

  /** The machine whose listing of `id` was observed last; the first of equals; `None` if nobody lists it. */
  function LatestClaim(ms: seq<Machine>, id: Uuid): Option<Claim> {
    if ms == [] then None
    else LatestIn(LatestClaim(ms[..|ms| - 1], id), ms[|ms| - 1].Id(), ms[|ms| - 1].instances, id)
  }

  /** Some entry of the machine enumerates its instances successfully. */
  ghost predicate Enumerates(ms: seq<Machine>, owner: Uuid) {
    exists m :: m in ms && m.Id() == owner && !HasOperationError(m.errors, LIST_INSTANCES)
  }

  /** An instance that the snapshot does not list stays visible: its machine is listed and could not enumerate, or
      is not listed while the collection reports top-level errors. */
  ghost predicate Kept(s: Snapshot, owner: Uuid) {
    !Enumerates(s.machines, owner) && (owner in Ids(s.machines) || s.errors != [])
  }

  ghost function NextView(v: View, s: Snapshot): View {
    View(if s.errors == [] then Ids(s.machines) else v.machines + Ids(s.machines),
         map id | id in v.instances.Keys + InstanceIds(FlatInstances(s.machines))
                  && (LatestClaim(s.machines, id).Some? || (id in v.instances && Kept(s, v.instances[id])))
           :: if LatestClaim(s.machines, id).Some? then LatestClaim(s.machines, id).value.owner else v.instances[id])
  }

  /** What is visible after a history that begins with the view `v`. */
  ghost function FoldFrom(v: View, es: seq<Event>): View {
    if es == [] then v
    else
      var before := FoldFrom(v, es[..|es| - 1]);
      match es[|es| - 1]
      case Deliver(s) => if Valid(s) && Storable(s) then NextView(before, s) else before
      case _ => before
  }

  ghost function FoldView(es: seq<Event>): View { FoldFrom(View({}, map[]), es) }

  // ---------- in-order histories ----------

  ghost predicate InOrder(es: seq<Event>) {
    && (forall a :: 0 <= a < |es| && es[a].Deliver? ==> Timed(es[a].snapshot))
    && (forall a, b :: 0 <= a < b < |es| && es[a].Deliver? && es[b].Deliver? ==>
          && es[a].snapshot.completedAtMs < es[b].snapshot.startedAtMs
          && es[a].snapshot.collectionId != es[b].snapshot.collectionId)
  }

  /** The deliveries start at the horizon or later, and the database does not know their ids. */
  ghost predicate Continues(db: Db, horizon: nat, es: seq<Event>) {
    forall k :: 0 <= k < |es| && es[k].Deliver? ==>
      horizon <= es[k].snapshot.startedAtMs && es[k].snapshot.collectionId !in db.runs
  }

  /** All observations and completions on record lie before `horizon`. */
  ghost predicate Settled(db: Db, horizon: nat) {
    && (forall id :: id in db.machines ==>
        db.machines[id].observedAt < horizon && db.machines[id].completedAt < horizon)
    && SettledInstances(db.instances, horizon)
  }

  ghost predicate SettledInstances(t: InstanceTable, horizon: nat) {
    forall id :: id in t ==> t[id].observedAt < horizon && t[id].completedAt < horizon
  }

  lemma SettledLonger(db: Db, horizon: nat, later: nat)
    requires Settled(db, horizon) && horizon <= later
    ensures Settled(db, later)
  {
  }

  // ---------- machines ----------

  lemma {:induction false} UpsertMachinesFresh(t: MachineTable, at: Stamp, ms: seq<Machine>, horizon: nat, id: Uuid)
    requires forall k :: k in t ==> t[k].observedAt < horizon && t[k].completedAt < horizon
    requires forall m :: m in ms ==> horizon <= m.observedAtMs <= at.completedAt
    ensures id in UpsertMachines(t, at, ms) <==> id in t || id in Ids(ms)
    ensures id in Ids(ms) ==>
              var r := UpsertMachines(t, at, ms)[id];
              r.active && r.observedAt <= at.completedAt && r.completedAt == at.completedAt
    ensures id in t && id !in Ids(ms) ==> UpsertMachines(t, at, ms)[id] == t[id]
  {
    if ms != [] {
      var front, m := ms[..|ms| - 1], ms[|ms| - 1];
      UpsertMachinesFresh(t, at, front, horizon, id);
      assert ms == front + [m];
      assert m in ms;
      IdsStep(front, m);
    }
  }

  lemma MachinesView(db: Db, s: Snapshot, horizon: nat)
    requires Settled(db, horizon) && horizon <= s.startedAtMs && Timed(s) && Valid(s)
    ensures (set id | id in MachinesAfter(db.machines, s) && MachinesAfter(db.machines, s)[id].active)
            == NextView(ViewOf(db), s).machines
    ensures forall id :: id in MachinesAfter(db.machines, s) ==>
              MachinesAfter(db.machines, s)[id].observedAt <= s.completedAtMs
              && MachinesAfter(db.machines, s)[id].completedAt <= s.completedAtMs
  {
    var after := MachinesAfter(db.machines, s);
    forall m | m in s.machines ensures horizon <= m.observedAtMs <= s.completedAtMs {
      var k :| 0 <= k < |s.machines| && s.machines[k] == m;
      assert MachineOk(s.machines[k], s.completedAtMs);
    }
    forall id
      ensures id in after && after[id].active <==> id in NextView(ViewOf(db), s).machines
      ensures id in after ==> after[id].observedAt <= s.completedAtMs && after[id].completedAt <= s.completedAtMs
    {
      UpsertMachinesFresh(db.machines, StampOf(s), s.machines, horizon, id);
    }
  }

  // ---------- instances ----------

  /** The state of one instance row while the machines of a snapshot are processed. */
  ghost predicate Progress(t0: InstanceTable, t: InstanceTable, at: Stamp, claim: Option<Claim>, enumerated: bool,
                           id: Uuid) {
    if claim.Some? then
      && id in t && t[id].active && t[id].completedAt == at.completedAt
      && t[id].observedAt == claim.value.observedAt && t[id].machineId == claim.value.owner
    else
      && (id in t <==> id in t0)
      && (id in t0 ==> t[id] == if t0[id].active && enumerated then Deactivated(t0[id], at) else t0[id])
  }

  lemma {:induction false} UpsertInstancesProgress(
      t0: InstanceTable, t: InstanceTable, at: Stamp, claim: Option<Claim>, enumerated: bool,
      owner: Uuid, xs: seq<Instance>, horizon: nat, id: Uuid)
    requires SettledInstances(t0, horizon) && Progress(t0, t, at, claim, enumerated, id)
    requires forall x :: x in xs ==> horizon <= x.observedAtMs
    ensures Progress(t0, UpsertInstances(t, at, owner, xs), at, LatestIn(claim, owner, xs, id), enumerated, id)
  {
    if xs != [] {
      UpsertInstancesProgress(t0, t, at, claim, enumerated, owner, xs[..|xs| - 1], horizon, id);
      assert xs[|xs| - 1] in xs;
    }
  }

  lemma {:induction false} LatestInListed(claim: Option<Claim>, owner: Uuid, xs: seq<Instance>, id: Uuid)
    ensures LatestIn(claim, owner, xs, id).Some? <==> claim.Some? || id in InstanceIds(xs)
    ensures LatestIn(claim, owner, xs, id).Some? ==>
              LatestIn(claim, owner, xs, id).value.owner == owner || LatestIn(claim, owner, xs, id) == claim
  {
    if xs != [] {
      var front, x := xs[..|xs| - 1], xs[|xs| - 1];
      LatestInListed(claim, owner, front, id);
      InstanceIdsStep(front, x);
      assert xs == front + [x];
    }
  }

  /** One machine: its listings claim, and a successful enumeration retires what it no longer lists. */
  lemma MachineProgress(
      t0: InstanceTable, t: InstanceTable, at: Stamp, claim: Option<Claim>, m: Machine, enumerated: Uuid -> bool,
      horizon: nat, id: Uuid)
    requires SettledInstances(t0, horizon) && horizon <= at.completedAt
    requires Progress(t0, t, at, claim, id in t0 && enumerated(t0[id].machineId), id)
    requires forall x :: x in m.instances ==> horizon <= x.observedAtMs
    ensures Progress(t0, InstancesOfMachine(t, at, m), at, LatestIn(claim, m.Id(), m.instances, id),
                     id in t0 && (enumerated(t0[id].machineId)
                                  || (t0[id].machineId == m.Id() && !HasOperationError(m.errors, LIST_INSTANCES))), id)
  {
    UpsertInstancesProgress(t0, t, at, claim, id in t0 && enumerated(t0[id].machineId), m.Id(), m.instances, horizon,
                            id);
    LatestInListed(claim, m.Id(), m.instances, id);
    hide UpsertInstances;
    hide LatestIn;
  }

  lemma {:induction false} MachinesProgress(
      t0: InstanceTable, at: Stamp, ms: seq<Machine>, horizon: nat, id: Uuid)
    requires SettledInstances(t0, horizon) && horizon <= at.completedAt
    requires forall m, x :: m in ms && x in m.instances ==> horizon <= x.observedAtMs
    ensures Progress(t0, InstancesOfMachines(t0, at, ms), at, LatestClaim(ms, id),
                     id in t0 && Enumerates(ms, t0[id].machineId), id)
  {
    if ms != [] {
      var front, m := ms[..|ms| - 1], ms[|ms| - 1];
      assert ms == front + [m];
      MachinesProgress(t0, at, front, horizon, id);
      assert m in ms;
      MachineProgress(t0, InstancesOfMachines(t0, at, front), at, LatestClaim(front, id), m,
                      (owner: Uuid) => Enumerates(front, owner), horizon, id);
      hide Progress;
      hide InstancesOfMachine;
      hide LatestIn;
      if id in t0 {
        var owner := t0[id].machineId;
        assert Enumerates(ms, owner)
          <==> Enumerates(front, owner) || (owner == m.Id() && !HasOperationError(m.errors, LIST_INSTANCES));
      }
    }
  }

  lemma {:induction false} ClaimListed(ms: seq<Machine>, id: Uuid)
    ensures LatestClaim(ms, id).Some? <==> id in InstanceIds(FlatInstances(ms))
    ensures LatestClaim(ms, id).Some? ==> LatestClaim(ms, id).value.owner in Ids(ms)
  {
    if ms != [] {
      var front, m := ms[..|ms| - 1], ms[|ms| - 1];
      ClaimListed(front, id);
      LatestInListed(LatestClaim(front, id), m.Id(), m.instances, id);
      IdsStep(front, m);
      assert ms == front + [m];
      InstanceIdsConcat(FlatInstances(front), m.instances);
    }
  }

  ghost predicate Claims(ms: seq<Machine>, id: Uuid, m: Machine, x: Instance) {
    m in ms && x in m.instances && x.instanceId == id
  }

  lemma {:induction false} LatestInIsLatest(claim: Option<Claim>, owner: Uuid, xs: seq<Instance>, id: Uuid)
    ensures LatestIn(claim, owner, xs, id).Some? ==>
              var latest := LatestIn(claim, owner, xs, id);
              latest == claim
              || exists x :: x in xs && x.instanceId == id && latest.value == Claim(x.observedAtMs, owner)
    ensures claim.Some? ==>
              && LatestIn(claim, owner, xs, id).Some?
              && claim.value.observedAt <= LatestIn(claim, owner, xs, id).value.observedAt
    ensures forall x :: x in xs && x.instanceId == id ==>
              LatestIn(claim, owner, xs, id).Some? && x.observedAtMs <= LatestIn(claim, owner, xs, id).value.observedAt
  {
    if xs != [] {
      LatestInIsLatest(claim, owner, xs[..|xs| - 1], id);
      assert xs == xs[..|xs| - 1] + [xs[|xs| - 1]];
    }
  }

  /** The claim that decides an instance's machine is one of the listings, and none was observed later. */
  lemma {:induction false} LatestClaimIsLatest(ms: seq<Machine>, id: Uuid)
    ensures LatestClaim(ms, id).Some? ==>
              exists m, x :: Claims(ms, id, m, x) && LatestClaim(ms, id).value == Claim(x.observedAtMs, m.Id())
    ensures forall m, x :: Claims(ms, id, m, x) ==>
              LatestClaim(ms, id).Some? && x.observedAtMs <= LatestClaim(ms, id).value.observedAt
  {
    if ms != [] {
      var front, m := ms[..|ms| - 1], ms[|ms| - 1];
      LatestClaimIsLatest(front, id);
      LatestInIsLatest(LatestClaim(front, id), m.Id(), m.instances, id);
      assert ms == front + [m];
      var claim := LatestClaim(ms, id);
      if claim.Some? {
        if claim == LatestClaim(front, id) {
          var m', x :| Claims(front, id, m', x) && claim.value == Claim(x.observedAtMs, m'.Id());
          assert Claims(ms, id, m', x);
        } else {
          var x :| x in m.instances && x.instanceId == id && claim.value == Claim(x.observedAtMs, m.Id());
          assert Claims(ms, id, m, x);
        }
      }
      forall m', x | Claims(ms, id, m', x)
        ensures claim.Some? && x.observedAtMs <= claim.value.observedAt
      {
        if m' in front {
          assert Claims(front, id, m', x);
        }
      }
    }
  }

  lemma InstanceIdsConcat(a: seq<Instance>, b: seq<Instance>)
    ensures InstanceIds(a + b) == InstanceIds(a) + InstanceIds(b)
  {
    forall id | id in InstanceIds(a) ensures id in InstanceIds(a + b) {
      var k :| 0 <= k < |a| && a[k].instanceId == id;
      assert (a + b)[k].instanceId == id;
    }
    forall id | id in InstanceIds(b) ensures id in InstanceIds(a + b) {
      var k :| 0 <= k < |b| && b[k].instanceId == id;
      assert (a + b)[|a| + k].instanceId == id;
    }
  }

  /** One instance row after a whole in-order snapshot. */
  lemma InstanceAfter(t0: InstanceTable, s: Snapshot, horizon: nat, id: Uuid)
    requires SettledInstances(t0, horizon) && horizon <= s.startedAtMs && Timed(s) && Valid(s)
    ensures var t := InstancesAfter(t0, s);
            && (id in t && t[id].active <==>
                  LatestClaim(s.machines, id).Some? || (id in t0 && t0[id].active && Kept(s, t0[id].machineId)))
            && (LatestClaim(s.machines, id).Some? ==>
                id in t && t[id].machineId == LatestClaim(s.machines, id).value.owner)
            && (LatestClaim(s.machines, id).None? && id in t ==> id in t0 && t[id].machineId == t0[id].machineId)
            && (id in t ==> t[id].completedAt <= s.completedAtMs)
            && (id in t && LatestClaim(s.machines, id).None? ==> t[id].observedAt == t0[id].observedAt)
            && (id in t && LatestClaim(s.machines, id).Some? ==>
                t[id].observedAt == LatestClaim(s.machines, id).value.observedAt)
  {
    MachinesProgress(t0, StampOf(s), s.machines, horizon, id);
    ClaimListed(s.machines, id);
    hide InstancesOfMachines;
    hide LatestClaim;
    hide Enumerates;
    hide Timed;
    hide Topology.Valid;
  }

  lemma {:induction false} ClaimObserved(ms: seq<Machine>, id: Uuid, completed: Millis64)
    requires forall k :: 0 <= k < |ms| ==> MachineOk(ms[k], completed)
    ensures LatestClaim(ms, id).Some? ==> LatestClaim(ms, id).value.observedAt <= completed
  {
    if ms != [] {
      var front, m := ms[..|ms| - 1], ms[|ms| - 1];
      ClaimObserved(front, id, completed);
      assert MachineOk(m, completed);
      LatestInObserved(LatestClaim(front, id), m.Id(), m.instances, id, completed);
    }
  }

  lemma {:induction false} LatestInObserved(claim: Option<Claim>, owner: Uuid, xs: seq<Instance>, id: Uuid,
                                            completed: Millis64)
    requires claim.Some? ==> claim.value.observedAt <= completed
    requires forall k :: 0 <= k < |xs| ==> InstanceOk(xs[k], completed)
    ensures LatestIn(claim, owner, xs, id).Some? ==> LatestIn(claim, owner, xs, id).value.observedAt <= completed
  {
    if xs != [] {
      assert InstanceOk(xs[|xs| - 1], completed);
      LatestInObserved(claim, owner, xs[..|xs| - 1], id, completed);
    }
  }

  lemma InstancesView(db: Db, s: Snapshot, horizon: nat)
    requires Settled(db, horizon) && horizon <= s.startedAtMs && Timed(s) && Valid(s)
    ensures var t := InstancesAfter(db.instances, s);
            (map id | id in t && t[id].active :: t[id].machineId) == NextView(ViewOf(db), s).instances
    ensures SettledInstances(InstancesAfter(db.instances, s), s.completedAtMs + 1)
  {
    var t := InstancesAfter(db.instances, s);
    var next := NextView(ViewOf(db), s).instances;
    forall id ensures id in t && t[id].active <==> id in next
              ensures id in t && t[id].active ==> t[id].machineId == next[id]
              ensures id in t ==> t[id].observedAt < s.completedAtMs + 1 && t[id].completedAt < s.completedAtMs + 1
    {
      InstanceAfter(db.instances, s, horizon, id);
      ClaimListed(s.machines, id);
      ClaimObserved(s.machines, id, s.completedAtMs);
      hide InstancesAfter;
      hide LatestClaim;
      hide Kept;
    }
  }

  // ---------- runs ----------

  lemma StepView(db: Db, e: Event, horizon: nat)
    requires Settled(db, horizon)
    requires e.Deliver? ==>
               horizon <= e.snapshot.startedAtMs && Timed(e.snapshot) && e.snapshot.collectionId !in db.runs
    ensures ViewOf(Apply(db, e)) == if e.Deliver? && Valid(e.snapshot) && Storable(e.snapshot)
                                    then NextView(ViewOf(db), e.snapshot) else ViewOf(db)
  {
    ApplyCurrent(db, e);
    AcceptsFresh(db, e);
    hide Apply;
    hide Accepts;
    hide NextView;
    hide Timed;
    hide Tables.Storable;
    if e.Deliver? && Accepts(db, e.snapshot) {
      MachinesView(db, e.snapshot, horizon);
      InstancesView(db, e.snapshot, horizon);
    }
  }

  lemma StepSettles(db: Db, e: Event, horizon: nat)
    requires Settled(db, horizon)
    requires e.Deliver? ==>
               horizon <= e.snapshot.startedAtMs && Timed(e.snapshot) && e.snapshot.collectionId !in db.runs
    ensures e.Deliver? && e.snapshot.startedAtMs <= e.snapshot.completedAtMs ==>
              Settled(Apply(db, e), e.snapshot.completedAtMs + 1)
    ensures !(e.Deliver? && e.snapshot.startedAtMs <= e.snapshot.completedAtMs) ==> Settled(Apply(db, e), horizon)
  {
    ApplyCurrent(db, e);
    AcceptsFresh(db, e);
    hide Apply;
    hide Accepts;
    hide NextView;
    hide Timed;
    hide Tables.Storable;
    if e.Deliver? && Accepts(db, e.snapshot) {
      MachinesView(db, e.snapshot, horizon);
      InstancesView(db, e.snapshot, horizon);
    }
  }

  lemma AcceptsFresh(db: Db, e: Event)
    ensures e.Deliver? && e.snapshot.collectionId !in db.runs ==>
              (Accepts(db, e.snapshot) <==> Valid(e.snapshot) && Storable(e.snapshot))
    ensures e.Deliver? && Accepts(db, e.snapshot) ==> e.snapshot.startedAtMs <= e.snapshot.completedAtMs
  {
    hide Tables.Storable;
  }

  ghost predicate RunsFrom(db: Db, db': Db, es: seq<Event>) {
    forall id :: id in db'.runs ==>
      id in db.runs || exists k :: 0 <= k < |es| && es[k].Deliver? && es[k].snapshot.collectionId == id
  }

  /** A bound below every later start: one more than the last completion that counts. */
  ghost predicate HorizonOf(db: Db, es: seq<Event>, start: nat, horizon: nat) {
    && Settled(db, horizon)
    && (horizon == start || exists k :: 0 <= k < |es| && es[k].Deliver? && horizon == es[k].snapshot.completedAtMs + 1)
  }

  lemma {:induction false} RunsFromHistory(db: Db, es: seq<Event>)
    ensures RunsFrom(db, Exec(db, es), es)
  {
    if es != [] {
      var front, e := es[..|es| - 1], es[|es| - 1];
      RunsFromHistory(db, front);
      ApplyRuns(Exec(db, front), e);
      hide Apply;
      hide Accepts;
      hide RunOf;
      var db' := Exec(db, es);
      forall id | id in db'.runs && id !in db.runs
        ensures exists k :: 0 <= k < |es| && es[k].Deliver? && es[k].snapshot.collectionId == id
      {
        if id in Exec(db, front).runs {
          var k :| 0 <= k < |front| && front[k].Deliver? && front[k].snapshot.collectionId == id;
          assert es[k] == front[k];
        } else {
          assert es[|es| - 1].Deliver? && es[|es| - 1].snapshot.collectionId == id;
        }
      }
    }
  }

  lemma InOrderPrefix(es: seq<Event>)
    requires InOrder(es) && es != []
    ensures InOrder(es[..|es| - 1])
    ensures forall db, start :: Continues(db, start, es) ==> Continues(db, start, es[..|es| - 1])
  {
    var front := es[..|es| - 1];
    assert forall a :: 0 <= a < |front| ==> front[a] == es[a];
  }

  lemma HorizonMore(db: Db, db': Db, es: seq<Event>, start: nat, horizon: nat) returns (horizon': nat)
    requires es != [] && HorizonOf(db, es[..|es| - 1], start, horizon)
    requires var e := es[|es| - 1];
             Settled(db', if e.Deliver? && e.snapshot.startedAtMs <= e.snapshot.completedAtMs
                          then e.snapshot.completedAtMs + 1 else horizon)
    ensures HorizonOf(db', es, start, horizon')
  {
    hide Settled;
    var front, e := es[..|es| - 1], es[|es| - 1];
    horizon' := horizon;
    if e.Deliver? && e.snapshot.startedAtMs <= e.snapshot.completedAtMs {
      horizon' := e.snapshot.completedAtMs + 1;
      assert es[|es| - 1].Deliver?;
    } else if horizon != start {
      var k :| 0 <= k < |front| && front[k].Deliver? && horizon == front[k].snapshot.completedAtMs + 1;
      assert es[k] == front[k];
    }
  }

  lemma {:induction false} HistoryHorizon(db: Db, start: nat, es: seq<Event>) returns (horizon: nat)
    requires Settled(db, start) && InOrder(es) && Continues(db, start, es)
    ensures HorizonOf(Exec(db, es), es, start, horizon)
  {
    if es == [] {
      horizon := start;
    } else {
      var front, e := es[..|es| - 1], es[|es| - 1];
      InOrderPrefix(es);
      horizon := HistoryHorizon(db, start, front);
      NextHorizon(db, start, es, horizon);
      hide InOrder;
      hide Continues;
      hide Apply;
      hide Settled;
      hide Timed;
      StepSettles(Exec(db, front), e, horizon);
      hide Exec;
      horizon := HorizonMore(Exec(db, front), Exec(db, es), es, start, horizon);
    }
  }

  /** In every in-order history, whatever it starts from, the tables refine the fold. */
  lemma {:induction false} InOrderRefinesFold(db: Db, start: nat, es: seq<Event>)
    requires Settled(db, start) && InOrder(es) && Continues(db, start, es)
    ensures ViewOf(Exec(db, es)) == FoldFrom(ViewOf(db), es)
  {
    if es != [] {
      InOrderPrefix(es);
      InOrderRefinesFold(db, start, es[..|es| - 1]);
      var horizon := HistoryHorizon(db, start, es[..|es| - 1]);
      NextHorizon(db, start, es, horizon);
      hide InOrder;
      hide Continues;
      hide ViewOf;
      hide Apply;
      hide NextView;
      hide Settled;
      hide Topology.Valid;
      hide Tables.Storable;
      hide Timed;
      StepView(Exec(db, es[..|es| - 1]), es[|es| - 1], horizon);
    }
  }

  /** In particular from the empty tables. */
  lemma FoldFromNothing(es: seq<Event>)
    requires InOrder(es)
    ensures ViewOf(Exec(EMPTY, es)) == FoldView(es)
  {
    InOrderRefinesFold(EMPTY, 0, es);
    assert ViewOf(EMPTY) == View({}, map[]);
    hide Exec;
  }

  /** The next delivery starts past the horizon and carries a new collection id. */
  lemma NextHorizon(db: Db, start: nat, es: seq<Event>, horizon: nat)
    requires InOrder(es) && Continues(db, start, es) && es != []
    requires HorizonOf(Exec(db, es[..|es| - 1]), es[..|es| - 1], start, horizon)
    ensures var e := es[|es| - 1];
            e.Deliver? ==> && horizon <= e.snapshot.startedAtMs && Timed(e.snapshot)
                           && e.snapshot.collectionId !in Exec(db, es[..|es| - 1]).runs
  {
    var front, e := es[..|es| - 1], es[|es| - 1];
    RunsFromHistory(db, front);
    hide Exec;
    hide Timed;
    hide Settled;
    assert forall k :: 0 <= k < |front| ==> front[k] == es[k];
    if e.Deliver? {
      if horizon != start {
        var k :| 0 <= k < |front| && front[k].Deliver? && horizon == front[k].snapshot.completedAtMs + 1;
        assert es[k] == front[k];
      }
    }
  }

  ghost predicate NoOrphans(v: View) { forall id :: id in v.instances ==> v.instances[id] in v.machines }

  lemma {:induction false} FoldHasNoOrphans(v: View, es: seq<Event>)
    requires NoOrphans(v)
    ensures NoOrphans(FoldFrom(v, es))
  {
    if es != [] {
      FoldHasNoOrphans(v, es[..|es| - 1]);
      var before := FoldFrom(v, es[..|es| - 1]);
      if es[|es| - 1].Deliver? {
        var s := es[|es| - 1].snapshot;
        forall id | id in NextView(before, s).instances
          ensures NextView(before, s).instances[id] in NextView(before, s).machines
        {
          ClaimListed(s.machines, id);
        }
      }
    }
  }

  /** Hence, in every in-order history, every active instance belongs to an active machine. */
  lemma ActiveInstancesHaveActiveMachines(db: Db, start: nat, es: seq<Event>, id: Uuid)
    requires Settled(db, start) && InOrder(es) && Continues(db, start, es) && NoOrphans(ViewOf(db))
    requires id in Exec(db, es).instances && Exec(db, es).instances[id].active
    ensures Exec(db, es).instances[id].machineId in Exec(db, es).machines
    ensures Exec(db, es).machines[Exec(db, es).instances[id].machineId].active
  {
    InOrderRefinesFold(db, start, es);
    FoldHasNoOrphans(ViewOf(db), es);
    var v := ViewOf(Exec(db, es));
    assert id in v.instances;
    assert v.instances[id] in v.machines;
  }
}
