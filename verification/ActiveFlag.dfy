/** When the final `active` flag of a machine or instance depends on the order of delivery, and when it does not
    (controller/internal/ingest/store.go:92-117, 125-203, 346-422). */
module ActiveFlag {
  import opened Wrappers
  import opened Topology
  import opened Tables
  import opened IngestInvariants
  import opened IngestConvergence

  // ---------- the condition ----------

  predicate Active(t: MachineTable, m: Uuid) { m in t && t[m].active }

  predicate ListsAt(s: Snapshot, m: Uuid, observed: nat) {
    exists x :: x in s.machines && x.Id() == m && x.observedAtMs == observed
  }

  /** No listing of the machine has a greater key (observation, completion) than `b`'s listing at `observed`. */
  ghost predicate Greatest(ss: set<Snapshot>, b: Snapshot, m: Uuid, observed: nat) {
    && b in ss && ListsAt(b, m, observed)
    && forall s, x :: s in ss && x in s.machines && x.Id() == m ==>
         KeyLe(x.observedAtMs, s.completedAtMs, observed, b.completedAtMs)
  }

  /** A complete snapshot without the machine that completed after `b`, or with it while another snapshot made the same
      observation and completed before. */
  ghost predicate Challenges(c: Snapshot, ss: set<Snapshot>, b: Snapshot, m: Uuid, observed: nat) {
    && c in ss && c.errors == [] && m !in Ids(c.machines)
    && (b.completedAtMs < c.completedAtMs
        || (b.completedAtMs == c.completedAtMs
            && exists e :: e in ss && ListsAt(e, m, observed) && e.completedAtMs < b.completedAtMs))
  }

  // ---------- one row ----------

  lemma {:induction false} UpsertsKey(t: MachineTable, at: Stamp, ms: seq<Machine>, m: Uuid)
    ensures var t' := UpsertMachines(t, at, ms);
            && (m in t' <==> m in t || m in Ids(ms))
            && (m in t' && !(m in t && t'[m] == t[m]) ==>
                  && t'[m].active && t'[m].completedAt == at.completedAt
                  && exists x :: x in ms && x.Id() == m && x.observedAtMs == t'[m].observedAt)
            && (m in t' && m in t ==> KeyLe(t[m].observedAt, t[m].completedAt, t'[m].observedAt, t'[m].completedAt))
            && forall x :: x in ms && x.Id() == m ==>
                 m in t' && KeyLe(x.observedAtMs, at.completedAt, t'[m].observedAt, t'[m].completedAt)
  {
    if ms != [] {
      var front, y := ms[..|ms| - 1], ms[|ms| - 1];
      assert ms == front + [y];
      UpsertsKey(t, at, front, m);
      IdsStep(front, y);
    }
  }

  lemma ListedInIds(s: Snapshot, m: Uuid)
    ensures m in Ids(s.machines) <==> exists x :: x in s.machines && x.Id() == m
  {
    if m in Ids(s.machines) {
      var k :| 0 <= k < |s.machines| && s.machines[k].Id() == m;
      assert s.machines[k] in s.machines;
    }
  }

  /** The row of a machine after an accepted snapshot that lists it. */
  lemma ListedRow(t: MachineTable, s: Snapshot, m: Uuid)
    requires m in Ids(s.machines)
    ensures var t' := MachinesAfter(t, s);
            && m in t'
            && (!(m in t && t'[m] == t[m]) ==>
                  t'[m].active && t'[m].completedAt == s.completedAtMs && ListsAt(s, m, t'[m].observedAt))
            && (m in t ==> KeyLe(t[m].observedAt, t[m].completedAt, t'[m].observedAt, t'[m].completedAt))
            && forall x :: x in s.machines && x.Id() == m ==>
                 KeyLe(x.observedAtMs, s.completedAtMs, t'[m].observedAt, t'[m].completedAt)
  {
    UpsertsKey(t, StampOf(s), s.machines, m);
    hide UpsertMachines;
  }

  /** And after one that does not. */
  lemma UnlistedRow(t: MachineTable, s: Snapshot, m: Uuid)
    requires m !in Ids(s.machines)
    ensures var t' := MachinesAfter(t, s);
            && (m in t' <==> m in t)
            && (m in t ==> t'[m].observedAt == t[m].observedAt)
            && (m in t && s.errors == [] && t[m].active && t[m].completedAt < s.completedAtMs ==>
                  !t'[m].active && t'[m].completedAt == s.completedAtMs)
            && (m in t && !(s.errors == [] && t[m].active && t[m].completedAt < s.completedAtMs) ==> t'[m] == t[m])
  {
    UpsertsKey(t, StampOf(s), s.machines, m);
    ListedInIds(s, m);
    hide UpsertMachines;
  }

  // ---------- sufficiency ----------

  /** While nothing challenges `b`: a row with the greatest observation is no later than `b`, active if it is as late,
      and no earlier than some snapshot that made the observation; once `b` is stored the row has its key. */
  ghost predicate RowOk(t: MachineTable, seen: set<Snapshot>, b: Snapshot, m: Uuid, observed: nat) {
    && (m in t ==> t[m].observedAt <= observed)
    && (m in t && t[m].observedAt == observed ==>
          && t[m].completedAt <= b.completedAtMs && (t[m].completedAt == b.completedAtMs ==> t[m].active)
          && exists e :: e in seen && ListsAt(e, m, observed) && e.completedAtMs <= t[m].completedAt)
    && (b in seen ==> m in t && t[m].observedAt == observed && t[m].completedAt == b.completedAtMs)
  }

  lemma RowOkStep(t: MachineTable, seen: set<Snapshot>, ss: set<Snapshot>, s: Snapshot, b: Snapshot, m: Uuid,
                  observed: nat)
    requires RowOk(t, seen, b, m, observed) && seen <= ss && s in ss && Greatest(ss, b, m, observed)
    requires forall c :: !Challenges(c, ss, b, m, observed)
    ensures RowOk(MachinesAfter(t, s), seen + {s}, b, m, observed)
  {
    var t' := MachinesAfter(t, s);
    ListedInIds(s, m);
    if m in Ids(s.machines) {
      ListedRow(t, s, m);
      hide MachinesAfter;
      if !(m in t && t'[m] == t[m]) {
        assert s in seen + {s};
      }
    } else {
      UnlistedRow(t, s, m);
      hide MachinesAfter;
      ListedInIds(b, m);
      assert s != b;
      if m in t && t[m].observedAt == observed {
        var e :| e in seen && ListsAt(e, m, observed) && e.completedAtMs <= t[m].completedAt;
        assert e in ss;
        assert !Challenges(s, ss, b, m, observed);
        assert e in seen + {s};
      }
    }
  }

  lemma {:induction false} HistoryRowOk(es: seq<Event>, ss: set<Snapshot>, b: Snapshot, m: Uuid, observed: nat)
    requires OneIdOneSnapshot(Delivered(es)) && Stored(es) <= ss && Greatest(ss, b, m, observed)
    requires forall c :: !Challenges(c, ss, b, m, observed)
    ensures RowOk(Exec(EMPTY, es).machines, Stored(es), b, m, observed)
  {
    hide Apply;
    hide Accepts;
    hide Greatest;
    hide Challenges;
    if es == [] {
      assert Stored(es) == {};
    } else {
      var front, e := es[..|es| - 1], es[|es| - 1];
      assert es == front + [e];
      StoredStep(front, e);
      HistoryRowOk(front, ss, b, m, observed);
      StoredTable(front, e);
      hide RowOk;
      hide OneIdOneSnapshot;
      hide Stored;
      if e.Deliver? && Accepts(Exec(EMPTY, front), e.snapshot) {
        RowOkStep(Exec(EMPTY, front).machines, Stored(front), ss, e.snapshot, b, m, observed);
      }
    }
  }

  /** One more event: the table and what is stored change together. */
  lemma StoredTable(front: seq<Event>, e: Event)
    requires OneIdOneSnapshot(Delivered(front + [e]))
    ensures var db := Exec(EMPTY, front);
            && Exec(EMPTY, front + [e]).machines
               == (if e.Deliver? && Accepts(db, e.snapshot) then MachinesAfter(db.machines, e.snapshot)
                   else db.machines)
            && Exec(EMPTY, front + [e]).instances
               == (if e.Deliver? && Accepts(db, e.snapshot) then InstancesAfter(db.instances, e.snapshot)
                   else db.instances)
            && Stored(front + [e]) == Stored(front)
               + (if e.Deliver? && Accepts(db, e.snapshot) then {e.snapshot} else {})
  {
    hide Apply;
    hide Accepts;
    hide MachinesAfter;
    hide InstancesAfter;
    StoredStep(front, e);
    assert OneIdOneSnapshot(Delivered(front));
    HistoryLatest(front, 0);
    hide Latest;
    var db := Exec(EMPTY, front);
    ExecStep(EMPTY, front, e);
    ApplyCurrent(db, e);
    assert e.Deliver? ==> OneIdOneSnapshot(Stored(front) + {e.snapshot});
    RunsStep(db, Stored(front), e);
    if e.Deliver? && Accepts(db, e.snapshot) {
      AcceptsStorable(db, e.snapshot);
    }
    hide OneIdOneSnapshot;
    hide RunsAre;
    hide Exec;
  }

  // ---------- necessity ----------

  /** Every one of these snapshots is delivered, and nothing else happens. */
  ghost predicate Delivers(es: seq<Event>, ss: set<Snapshot>) {
    Delivered(es) == ss && forall k :: 0 <= k < |es| ==> es[k].Deliver?
  }

  /** Some order in which to deliver a set of snapshots. */
  ghost function Enumerated(ss: set<Snapshot>): (es: seq<Event>)
    ensures Delivers(es, ss)
  {
    OrderExists(ss);
    var es :| Delivers(es, ss);
    es
  }

  lemma OrderExists(ss: set<Snapshot>)
    ensures exists es :: Delivers(es, ss)
  {
    if ss == {} {
      assert Delivers([], {});
    } else {
      var s :| s in ss;
      OrderExists(ss - {s});
      var es :| Delivers(es, ss - {s});
      DeliveredStep(es, s);
      assert ss - {s} + {s} == ss;
      assert Delivers(es + [Deliver(s)], ss);
    }
  }

  lemma DeliveredStep(es: seq<Event>, s: Snapshot)
    ensures Delivered(es + [Deliver(s)]) == Delivered(es) + {s}
  {
    hide Topology.Valid;
    hide Tables.Storable;
    StoredStep(es, Deliver(s));
  }

  lemma DeliveredConcat(a: seq<Event>, b: seq<Event>)
    ensures Delivered(a + b) == Delivered(a) + Delivered(b)
  {
    forall s | s in Delivered(a) ensures s in Delivered(a + b) {
      var k :| 0 <= k < |a| && a[k].Deliver? && a[k].snapshot == s;
      assert (a + b)[k] == a[k];
    }
    forall s | s in Delivered(b) ensures s in Delivered(a + b) {
      var k :| 0 <= k < |b| && b[k].Deliver? && b[k].snapshot == s;
      assert (a + b)[|a| + k] == b[k];
    }
  }

  /** Nothing that does not list the machine comes after something that does. */
  ghost predicate ListingsLast(es: seq<Event>, m: Uuid) {
    && (forall k :: 0 <= k < |es| ==> es[k].Deliver?)
    && forall j, k :: 0 <= j < k < |es| && m in Ids(es[j].snapshot.machines) ==> m in Ids(es[k].snapshot.machines)
  }

  /** The row is active and shows one of the listings, with its completion. */
  ghost predicate Fresh(t: MachineTable, seen: set<Snapshot>, m: Uuid) {
    m in t ==>
      && t[m].active
      && exists s :: s in seen && ListsAt(s, m, t[m].observedAt) && s.completedAtMs == t[m].completedAt
  }

  lemma FreshStep(t: MachineTable, seen: set<Snapshot>, s: Snapshot, m: Uuid)
    requires Fresh(t, seen, m) && (m in Ids(s.machines) || m !in t)
    ensures Fresh(MachinesAfter(t, s), seen + {s}, m)
  {
    var t' := MachinesAfter(t, s);
    if m in Ids(s.machines) {
      ListedRow(t, s, m);
      hide MachinesAfter;
      if m in t && t'[m] == t[m] {
        var e :| e in seen && ListsAt(e, m, t[m].observedAt) && e.completedAtMs == t[m].completedAt;
        assert e in seen + {s};
      } else {
        assert s in seen + {s};
      }
    } else {
      UnlistedRow(t, s, m);
      hide MachinesAfter;
    }
  }

  /** A machine has a row exactly when some stored snapshot lists it, and no stored listing was observed later. */
  lemma RowExists(es: seq<Event>, m: Uuid)
    requires OneIdOneSnapshot(Delivered(es))
    ensures var t := Exec(EMPTY, es).machines;
            && (m in t <==> exists s :: s in Stored(es) && m in Ids(s.machines))
            && forall s, x :: s in Stored(es) && x in s.machines && x.Id() == m ==>
                 m in t && x.observedAtMs <= t[m].observedAt
  {
    HistoryLatest(es, m);
    hide Exec;
    hide Stored;
    hide OneIdOneSnapshot;
    hide LatestInstance;
    hide LatestNode;
    hide RunsAre;
    var t := Exec(EMPTY, es).machines;
    if s :| s in Stored(es) && m in Ids(s.machines) {
      ListedInIds(s, m);
      var x :| x in s.machines && x.Id() == m;
      assert x in MachinesIn(s.machines, m);
      assert x in MachineSightings(Stored(es), m);
    }
    if m in t {
      var x :| x in MachineSightings(Stored(es), m);
      var s :| s in Stored(es) && x in MachinesIn(s.machines, m);
      ListedInIds(s, m);
    }
    forall s, x | s in Stored(es) && x in s.machines && x.Id() == m
      ensures m in t && x.observedAtMs <= t[m].observedAt
    {
      assert x in MachinesIn(s.machines, m);
      assert x in MachineSightings(Stored(es), m);
    }
  }

  lemma {:induction false} ListingsLastIsFresh(es: seq<Event>, m: Uuid)
    requires OneIdOneSnapshot(Delivered(es)) && ListingsLast(es, m)
    ensures Fresh(Exec(EMPTY, es).machines, Stored(es), m)
  {
    hide Apply;
    hide Accepts;
    if es != [] {
      var front, e := es[..|es| - 1], es[|es| - 1];
      assert es == front + [e];
      DeliveredConcat(front, [e]);
      assert forall k :: 0 <= k < |front| ==> front[k] == es[k];
      ListingsLastIsFresh(front, m);
      StoredTable(front, e);
      RowExists(front, m);
      hide Exec;
      if e.Deliver? && Accepts(Exec(EMPTY, front), e.snapshot) {
        if m !in Ids(e.snapshot.machines) {
          forall s | s in Stored(front) ensures m !in Ids(s.machines) {
            var k :| 0 <= k < |front| && front[k].Deliver? && front[k].snapshot == s;
          }
        }
        hide Stored;
        hide ListingsLast;
        hide Fresh;
        FreshStep(Exec(EMPTY, front).machines, Stored(front), e.snapshot, m);
      }
    }
  }

  /** Snapshots that a validation or constraint would reject are not among these. */
  ghost predicate AllStorable(ss: set<Snapshot>) { forall s :: s in ss ==> Valid(s) && Storable(s) }

  lemma StoredAll(es: seq<Event>, ss: set<Snapshot>)
    requires Delivered(es) == ss && AllStorable(ss)
    ensures Stored(es) == ss
  {
    hide Topology.Valid;
    hide Tables.Storable;
  }

  ghost function Listing(ss: set<Snapshot>, m: Uuid): set<Snapshot> { set s | s in ss && m in Ids(s.machines) }

  /** First what does not list the machine, then what does. */
  ghost function ListingsAfter(ss: set<Snapshot>, m: Uuid): seq<Event> {
    Enumerated(ss - Listing(ss, m)) + Enumerated(Listing(ss, m))
  }

  lemma ListingsAfterIs(ss: set<Snapshot>, m: Uuid)
    requires OneIdOneSnapshot(ss) && AllStorable(ss)
    ensures var es := ListingsAfter(ss, m);
            Delivered(es) == ss && Stored(es) == ss && Fresh(Exec(EMPTY, es).machines, ss, m)
  {
    var a, b := Enumerated(ss - Listing(ss, m)), Enumerated(Listing(ss, m));
    DeliveredConcat(a, b);
    assert Delivered(a + b) == ss;
    StoredAll(a + b, ss);
    forall k | 0 <= k < |a| ensures m !in Ids(a[k].snapshot.machines) {
      assert a[k].snapshot in Delivered(a);
    }
    forall k | 0 <= k < |b| ensures m in Ids(b[k].snapshot.machines) {
      assert b[k].snapshot in Delivered(b);
    }
    hide Enumerated;
    hide Delivered;
    assert ListingsLast(a + b, m);
    ListingsLastIsFresh(a + b, m);
  }

  /** A row that has gone, and that no snapshot to come supersedes, stays gone. */
  lemma {:induction false} StaysGone(es: seq<Event>, more: seq<Event>, m: Uuid, observed: nat, completed: nat)
    requires OneIdOneSnapshot(Delivered(es + more))
    requires var t := Exec(EMPTY, es).machines;
             m in t && !t[m].active && t[m].observedAt == observed && t[m].completedAt == completed
    requires forall s :: s in Delivered(more) ==> m in Ids(s.machines)
    requires forall s, x :: s in Delivered(more) && x in s.machines && x.Id() == m ==>
               KeyLe(x.observedAtMs, s.completedAtMs, observed, completed)
    ensures m in Exec(EMPTY, es + more).machines && Exec(EMPTY, es + more).machines[m] == Exec(EMPTY, es).machines[m]
    decreases |more|
  {
    hide Apply;
    hide Accepts;
    if more == [] {
      assert es + more == es;
    } else {
      var front, e := more[..|more| - 1], more[|more| - 1];
      assert more == front + [e] && es + more == (es + front) + [e];
      DeliveredConcat(front, [e]);
      DeliveredConcat(es + front, [e]);
      StaysGone(es, front, m, observed, completed);
      StoredTable(es + front, e);
      hide Exec;
      if e.Deliver? {
        assert [e][0].snapshot in Delivered([e]);
        ListedRow(Exec(EMPTY, es + front).machines, e.snapshot, m);
        ListedInIds(e.snapshot, m);
        NotSuperseded(Exec(EMPTY, es + front).machines, e.snapshot, m);
      }
    }
  }

  lemma NotSuperseded(t: MachineTable, s: Snapshot, m: Uuid)
    requires m in t && m in Ids(s.machines)
    requires forall x :: x in s.machines && x.Id() == m ==>
               KeyLe(x.observedAtMs, s.completedAtMs, t[m].observedAt, t[m].completedAt)
    ensures m in MachinesAfter(t, s) && MachinesAfter(t, s)[m] == t[m]
  {
    UpsertsKeep(t, StampOf(s), s.machines, m);
    hide UpsertMachines;
  }

  lemma {:induction false} UpsertsKeep(t: MachineTable, at: Stamp, ms: seq<Machine>, m: Uuid)
    requires m in t
    requires forall x :: x in ms && x.Id() == m ==>
               KeyLe(x.observedAtMs, at.completedAt, t[m].observedAt, t[m].completedAt)
    ensures m in UpsertMachines(t, at, ms) && UpsertMachines(t, at, ms)[m] == t[m]
  {
    if ms != [] {
      UpsertsKeep(t, at, ms[..|ms| - 1], m);
      assert ms[|ms| - 1] in ms;
    }
  }

  /** The snapshots that could bring the machine back after the challenger, were they delivered before it. */
  ghost function Rivals(ss: set<Snapshot>, c: Snapshot, b: Snapshot, m: Uuid, observed: nat): set<Snapshot> {
    set s | s in ss && b.completedAtMs == c.completedAtMs && ListsAt(s, m, observed)
      && s.completedAtMs == b.completedAtMs
  }

  lemma Part(ss: set<Snapshot>, part: set<Snapshot>)
    requires part <= ss && OneIdOneSnapshot(ss) && AllStorable(ss)
    ensures OneIdOneSnapshot(part) && AllStorable(part)
  {
    hide Topology.Valid;
    hide Tables.Storable;
  }

  /** Without the challenger and the rivals the greatest observation is still there, and always completed earlier. */
  lemma FirstPart(ss: set<Snapshot>, first: set<Snapshot>, c: Snapshot, b: Snapshot, m: Uuid, observed: nat)
    requires Greatest(ss, b, m, observed) && Challenges(c, ss, b, m, observed)
    requires first == ss - {c} - Rivals(ss, c, b, m, observed)
    ensures exists w :: w in first && ListsAt(w, m, observed)
    ensures forall s, o: nat :: s in first && ListsAt(s, m, o) && observed <= o ==>
              o == observed && s.completedAtMs < c.completedAtMs
  {
    var w := b;
    if c.completedAtMs == b.completedAtMs {
      w :| w in ss && ListsAt(w, m, observed) && w.completedAtMs < b.completedAtMs;
    }
    ListedInIds(w, m);
    assert w in first;
    forall s, o: nat | s in first && ListsAt(s, m, o) && observed <= o
      ensures o == observed && s.completedAtMs < c.completedAtMs
    {
      var y :| y in s.machines && y.Id() == m && y.observedAtMs == o;
      assert KeyLe(y.observedAtMs, s.completedAtMs, observed, b.completedAtMs);
      assert s !in Rivals(ss, c, b, m, observed);
    }
  }

  /** Right before the challenger is delivered: the row is active, has the greatest observation,
      and completed before. */
  lemma BeforeChallenger(first: set<Snapshot>, m: Uuid, observed: nat, completed: nat)
    requires OneIdOneSnapshot(first) && AllStorable(first) && exists w :: w in first && ListsAt(w, m, observed)
    requires forall s, o: nat :: s in first && ListsAt(s, m, o) && observed <= o ==>
               o == observed && s.completedAtMs < completed
    ensures var t := Exec(EMPTY, ListingsAfter(first, m)).machines;
            m in t && t[m].active && t[m].observedAt == observed && t[m].completedAt < completed
  {
    var es := ListingsAfter(first, m);
    ListingsAfterIs(first, m);
    RowExists(es, m);
    hide Exec;
    hide ListingsAfter;
    hide OneIdOneSnapshot;
    hide AllStorable;
    var t := Exec(EMPTY, es).machines;
    var w :| w in first && ListsAt(w, m, observed);
    assert m in t && observed <= t[m].observedAt;
    var s :| s in first && ListsAt(s, m, t[m].observedAt) && s.completedAtMs == t[m].completedAt;
  }

  /** The challenger is stored, and takes the machine away. */
  lemma ChallengerStrikes(es: seq<Event>, c: Snapshot, m: Uuid)
    requires OneIdOneSnapshot(Delivered(es) + {c}) && c !in Stored(es) && Valid(c) && Storable(c)
    requires c.errors == [] && m !in Ids(c.machines)
    requires var t := Exec(EMPTY, es).machines; m in t && t[m].active && t[m].completedAt < c.completedAtMs
    ensures var t, t' := Exec(EMPTY, es).machines, Exec(EMPTY, es + [Deliver(c)]).machines;
            m in t' && !t'[m].active && t'[m].observedAt == t[m].observedAt && t'[m].completedAt == c.completedAtMs
  {
    DeliveredStep(es, c);
    StoredStep(es, Deliver(c));
    StoredTable(es, Deliver(c));
    UnlistedRow(Exec(EMPTY, es).machines, c, m);
    hide Exec;
    hide Accepts;
    hide Stored;
    hide OneIdOneSnapshot;
    hide MachinesAfter;
    hide Tables.Storable;
    hide Topology.Valid;
  }

  lemma RivalsAreBeaten(ss: set<Snapshot>, c: Snapshot, b: Snapshot, m: Uuid, observed: nat)
    requires Greatest(ss, b, m, observed)
    ensures forall s :: s in Rivals(ss, c, b, m, observed) ==> m in Ids(s.machines)
    ensures forall s, x :: s in Rivals(ss, c, b, m, observed) && x in s.machines && x.Id() == m ==>
              KeyLe(x.observedAtMs, s.completedAtMs, observed, c.completedAtMs)
  {
    forall s | s in Rivals(ss, c, b, m, observed) ensures m in Ids(s.machines) {
      ListedInIds(s, m);
    }
  }

  lemma ChallengerHides(ss: set<Snapshot>, c: Snapshot, b: Snapshot, m: Uuid, observed: nat) returns (fs: seq<Event>)
    requires OneIdOneSnapshot(ss) && AllStorable(ss) && Greatest(ss, b, m, observed)
             && Challenges(c, ss, b, m, observed)
    ensures Delivered(fs) == ss && !Active(Exec(EMPTY, fs).machines, m)
  {
    var rivals := Rivals(ss, c, b, m, observed);
    var first := ss - {c} - rivals;
    var es, struck := ListingsAfter(first, m), ListingsAfter(first, m) + [Deliver(c)];
    Part(ss, first);
    Part(ss, first + {c});
    FirstPart(ss, first, c, b, m, observed);
    RivalsAreBeaten(ss, c, b, m, observed);
    assert c !in rivals && rivals <= ss && first + {c} + rivals == ss;
    hide Rivals;
    hide Greatest;
    BeforeChallenger(first, m, observed, c.completedAtMs);
    ListingsAfterIs(first, m);
    hide ListingsAfter;
    hide Exec;
    ChallengerStrikes(es, c, m);
    DeliveredStep(es, c);
    fs := struck + Enumerated(rivals);
    DeliveredConcat(struck, Enumerated(rivals));
    hide Enumerated;
    hide AllStorable;
    hide OneIdOneSnapshot;
    hide Challenges;
    StaysGone(struck, Enumerated(rivals), m, observed, c.completedAtMs);
  }

  // ---------- the theorem ----------

  lemma StoredIsStorable(es: seq<Event>)
    requires OneIdOneSnapshot(Delivered(es))
    ensures AllStorable(Stored(es)) && OneIdOneSnapshot(Stored(es))
  {
    hide Topology.Valid;
    hide Tables.Storable;
  }

  /** Whatever is stored, some order leaves a listed machine active. */
  lemma SomeOrderShows(ss: set<Snapshot>, m: Uuid) returns (fs: seq<Event>)
    requires OneIdOneSnapshot(ss) && AllStorable(ss) && exists s :: s in ss && m in Ids(s.machines)
    ensures Delivered(fs) == ss && Active(Exec(EMPTY, fs).machines, m)
  {
    fs := ListingsAfter(ss, m);
    ListingsAfterIs(ss, m);
    RowExists(fs, m);
    hide Exec;
  }

  ghost predicate ActiveInEveryOrder(es: seq<Event>, m: Uuid) {
    forall fs :: SameDeliveries(es, fs) ==> Active(Exec(EMPTY, fs).machines, m)
  }

  ghost predicate ActiveIsOrderIndependent(es: seq<Event>, m: Uuid) {
    forall fs :: SameDeliveries(es, fs) ==>
      (Active(Exec(EMPTY, fs).machines, m) <==> Active(Exec(EMPTY, es).machines, m))
  }

  /** The exact condition. Let `b` be a stored snapshot whose listing of the machine has the greatest key. The machine
      is active in every history that stores the same snapshots, and its flag is the same in all of them, exactly when
      no stored snapshot challenges `b`. */
  lemma ActiveExactly(es: seq<Event>, b: Snapshot, m: Uuid, observed: nat)
    requires OneIdOneSnapshot(Delivered(es)) && Greatest(Stored(es), b, m, observed)
    ensures ActiveInEveryOrder(es, m) <==> forall c :: !Challenges(c, Stored(es), b, m, observed)
    ensures ActiveIsOrderIndependent(es, m) <==> forall c :: !Challenges(c, Stored(es), b, m, observed)
  {
    var ss := Stored(es);
    StoredIsStorable(es);
    hide Stored;
    if c :| Challenges(c, ss, b, m, observed) {
      var hidden := ChallengerHides(ss, c, b, m, observed);
      ListedInIds(b, m);
      var shown := SomeOrderShows(ss, m);
      StoredAll(hidden, ss);
      StoredAll(shown, ss);
      assert SameDeliveries(es, hidden) && SameDeliveries(es, shown);
    } else {
      forall fs | SameDeliveries(es, fs) ensures Active(Exec(EMPTY, fs).machines, m) {
        HistoryRowOk(fs, ss, b, m, observed);
      }
      assert SameDeliveries(es, es);
    }
  }

  /** In particular, when `b` alone carries the latest observation: the machine is active in every order exactly when no
      complete snapshot without it completed after `b`. */
  lemma ActiveExactlyForLatest(es: seq<Event>, b: Snapshot, m: Uuid, observed: nat)
    requires OneIdOneSnapshot(Delivered(es)) && b in Stored(es) && ListsAt(b, m, observed)
    requires forall x :: x in b.machines && x.Id() == m ==> x.observedAtMs <= observed
    requires forall s, x :: s in Stored(es) && s != b && x in s.machines && x.Id() == m ==> x.observedAtMs < observed
    ensures ActiveInEveryOrder(es, m)
        <==> forall c :: c in Stored(es) && c.errors == [] && m !in Ids(c.machines) ==>
               c.completedAtMs <= b.completedAtMs
  {
    ActiveExactly(es, b, m, observed);
    hide Stored;
    hide ActiveInEveryOrder;
    hide ActiveIsOrderIndependent;
    hide Ids;
    forall e | e in Stored(es) && ListsAt(e, m, observed) ensures e == b {
      var x :| x in e.machines && x.Id() == m && x.observedAtMs == observed;
    }
    if c :| c in Stored(es) && c.errors == [] && m !in Ids(c.machines) && b.completedAtMs < c.completedAtMs {
      assert Challenges(c, Stored(es), b, m, observed);
    }
  }

  /** A stored listing with the greatest key exists as soon as one snapshot lists the machine. */
  lemma GreatestExists(ss: set<Snapshot>, m: Uuid) returns (b: Snapshot, observed: nat)
    requires exists s :: s in ss && m in Ids(s.machines)
    ensures Greatest(ss, b, m, observed)
  {
    var s :| s in ss && m in Ids(s.machines);
    var top := LatestListing(s, s.machines, m);
    b, observed := s, top;
    var rest := ss - {s};
    if exists r :: r in rest && m in Ids(r.machines) {
      var b', observed' := GreatestExists(rest, m);
      if !KeyLe(observed', b'.completedAtMs, top, s.completedAtMs) {
        b, observed := b', observed';
      }
    }
    forall r, x | r in ss && x in r.machines && x.Id() == m
      ensures KeyLe(x.observedAtMs, r.completedAtMs, observed, b.completedAtMs)
    {
      ListedInIds(r, m);
      assert r == s || r in rest;
    }
  }

  lemma {:induction false} LatestListing(s: Snapshot, ms: seq<Machine>, m: Uuid) returns (observed: nat)
    requires m in Ids(ms)
    ensures exists x :: x in ms && x.Id() == m && x.observedAtMs == observed
    ensures forall x :: x in ms && x.Id() == m ==> x.observedAtMs <= observed
  {
    var front, y := ms[..|ms| - 1], ms[|ms| - 1];
    assert ms == front + [y];
    IdsStep(front, y);
    if m in Ids(front) {
      observed := LatestListing(s, front, m);
      if y.Id() == m && observed < y.observedAtMs {
        observed := y.observedAtMs;
      }
    } else {
      observed := y.observedAtMs;
      forall x | x in front ensures x.Id() != m {
        var k :| 0 <= k < |front| && front[k] == x;
      }
    }
  }

  // ---------- instances ----------

  predicate ActiveInstance(t: InstanceTable, id: Uuid) { id in t && t[id].active }

  predicate SeenIn(xs: seq<Instance>, id: Uuid, observed: nat) {
    exists x :: x in xs && x.instanceId == id && x.observedAtMs == observed
  }

  /** The first machine of a snapshot that observed the instance at this moment. */
  function FirstOwner(ms: seq<Machine>, id: Uuid, observed: nat): Option<Uuid> {
    if ms == [] then None
    else
      var first, m := FirstOwner(ms[..|ms| - 1], id, observed), ms[|ms| - 1];
      if first.None? && SeenIn(m.instances, id, observed) then Some(m.Id()) else first
  }

  /** An entry of the machine enumerates its instances, and this is not among them. */
  predicate EnumeratesWithout(m: Machine, id: Uuid, owner: Uuid) {
    m.Id() == owner && !HasOperationError(m.errors, LIST_INSTANCES) && id !in InstanceIds(m.instances)
  }

  /** An entry of the owner does so before any entry of the snapshot observes the instance at this moment. */
  predicate EnumeratesWithoutFirst(ms: seq<Machine>, id: Uuid, observed: nat, owner: Uuid) {
    exists k :: 0 <= k < |ms| && EnumeratesWithout(ms[k], id, owner) && FirstOwner(ms[..k], id, observed).None?
  }

  /** The snapshot says that the machine does not have the instance; or, completely, that there is no such machine, and
      nobody has observed the instance at this moment. */
  predicate Retires(s: Snapshot, id: Uuid, observed: nat, owner: Uuid) {
    || EnumeratesWithoutFirst(s.machines, id, observed, owner)
    || (s.errors == [] && owner !in Ids(s.machines) && FirstOwner(s.machines, id, observed).None?)
  }

  predicate NoneLater(xs: seq<Instance>, id: Uuid, observed: nat) {
    forall x :: x in xs && x.instanceId == id ==> x.observedAtMs <= observed
  }

  predicate NoLater(ms: seq<Machine>, id: Uuid, observed: nat) {
    forall m :: m in ms ==> NoneLater(m.instances, id, observed)
  }

  function Renewed(owner: Uuid, observed: nat, at: Stamp): InstanceRow {
    InstanceRow(owner, true, None, observed, at.completedAt, at.collectionId)
  }

  // ---------- a row that has the observation ----------

  lemma {:induction false} ListingsAct(t: InstanceTable, at: Stamp, m: Uuid, xs: seq<Instance>, id: Uuid)
    requires id in t && NoneLater(xs, id, t[id].observedAt)
    ensures var t' := UpsertInstances(t, at, m, xs);
            id in t' && t'[id] == if t[id].completedAt < at.completedAt && SeenIn(xs, id, t[id].observedAt)
                                  then Renewed(m, t[id].observedAt, at) else t[id]
  {
    if xs != [] {
      var front, x := xs[..|xs| - 1], xs[|xs| - 1];
      assert xs == front + [x] && x in xs;
      ListingsAct(t, at, m, front, id);
    }
  }

  lemma MachineActs(t: InstanceTable, at: Stamp, m: Machine, id: Uuid)
    requires id in t && NoneLater(m.instances, id, t[id].observedAt)
    ensures var r, t' := t[id], InstancesOfMachine(t, at, m);
            id in t' && t'[id] == if at.completedAt <= r.completedAt then r
                                  else if SeenIn(m.instances, id, r.observedAt) then Renewed(m.Id(), r.observedAt, at)
                                  else if r.active && EnumeratesWithout(m, id, r.machineId) then Deactivated(r, at)
                                  else r
  {
    ListingsAct(t, at, m.Id(), m.instances, id);
    hide UpsertInstances;
    hide SeenIn;
    hide NoneLater;
  }

  lemma OneMachineMore(front: seq<Machine>, m: Machine, id: Uuid, observed: nat, owner: Uuid)
    ensures var ms := front + [m];
            && (NoLater(ms, id, observed) <==> NoLater(front, id, observed) && NoneLater(m.instances, id, observed))
            && FirstOwner(ms, id, observed)
               == (if FirstOwner(front, id, observed).None? && SeenIn(m.instances, id, observed)
                   then Some(m.Id()) else FirstOwner(front, id, observed))
            && (EnumeratesWithoutFirst(ms, id, observed, owner)
                <==> EnumeratesWithoutFirst(front, id, observed, owner)
                     || (FirstOwner(front, id, observed).None? && EnumeratesWithout(m, id, owner)))
  {
    var ms := front + [m];
    assert ms[..|front|] == front;
    hide SeenIn;
    hide NoneLater;
    hide EnumeratesWithout;
    assert NoLater(ms, id, observed) ==> m in ms;
    assert forall x :: x in front ==> x in ms;
    hide FirstOwner;
    assert forall k :: 0 <= k < |front| ==> ms[k] == front[k] && ms[..k] == front[..k];
    if EnumeratesWithoutFirst(front, id, observed, owner) {
      var k :| 0 <= k < |front| && EnumeratesWithout(front[k], id, owner) && FirstOwner(front[..k], id, observed).None?;
      assert EnumeratesWithout(ms[k], id, owner);
    }
    if FirstOwner(front, id, observed).None? && EnumeratesWithout(m, id, owner) {
      assert EnumeratesWithout(ms[|front|], id, owner);
    }
  }

  lemma {:induction false} MachinesAct(t: InstanceTable, at: Stamp, ms: seq<Machine>, id: Uuid)
    requires id in t && NoLater(ms, id, t[id].observedAt)
    ensures var r, t' := t[id], InstancesOfMachines(t, at, ms);
            var first := FirstOwner(ms, id, r.observedAt);
            id in t' && t'[id] == if at.completedAt <= r.completedAt then r
                                  else if r.active && EnumeratesWithoutFirst(ms, id, r.observedAt, r.machineId)
                                  then Deactivated(r, at)
                                  else if first.Some? then Renewed(first.value, r.observedAt, at) else r
  {
    if ms != [] {
      var front, m := ms[..|ms| - 1], ms[|ms| - 1];
      assert ms == front + [m];
      OneMachineMore(front, m, id, t[id].observedAt, t[id].machineId);
      hide FirstOwner;
      hide EnumeratesWithoutFirst;
      hide NoLater;
      MachinesAct(t, at, front, id);
      MachineActs(InstancesOfMachines(t, at, front), at, m, id);
      hide InstancesOfMachine;
      hide EnumeratesWithout;
      hide SeenIn;
      hide NoneLater;
    }
  }

  /** A snapshot that observes a known instance no later than its row: if it completed later, it takes an
      active row away when it retires the instance, and otherwise renews the row when it observes the instance
      at the same moment. */
  lemma SnapshotActs(t: InstanceTable, s: Snapshot, id: Uuid)
    requires id in t && NoLater(s.machines, id, t[id].observedAt)
    ensures var r, t' := t[id], InstancesAfter(t, s);
            var first := FirstOwner(s.machines, id, r.observedAt);
            id in t' && t'[id] == if s.completedAtMs <= r.completedAt then r
                                  else if r.active && Retires(s, id, r.observedAt, r.machineId)
                                  then Deactivated(r, StampOf(s))
                                  else if first.Some? then Renewed(first.value, r.observedAt, StampOf(s)) else r
  {
    MachinesAct(t, StampOf(s), s.machines, id);
    hide InstancesOfMachines;
    hide FirstOwner;
    hide EnumeratesWithoutFirst;
    hide NoLater;
  }

  // ---------- a row that does not ----------

  /** The row is older than the observation, unless it is the one with which its first owner renewed it. */
  ghost predicate OlderOr(t: InstanceTable, id: Uuid, observed: nat, first: Option<Uuid>, at: Stamp) {
    if first.Some? then id in t && t[id] == Renewed(first.value, observed, at)
    else id in t ==> t[id].observedAt < observed
  }

  lemma {:induction false} ListingsRenew(t: InstanceTable, at: Stamp, m: Uuid, xs: seq<Instance>, id: Uuid,
                                         observed: nat)
    requires OlderOr(t, id, observed, None, at) && NoneLater(xs, id, observed)
    ensures OlderOr(UpsertInstances(t, at, m, xs), id, observed, if SeenIn(xs, id, observed) then Some(m) else None, at)
  {
    if xs != [] {
      var front, x := xs[..|xs| - 1], xs[|xs| - 1];
      assert xs == front + [x] && x in xs;
      ListingsRenew(t, at, m, front, id, observed);
    }
  }

  lemma {:induction false} MachinesRenew(t: InstanceTable, at: Stamp, ms: seq<Machine>, id: Uuid, observed: nat)
    requires OlderOr(t, id, observed, None, at) && NoLater(ms, id, observed)
    ensures OlderOr(InstancesOfMachines(t, at, ms), id, observed, FirstOwner(ms, id, observed), at)
  {
    if ms != [] {
      var front, m := ms[..|ms| - 1], ms[|ms| - 1];
      assert ms == front + [m];
      OneMachineMore(front, m, id, observed, 0);
      MachinesRenew(t, at, front, id, observed);
      var before := InstancesOfMachines(t, at, front);
      if FirstOwner(front, id, observed).Some? {
        MachineActs(before, at, m, id);
      } else {
        ListingsRenew(before, at, m.Id(), m.instances, id, observed);
        hide UpsertInstances;
      }
      hide FirstOwner;
      hide SeenIn;
      hide NoneLater;
      hide NoLater;
    }
  }

  /** A snapshot that observes the instance at `observed` and not later, while the row is older: its first owner gets
      it. */
  lemma SnapshotRenews(t: InstanceTable, s: Snapshot, id: Uuid, observed: nat)
    requires (id in t ==> t[id].observedAt < observed) && NoLater(s.machines, id, observed)
    ensures OlderOr(InstancesAfter(t, s), id, observed, FirstOwner(s.machines, id, observed), StampOf(s))
  {
    MachinesRenew(t, StampOf(s), s.machines, id, observed);
    hide InstancesOfMachines;
    hide FirstOwner;
    hide NoLater;
  }

  // ---------- the condition for instances ----------

  predicate ObservesAt(s: Snapshot, id: Uuid, observed: nat) { FirstOwner(s.machines, id, observed).Some? }

  /** No listing of the instance has a greater key (observation, completion) than `b`'s listing at `observed`. */
  ghost predicate GreatestListing(ss: set<Snapshot>, b: Snapshot, id: Uuid, observed: nat) {
    && b in ss && ObservesAt(b, id, observed)
    && (forall s :: s in ss ==> NoLater(s.machines, id, observed))
    && (forall s :: s in ss && ObservesAt(s, id, observed) ==> s.completedAtMs <= b.completedAtMs)
  }

  /** `c` completed after `e`, which made the greatest observation, and retires the instance from the machine to which
      `e` gives it. */
  predicate RetiresFrom(c: Snapshot, e: Snapshot, id: Uuid, observed: nat) {
    && ObservesAt(e, id, observed) && e.completedAtMs < c.completedAtMs
    && Retires(c, id, observed, FirstOwner(e.machines, id, observed).value)
  }

  /** A snapshot that completed with `b` or later and retires the instance from a snapshot with the greatest
      observation. */
  ghost predicate ChallengesListing(c: Snapshot, ss: set<Snapshot>, b: Snapshot, id: Uuid, observed: nat) {
    c in ss && b.completedAtMs <= c.completedAtMs && exists e :: e in ss && RetiresFrom(c, e, id, observed)
  }

  // ---------- sufficiency for instances ----------

  /** While nothing challenges `b`: a row with the greatest observation is no later than `b` and active if it is as
      late, and an active one is as some snapshot left it; once `b` is stored the row has its key. */
  ghost predicate PlaceOk(t: InstanceTable, seen: set<Snapshot>, b: Snapshot, id: Uuid, observed: nat) {
    && (id in t ==> t[id].observedAt <= observed)
    && (id in t && t[id].observedAt == observed ==>
          && t[id].completedAt <= b.completedAtMs && (t[id].completedAt == b.completedAtMs ==> t[id].active)
          && (t[id].active ==> exists e :: e in seen && LeftBy(t[id], e, id, observed)))
    && (b in seen ==> id in t && t[id].observedAt == observed && t[id].completedAt == b.completedAtMs)
  }

  predicate LeftBy(r: InstanceRow, e: Snapshot, id: Uuid, observed: nat) {
    FirstOwner(e.machines, id, observed) == Some(r.machineId) && e.completedAtMs == r.completedAt
  }

  lemma PlaceOkStep(t: InstanceTable, seen: set<Snapshot>, ss: set<Snapshot>, s: Snapshot, b: Snapshot, id: Uuid,
                    observed: nat)
    requires PlaceOk(t, seen, b, id, observed) && seen <= ss && s in ss && GreatestListing(ss, b, id, observed)
    requires forall c :: !ChallengesListing(c, ss, b, id, observed)
    ensures PlaceOk(InstancesAfter(t, s), seen + {s}, b, id, observed)
  {
    hide FirstOwner;
    hide NoLater;
    hide InstancesAfter;
    hide Retires;
    assert s in seen + {s};
    if id in t && t[id].observedAt == observed {
      SnapshotActs(t, s, id);
      if t[id].active {
        var e :| e in seen && LeftBy(t[id], e, id, observed);
        assert e in seen + {s};
        assert !ChallengesListing(s, ss, b, id, observed);
        assert Retires(s, id, observed, t[id].machineId) && e.completedAtMs < s.completedAtMs ==>
                 RetiresFrom(s, e, id, observed);
      }
    } else {
      SnapshotRenews(t, s, id, observed);
    }
  }

  lemma {:induction false} HistoryPlaceOk(es: seq<Event>, ss: set<Snapshot>, b: Snapshot, id: Uuid, observed: nat)
    requires OneIdOneSnapshot(Delivered(es)) && Stored(es) <= ss && GreatestListing(ss, b, id, observed)
    requires forall c :: !ChallengesListing(c, ss, b, id, observed)
    ensures PlaceOk(Exec(EMPTY, es).instances, Stored(es), b, id, observed)
  {
    hide Apply;
    hide Accepts;
    hide GreatestListing;
    hide ChallengesListing;
    hide InstancesAfter;
    if es == [] {
      assert Stored(es) == {};
    } else {
      var front, e := es[..|es| - 1], es[|es| - 1];
      assert es == front + [e];
      StoredStep(front, e);
      HistoryPlaceOk(front, ss, b, id, observed);
      StoredTable(front, e);
      hide PlaceOk;
      hide OneIdOneSnapshot;
      hide Stored;
      if e.Deliver? && Accepts(Exec(EMPTY, front), e.snapshot) {
        PlaceOkStep(Exec(EMPTY, front).instances, Stored(front), ss, e.snapshot, b, id, observed);
      }
    }
  }

  // ---------- necessity for instances ----------

  /** One delivery of something that is not yet stored. */
  lemma StoredNow(es: seq<Event>, s: Snapshot)
    requires OneIdOneSnapshot(Delivered(es) + {s}) && s !in Stored(es) && Valid(s) && Storable(s)
    ensures Exec(EMPTY, es + [Deliver(s)]).instances == InstancesAfter(Exec(EMPTY, es).instances, s)
  {
    DeliveredStep(es, s);
    StoredStep(es, Deliver(s));
    StoredTable(es, Deliver(s));
    hide Exec;
    hide Accepts;
    hide Stored;
    hide OneIdOneSnapshot;
    hide InstancesAfter;
    hide Tables.Storable;
    hide Topology.Valid;
  }

  /** While only older observations are stored the row is older. */
  lemma {:induction false} OlderSoFar(es: seq<Event>, id: Uuid, observed: nat)
    requires forall s :: s in Delivered(es) ==> NoLater(s.machines, id, observed) && !ObservesAt(s, id, observed)
    ensures id in Exec(EMPTY, es).instances ==> Exec(EMPTY, es).instances[id].observedAt < observed
  {
    hide Apply;
    hide Accepts;
    hide NoLater;
    hide FirstOwner;
    if es != [] {
      var front, e := es[..|es| - 1], es[|es| - 1];
      assert es == front + [e];
      DeliveredConcat(front, [e]);
      OlderSoFar(front, id, observed);
      ApplyCurrent(Exec(EMPTY, front), e);
      hide Exec;
      if e.Deliver? {
        assert [e][0].snapshot in Delivered([e]);
        SnapshotRenews(Exec(EMPTY, front).instances, e.snapshot, id, observed);
      }
      hide InstancesAfter;
    }
  }

  /** What completed no later leaves a row with the greatest observation as it is. */
  lemma {:induction false} StaysPut(es: seq<Event>, more: seq<Event>, id: Uuid)
    requires id in Exec(EMPTY, es).instances
    requires var r := Exec(EMPTY, es).instances[id];
             forall s :: s in Delivered(more) ==>
               NoLater(s.machines, id, r.observedAt) && s.completedAtMs <= r.completedAt
    ensures id in Exec(EMPTY, es + more).instances
            && Exec(EMPTY, es + more).instances[id] == Exec(EMPTY, es).instances[id]
  {
    hide Apply;
    hide Accepts;
    hide NoLater;
    if more == [] {
      assert es + more == es;
    } else {
      var front, e := more[..|more| - 1], more[|more| - 1];
      assert more == front + [e] && es + more == (es + front) + [e];
      DeliveredConcat(front, [e]);
      StaysPut(es, front, id);
      ExecStep(EMPTY, es + front, e);
      ApplyCurrent(Exec(EMPTY, es + front), e);
      hide Exec;
      if e.Deliver? {
        assert [e][0].snapshot in Delivered([e]);
        SnapshotActs(Exec(EMPTY, es + front).instances, e.snapshot, id);
      }
      hide InstancesAfter;
    }
  }

  ghost function Observing(ss: set<Snapshot>, id: Uuid, observed: nat): set<Snapshot> {
    set s | s in ss && ObservesAt(s, id, observed)
  }

  /** First older observations only, then `e`: the row is as `e` leaves it. */
  lemma OlderAndThen(ss: set<Snapshot>, older: set<Snapshot>, e: Snapshot, b: Snapshot, id: Uuid, observed: nat)
      returns (es: seq<Event>)
    requires OneIdOneSnapshot(ss) && AllStorable(ss) && GreatestListing(ss, b, id, observed)
    requires older <= ss - Observing(ss, id, observed) && e in ss && ObservesAt(e, id, observed)
    ensures Delivered(es) == older + {e}
    ensures var t := Exec(EMPTY, es).instances;
            id in t && t[id] == Renewed(FirstOwner(e.machines, id, observed).value, observed, StampOf(e))
  {
    hide FirstOwner;
    hide NoLater;
    var first := Enumerated(older);
    Part(ss, older);
    Part(ss, older + {e});
    StoredAll(first, older);
    hide Exec;
    OlderSoFar(first, id, observed);
    assert Valid(e) && Storable(e);
    StoredNow(first, e);
    DeliveredStep(first, e);
    hide Enumerated;
    hide OneIdOneSnapshot;
    hide AllStorable;
    SnapshotRenews(Exec(EMPTY, first).instances, e, id, observed);
    es := first + [Deliver(e)];
  }

  /** Then everything else with the greatest observation, once the row is as late as any of it: the row stays. */
  lemma TheRestLast(es: seq<Event>, ss: set<Snapshot>, b: Snapshot, id: Uuid, observed: nat) returns (fs: seq<Event>)
    requires GreatestListing(ss, b, id, observed)
    requires ss - Observing(ss, id, observed) <= Delivered(es) <= ss
    requires var t := Exec(EMPTY, es).instances;
             id in t && t[id].observedAt == observed && b.completedAtMs <= t[id].completedAt
    ensures Delivered(fs) == ss && id in Exec(EMPTY, fs).instances
    ensures Exec(EMPTY, fs).instances[id] == Exec(EMPTY, es).instances[id]
  {
    hide Exec;
    hide NoLater;
    hide FirstOwner;
    var rest := ss - Delivered(es);
    var more := Enumerated(rest);
    DeliveredConcat(es, more);
    hide Enumerated;
    fs := es + more;
    StaysPut(es, more, id);
  }

  /** Older observations, `e`, its challenger, and then the rest: the instance is gone. */
  lemma ChallengerRetires(ss: set<Snapshot>, c: Snapshot, b: Snapshot, id: Uuid, observed: nat) returns (fs: seq<Event>)
    requires OneIdOneSnapshot(ss) && AllStorable(ss) && GreatestListing(ss, b, id, observed)
    requires ChallengesListing(c, ss, b, id, observed)
    ensures Delivered(fs) == ss && !ActiveInstance(Exec(EMPTY, fs).instances, id)
  {
    hide Exec;
    hide NoLater;
    hide FirstOwner;
    hide Retires;
    var e :| e in ss && RetiresFrom(c, e, id, observed);
    var es := OlderAndThen(ss, ss - Observing(ss, id, observed) - {c}, e, b, id, observed);
    Part(ss, Delivered(es));
    StoredAll(es, Delivered(es));
    Part(ss, Delivered(es) + {c});
    StoredNow(es, c);
    DeliveredStep(es, c);
    hide OneIdOneSnapshot;
    hide AllStorable;
    SnapshotActs(Exec(EMPTY, es).instances, c, id);
    hide InstancesAfter;
    fs := TheRestLast(es + [Deliver(c)], ss, b, id, observed);
  }

  /** Older observations, `b`, and then the rest: the instance is there. */
  lemma GreatestShows(ss: set<Snapshot>, b: Snapshot, id: Uuid, observed: nat) returns (fs: seq<Event>)
    requires OneIdOneSnapshot(ss) && AllStorable(ss) && GreatestListing(ss, b, id, observed)
    ensures Delivered(fs) == ss && ActiveInstance(Exec(EMPTY, fs).instances, id)
  {
    hide Exec;
    hide OneIdOneSnapshot;
    hide AllStorable;
    hide FirstOwner;
    hide NoLater;
    var es := OlderAndThen(ss, ss - Observing(ss, id, observed), b, b, id, observed);
    fs := TheRestLast(es, ss, b, id, observed);
  }

  // ---------- the theorem for instances ----------

  ghost predicate InstanceActiveInEveryOrder(es: seq<Event>, id: Uuid) {
    forall fs :: SameDeliveries(es, fs) ==> ActiveInstance(Exec(EMPTY, fs).instances, id)
  }

  ghost predicate InstanceOrderIndependent(es: seq<Event>, id: Uuid) {
    forall fs :: SameDeliveries(es, fs) ==>
      (ActiveInstance(Exec(EMPTY, fs).instances, id) <==> ActiveInstance(Exec(EMPTY, es).instances, id))
  }

  /** The exact condition. Let `b` be a stored snapshot whose listing of the instance has the greatest key. The instance
      is active in every history that stores the same snapshots, and its flag is the same in all of them, exactly when
      no stored snapshot challenges `b`. */
  lemma InstanceActiveExactly(es: seq<Event>, b: Snapshot, id: Uuid, observed: nat)
    requires OneIdOneSnapshot(Delivered(es)) && GreatestListing(Stored(es), b, id, observed)
    ensures InstanceActiveInEveryOrder(es, id) <==> forall c :: !ChallengesListing(c, Stored(es), b, id, observed)
    ensures InstanceOrderIndependent(es, id) <==> forall c :: !ChallengesListing(c, Stored(es), b, id, observed)
  {
    var ss := Stored(es);
    StoredIsStorable(es);
    hide Stored;
    if c :| ChallengesListing(c, ss, b, id, observed) {
      var hidden := ChallengerRetires(ss, c, b, id, observed);
      var shown := GreatestShows(ss, b, id, observed);
      StoredAll(hidden, ss);
      StoredAll(shown, ss);
      assert SameDeliveries(es, hidden) && SameDeliveries(es, shown);
    } else {
      assert b in ss;
      hide ChallengesListing;
      forall fs | SameDeliveries(es, fs) ensures ActiveInstance(Exec(EMPTY, fs).instances, id) {
        HistoryPlaceOk(fs, ss, b, id, observed);
      }
      assert SameDeliveries(es, es);
    }
  }

  /** In particular, when `b` alone has the latest observation: exactly when no stored snapshot that completed later
      retires the instance from the machine to which `b` gives it. */
  lemma InstanceActiveExactlyForLatest(es: seq<Event>, b: Snapshot, id: Uuid, observed: nat)
    requires OneIdOneSnapshot(Delivered(es)) && GreatestListing(Stored(es), b, id, observed)
    requires forall s :: s in Stored(es) && ObservesAt(s, id, observed) ==> s == b
    ensures var owner := FirstOwner(b.machines, id, observed).value;
            InstanceActiveInEveryOrder(es, id)
            <==> forall c :: c in Stored(es) && Retires(c, id, observed, owner) ==> c.completedAtMs <= b.completedAtMs
  {
    InstanceActiveExactly(es, b, id, observed);
    hide InstanceActiveInEveryOrder;
    hide InstanceOrderIndependent;
    hide Stored;
    hide Retires;
    hide FirstOwner;
    var owner := FirstOwner(b.machines, id, observed).value;
    if c :| c in Stored(es) && Retires(c, id, observed, owner) && b.completedAtMs < c.completedAtMs {
      assert RetiresFrom(c, b, id, observed);
      assert ChallengesListing(c, Stored(es), b, id, observed);
    }
  }

  lemma {:induction false} ObservedBy(ms: seq<Machine>, id: Uuid, observed: nat)
    ensures FirstOwner(ms, id, observed).Some? <==> exists m :: m in ms && SeenIn(m.instances, id, observed)
  {
    hide SeenIn;
    if ms != [] {
      var front, m := ms[..|ms| - 1], ms[|ms| - 1];
      assert ms == front + [m] && m in ms;
      ObservedBy(front, id, observed);
    }
  }

  /** The latest observation in a snapshot that lists the instance. */
  lemma {:induction false} LatestObservation(xs: seq<Instance>, id: Uuid) returns (observed: nat)
    requires exists x :: x in xs && x.instanceId == id
    ensures SeenIn(xs, id, observed) && NoneLater(xs, id, observed)
  {
    var front, y := xs[..|xs| - 1], xs[|xs| - 1];
    assert xs == front + [y] && y in xs;
    observed := y.observedAtMs;
    if x :| x in front && x.instanceId == id {
      var top := LatestObservation(front, id);
      assert exists z :: z in front && z.instanceId == id && z.observedAtMs == top;
      if y.instanceId != id || y.observedAtMs < top {
        observed := top;
      }
    }
  }

  predicate Lists(ms: seq<Machine>, id: Uuid) {
    exists m, x :: m in ms && x in m.instances && x.instanceId == id
  }

  lemma {:induction false} LatestInSnapshot(ms: seq<Machine>, id: Uuid) returns (observed: nat)
    requires Lists(ms, id)
    ensures FirstOwner(ms, id, observed).Some? && NoLater(ms, id, observed)
  {
    var front, m := ms[..|ms| - 1], ms[|ms| - 1];
    assert ms == front + [m] && m in ms;
    if Lists(front, id) {
      observed := LatestInSnapshot(front, id);
    }
    if exists x :: x in m.instances && x.instanceId == id {
      var top := LatestObservation(m.instances, id);
      if !Lists(front, id) || observed < top {
        observed := top;
      }
    }
    ObservedBy(front, id, observed);
    ObservedBy(ms, id, observed);
  }

  /** A stored listing with the greatest key exists as soon as one snapshot lists the instance. */
  lemma GreatestListingExists(ss: set<Snapshot>, id: Uuid) returns (b: Snapshot, observed: nat)
    requires exists s :: s in ss && Lists(s.machines, id)
    ensures GreatestListing(ss, b, id, observed)
  {
    var s :| s in ss && Lists(s.machines, id);
    var top := LatestInSnapshot(s.machines, id);
    b, observed := s, top;
    var rest := ss - {s};
    if exists r :: r in rest && Lists(r.machines, id) {
      var b', observed' := GreatestListingExists(rest, id);
      if !KeyLe(observed', b'.completedAtMs, top, s.completedAtMs) {
        b, observed := b', observed';
      }
    }
    forall r | r in ss ensures NoLater(r.machines, id, observed) {
      assert r == s || r in rest;
    }
    forall r | r in ss && ObservesAt(r, id, observed) ensures r.completedAtMs <= b.completedAtMs {
      ObservedBy(r.machines, id, observed);
      assert r == s || r in rest;
    }
  }
}
