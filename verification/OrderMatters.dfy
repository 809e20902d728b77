/** Plausible claims about any-order delivery that the code does not meet, each with a history that shows it
    (controller/internal/ingest/store.go:132-157, 259-330, 402-422). */
module OrderMatters {
  import opened Wrappers
  import opened Topology
  import opened Tables
  import opened IngestInvariants

  function Seen(id: Uuid, observedAt: Millis64): Machine {
    Machine(Session(id, "", "", "", "", 0, 0, [], None), observedAt, [], [])
  }

  function Collection(id: Uuid, completedAt: Millis64, machines: seq<Machine>): Snapshot {
    Snapshot(SCHEMA_VERSION, id, completedAt, completedAt, completedAt, machines, [])
  }

  /** Completed at 10, machine 7 observed at 9. */
  const A := Collection(1, 10, [Seen(7, 9)])

  /** Completed at 20, machine 7 observed at 19. */
  const B := Collection(2, 20, [Seen(7, 19)])

  /** Completed at 30, complete, and machine 7 is gone. */
  const C := Collection(3, 30, [])

  predicate OneOf(s: Snapshot) { s == A || s == B || s == C }

  lemma Acceptable(s: Snapshot, db: Db)
    requires OneOf(s)
    ensures Valid(s) && Storable(s) && (Accepts(db, s) <==> s.collectionId !in db.runs)
  {
    assert FlatInstances(s.machines) == [] by {
      if s.machines != [] {
        assert s.machines[..0] == [];
        assert FlatInstances([]) == [];
      }
    }
    assert forall k :: 0 <= k < |s.machines| ==> MachineOk(s.machines[k], s.completedAtMs);
    assert FlatSamples(StampOf(s), []) == [];
  }

  /** One delivery of one of the three, for the table of machines. */
  lemma Delivered1(db: Db, s: Snapshot)
    requires OneOf(s) && s.collectionId !in db.runs
    ensures Apply(db, Deliver(s)).machines == MachinesAfter(db.machines, s)
    ensures Apply(db, Deliver(s)).runs.Keys == db.runs.Keys + {s.collectionId}
  {
    Acceptable(s, db);
    ApplyCurrent(db, Deliver(s));
    ApplyRuns(db, Deliver(s));
    hide Apply;
    hide Accepts;
    hide RunOf;
    hide MachinesAfter;
  }

  lemma Delivered3(a: Snapshot, b: Snapshot, c: Snapshot)
    requires OneOf(a) && OneOf(b) && OneOf(c)
    requires a.collectionId != b.collectionId && a.collectionId != c.collectionId && b.collectionId != c.collectionId
    ensures Exec(EMPTY, [Deliver(a), Deliver(b), Deliver(c)]).machines
            == MachinesAfter(MachinesAfter(MachinesAfter(map[], a), b), c)
  {
    hide MachinesAfter;
    hide Exec;
    hide OneOf;
    ExecNothing();
    ExecStep(EMPTY, [], Deliver(a));
    ExecStep(EMPTY, [Deliver(a)], Deliver(b));
    ExecStep(EMPTY, [Deliver(a), Deliver(b)], Deliver(c));
    assert [] + [Deliver(a)] == [Deliver(a)];
    assert [Deliver(a)] + [Deliver(b)] == [Deliver(a), Deliver(b)];
    assert [Deliver(a), Deliver(b)] + [Deliver(c)] == [Deliver(a), Deliver(b), Deliver(c)];
    hide Apply;
    Delivered1(EMPTY, a);
    Delivered1(Exec(EMPTY, [Deliver(a)]), b);
    Delivered1(Exec(EMPTY, [Deliver(a), Deliver(b)]), c);
  }

  lemma ExecNothing()
    ensures Exec(EMPTY, []) == EMPTY && EMPTY.runs.Keys == {} && EMPTY.machines == map[]
  {
  }

  lemma AfterOne(t: MachineTable, s: Snapshot)
    requires s == A || s == B
    ensures MachinesAfter(t, s).Keys == t.Keys + {7}
    ensures MachinesAfter(t, s)[7]
         == if 7 in t && !Before(t[7].observedAt, t[7].completedAt, s.machines[0].observedAtMs, s.completedAtMs)
                                      then t[7] else FreshMachine(StampOf(s), s.machines[0])
  {
    assert s.machines[..0] == [];
    assert UpsertMachines(t, StampOf(s), s.machines) == UpsertMachine(t, StampOf(s), s.machines[0]);
    assert s.machines[0].Id() in Ids(s.machines);
  }

  lemma AfterNone(t: MachineTable)
    requires 7 in t && t[7].active && t[7].completedAt < 30
    ensures 7 in MachinesAfter(t, C) && !MachinesAfter(t, C)[7].active
    ensures MachinesAfter(t, C)[7].observedAt == t[7].observedAt && MachinesAfter(t, C)[7].completedAt == 30
  {
    assert Ids([]) == {};
  }

  /** Whether a machine is active depends on the order of delivery: the same three snapshots leave machine 7 inactive
      in one order and active in the other. */
  lemma ActiveDependsOnOrder()
    ensures 7 in Exec(EMPTY, [Deliver(A), Deliver(B), Deliver(C)]).machines
    ensures !Exec(EMPTY, [Deliver(A), Deliver(B), Deliver(C)]).machines[7].active
    ensures 7 in Exec(EMPTY, [Deliver(A), Deliver(C), Deliver(B)]).machines
    ensures Exec(EMPTY, [Deliver(A), Deliver(C), Deliver(B)]).machines[7].active
  {
    Delivered3(A, B, C);
    Delivered3(A, C, B);
    AfterOne(map[], A);
    var a := MachinesAfter(map[], A);
    AfterOne(a, B);
    AfterNone(MachinesAfter(a, B));
    AfterNone(a);
    AfterOne(MachinesAfter(a, C), B);
    hide Exec;
    hide MachinesAfter;
  }

  // ---------- deleted peers come back ----------

  /** Deleted peers leave no tombstone: a peer that is absent is there afterwards exactly if it is listed, whatever the
      times of the listing and of the deletion. */
  lemma AbsentPeerIsInserted(t: PeerTable, at: Stamp, x: Instance, key: PeerKey)
    requires key !in t
    ensures key in PeersOfInstance(t, at, x) <==> key.0 == x.instanceId && key.1 in PeerIds(x.peers)
  {
    if key.0 == x.instanceId {
      InsertedKey(t, at, x, x.peers, key);
    } else {
      UpsertPeersElsewhere(t, at, x, x.peers, key);
    }
  }

  predicate Lists(x: Instance, key: PeerKey) { x.instanceId == key.0 && key.1 in PeerIds(x.peers) }

  /** A successful listing of the instance's routes without the peer. */
  predicate Withdraws(x: Instance, key: PeerKey) {
    x.instanceId == key.0 && key.1 !in PeerIds(x.peers) && !HasOperationError(x.errors, LIST_ROUTES)
  }

  /** The `k`th instance lists the peer, and no later one withdraws it with a later observation. */
  predicate Endures(xs: seq<Instance>, key: PeerKey, k: nat) {
    k < |xs| && Lists(xs[k], key)
    && forall j :: k < j < |xs| && Withdraws(xs[j], key) ==> xs[j].observedAtMs <= xs[k].observedAtMs
  }

  lemma EnduresStep(front: seq<Instance>, x: Instance, key: PeerKey, k: nat)
    ensures k < |front| ==>
              (Endures(front + [x], key, k)
               <==> Endures(front, key, k) && (Withdraws(x, key) ==> x.observedAtMs <= front[k].observedAtMs))
    ensures Endures(front + [x], key, |front|) <==> Lists(x, key)
  {
    var xs := front + [x];
    assert xs[|front|] == x && forall j :: 0 <= j < |front| ==> xs[j] == front[j];
  }

  /** The row that enduring listings leave: it shows one of them, and none of them was observed later. */
  ghost predicate ShowsLatest(t: PeerTable, at: Stamp, xs: seq<Instance>, key: PeerKey) {
    && (forall k: nat :: Endures(xs, key, k) ==> key in t && xs[k].observedAtMs <= t[key].observedAt)
    && (key in t ==> t[key].completedAt == at.completedAt)
    && (key in t ==> exists k: nat :: Endures(xs, key, k) && xs[k].observedAtMs == t[key].observedAt)
  }

  lemma {:induction false} RelistedKey(t: PeerTable, at: Stamp, i: Instance, ps: seq<Peer>, key: PeerKey)
    requires key in t && t[key].completedAt == at.completedAt && key.0 == i.instanceId && key.1 in PeerIds(ps)
    ensures key in UpsertPeers(t, at, i, ps) && UpsertPeers(t, at, i, ps)[key].completedAt == at.completedAt
    ensures UpsertPeers(t, at, i, ps)[key].observedAt
            == if t[key].observedAt < i.observedAtMs then i.observedAtMs else t[key].observedAt
  {
    var front, p := ps[..|ps| - 1], ps[|ps| - 1];
    assert PeerIds(ps) == PeerIds(front) + {p.peerId} by {
      assert forall k :: 0 <= k < |front| ==> ps[k] == front[k];
      assert ps[|front|] == p;
    }
    if key.1 in PeerIds(front) {
      RelistedKey(t, at, i, front, key);
    } else {
      UpsertPeersElsewhere(t, at, i, front, key);
    }
  }

  /** One instance, for a row written by the same collection. */
  lemma OneInstance(t: PeerTable, at: Stamp, x: Instance, key: PeerKey)
    requires key in t ==> t[key].completedAt == at.completedAt
    ensures var t' := PeersOfInstance(t, at, x);
            if Lists(x, key) then
              && key in t' && t'[key].completedAt == at.completedAt
              && t'[key].observedAt
                 == if key in t && x.observedAtMs <= t[key].observedAt then t[key].observedAt else x.observedAtMs
            else if Withdraws(x, key) && key in t && t[key].observedAt < x.observedAtMs then key !in t'
            else (key in t' <==> key in t) && (key in t ==> t'[key] == t[key])
  {
    if key.0 == x.instanceId && key.1 in PeerIds(x.peers) {
      if key in t {
        RelistedKey(t, at, x, x.peers, key);
      } else {
        InsertedKey(t, at, x, x.peers, key);
      }
    } else {
      UpsertPeersElsewhere(t, at, x, x.peers, key);
    }
    hide UpsertPeers;
  }

  lemma {:induction false} AbsentPeerShowsLatest(t: PeerTable, at: Stamp, xs: seq<Instance>, key: PeerKey)
    requires key !in t
    ensures ShowsLatest(PeersOfInstances(t, at, xs), at, xs, key)
  {
    if xs != [] {
      var front, x := xs[..|xs| - 1], xs[|xs| - 1];
      assert xs == front + [x];
      AbsentPeerShowsLatest(t, at, front, key);
      ShowsLatestStep(PeersOfInstances(t, at, front), at, front, x, key);
    }
  }

  lemma ShowsLatestStep(t: PeerTable, at: Stamp, front: seq<Instance>, x: Instance, key: PeerKey)
    requires ShowsLatest(t, at, front, key)
    ensures ShowsLatest(PeersOfInstance(t, at, x), at, front + [x], key)
  {
    var t', xs := PeersOfInstance(t, at, x), front + [x];
    OneInstance(t, at, x, key);
    hide PeersOfInstance;
    EnduresStep(front, x, key, |front|);
    forall k: nat | Endures(xs, key, k) ensures key in t' && xs[k].observedAtMs <= t'[key].observedAt {
      EnduresStep(front, x, key, k);
    }
    if key in t' {
      if key in t && t'[key].observedAt == t[key].observedAt {
        var k: nat :| Endures(front, key, k) && front[k].observedAtMs == t[key].observedAt;
        EnduresStep(front, x, key, k);
        assert Endures(xs, key, k) && xs[k].observedAtMs == t'[key].observedAt;
      } else {
        assert Endures(xs, key, |front|) && xs[|front|].observedAtMs == t'[key].observedAt;
      }
    }
  }

  /** An absent peer is there after a list of instances exactly if one of them lists it and no later one withdraws it
      with a later observation. */
  lemma AbsentPeerListed(t: PeerTable, at: Stamp, xs: seq<Instance>, key: PeerKey)
    requires key !in t
    ensures key in PeersOfInstances(t, at, xs) <==> exists k: nat :: Endures(xs, key, k)
  {
    AbsentPeerShowsLatest(t, at, xs, key);
    hide PeersOfInstances;
    hide Endures;
  }

  /** One step of a history: an absent peer appears exactly by an accepted snapshot that lists it and does not withdraw
      it again, in a later entry for the same instance with a later observation. */
  lemma AbsentPeerAppearsExactly(db: Db, e: Event, key: PeerKey)
    requires key !in db.peers
    ensures key in Apply(db, e).peers
        <==> && e.Deliver? && Accepts(db, e.snapshot)
             && exists k: nat :: Endures(FlatInstances(e.snapshot.machines), key, k)
  {
    ApplyCurrent(db, e);
    hide Apply;
    hide Accepts;
    hide Endures;
    if e.Deliver? {
      AbsentPeerListed(db.peers, StampOf(e.snapshot), FlatInstances(e.snapshot.machines), key);
    }
  }

  function Link(id: PeerId): Peer {
    Peer(id, None, "", 0, true, 1, None, None, None, None, Some([]), "")
  }

  function Report(observedAt: Millis64, peers: seq<Peer>): Instance { Instance(1, observedAt, None, peers, [], []) }

  /** A complete collection of machine 7 with these reports about its instance. */
  function Reports(id: Uuid, completedAt: Millis64, xs: seq<Instance>): Snapshot {
    Collection(id, completedAt, [Machine(Session(7, "", "", "", "", 0, 0, [], None), completedAt, xs, [])])
  }

  predicate Plain(x: Instance, completedAt: Millis64) {
    && x.instanceId == 1 && x.observedAtMs <= completedAt && x.node.None? && x.metrics == []
    && (x.peers == [] || x.peers == [Link(5)])
  }

  lemma {:induction false} NoSamples(at: Stamp, xs: seq<Instance>)
    requires forall k :: 0 <= k < |xs| ==> xs[k].metrics == []
    ensures FlatSamples(at, xs) == []
  {
    if xs != [] {
      NoSamples(at, xs[..|xs| - 1]);
      assert xs[|xs| - 1].metrics == [];
    }
  }

  lemma ReportsFlat(s: Snapshot, xs: seq<Instance>)
    requires |s.machines| == 1 && s.machines[0].instances == xs
    ensures FlatInstances(s.machines) == xs
  {
    assert s.machines[..0] == [] && FlatInstances([]) == [];
  }

  lemma PlainRows(at: Stamp, xs: seq<Instance>, completedAt: Millis64)
    requires forall k :: 0 <= k < |xs| ==> Plain(xs[k], completedAt)
    ensures RowsStorable(at, xs)
  {
    NoSamples(at, xs);
    hide FlatSamples;
    forall k | 0 <= k < |xs| ensures InstanceStorable(xs[k]) {
      assert Plain(xs[k], completedAt);
    }
    hide Plain;
  }

  lemma ReportsStorable(id: Uuid, completedAt: Millis64, xs: seq<Instance>)
    requires forall k :: 0 <= k < |xs| ==> Plain(xs[k], completedAt)
    ensures FlatInstances(Reports(id, completedAt, xs).machines) == xs && Storable(Reports(id, completedAt, xs))
  {
    hide FlatInstances;
    hide Tables.RowsStorable;
    hide Plain;
    ReportsFlat(Reports(id, completedAt, xs), xs);
    PlainRows(StampOf(Reports(id, completedAt, xs)), xs, completedAt);
  }

  lemma ReportsValid(id: Uuid, completedAt: Millis64, xs: seq<Instance>)
    requires id != NIL_UUID && completedAt <= MAX_TIMESTAMP_MS
    requires forall k :: 0 <= k < |xs| ==> Plain(xs[k], completedAt)
    ensures Valid(Reports(id, completedAt, xs))
  {
    forall k | 0 <= k < |xs| ensures InstanceOk(xs[k], completedAt) {
      assert Plain(xs[k], completedAt);
    }
  }

  lemma ReportsAccepted(db: Db, id: Uuid, completedAt: Millis64, xs: seq<Instance>)
    requires id != NIL_UUID && id !in db.runs && completedAt <= MAX_TIMESTAMP_MS
    requires forall k :: 0 <= k < |xs| ==> Plain(xs[k], completedAt)
    ensures Accepts(db, Reports(id, completedAt, xs))
    ensures Apply(db, Deliver(Reports(id, completedAt, xs))).peers
            == PeersOfInstances(db.peers, Stamp(id, completedAt), xs)
    ensures Apply(db, Deliver(Reports(id, completedAt, xs))).runs.Keys == db.runs.Keys + {id}
  {
    hide *;
    var s := Reports(id, completedAt, xs);
    ReportsHeader(id, completedAt, xs);
    ReportsValid(id, completedAt, xs);
    ReportsStorable(id, completedAt, xs);
    AcceptedEffects(db, s);
  }

  lemma ReportsHeader(id: Uuid, completedAt: Millis64, xs: seq<Instance>)
    ensures Reports(id, completedAt, xs).collectionId == id
            && StampOf(Reports(id, completedAt, xs)) == Stamp(id, completedAt)
  {
  }

  lemma AcceptedEffects(db: Db, s: Snapshot)
    requires Valid(s) && Storable(s) && s.collectionId !in db.runs
    ensures Accepts(db, s)
    ensures Apply(db, Deliver(s)).peers == PeersOfInstances(db.peers, StampOf(s), FlatInstances(s.machines))
    ensures Apply(db, Deliver(s)).runs.Keys == db.runs.Keys + {s.collectionId}
  {
    hide Apply;
    hide Topology.Valid;
    hide Tables.Storable;
    hide RunOf;
    ApplyCurrent(db, Deliver(s));
    ApplyRuns(db, Deliver(s));
  }

  lemma OneReport(t: PeerTable, at: Stamp, x: Instance)
    ensures PeersOfInstances(t, at, [x]) == PeersOfInstance(t, at, x)
  {
    hide PeersOfInstance;
    assert [x][..0] == [];
  }

  /** Observed at 9 and 19 with peer 5, and at 29 without. */
  const P := Reports(1, 10, [Report(9, [Link(5)])])
  const Q := Reports(2, 30, [Report(29, [])])
  const R := Reports(3, 20, [Report(19, [Link(5)])])

  lemma ReportStep(es: seq<Event>, id: Uuid, completedAt: Millis64, xs: seq<Instance>)
    requires id != NIL_UUID && id !in Exec(EMPTY, es).runs && completedAt <= MAX_TIMESTAMP_MS
    requires forall k :: 0 <= k < |xs| ==> Plain(xs[k], completedAt)
    ensures var db, db' := Exec(EMPTY, es), Exec(EMPTY, es + [Deliver(Reports(id, completedAt, xs))]);
            && Accepts(db, Reports(id, completedAt, xs))
            && db'.peers == PeersOfInstances(db.peers, Stamp(id, completedAt), xs)
            && db'.runs.Keys == db.runs.Keys + {id}
  {
    hide Exec;
    hide Apply;
    hide Reports;
    hide Accepts;
    hide PeersOfInstances;
    ExecStep(EMPTY, es, Deliver(Reports(id, completedAt, xs)));
    ReportsAccepted(Exec(EMPTY, es), id, completedAt, xs);
  }

  lemma FirstReport()
    ensures Exec(EMPTY, [Deliver(P)]).runs.Keys == {1}
    ensures Exec(EMPTY, [Deliver(P)]).peers == map[(1, 5) := FreshPeer(Stamp(1, 10), 9, Link(5))]
  {
    hide Exec;
    hide PeersOfInstances;
    hide PeersOfInstance;
    var x := Report(9, [Link(5)]);
    ExecNothing();
    ReportStep([], 1, 10, [x]);
    assert [] + [Deliver(P)] == [Deliver(P)];
    OneReport(map[], Stamp(1, 10), x);
    AloneOnly(Stamp(1, 10), x, Link(5));
  }

  lemma AloneOnly(at: Stamp, y: Instance, p: Peer)
    requires y.peers == [p]
    ensures PeersOfInstance(map[], at, y) == map[(y.instanceId, p.peerId) := FreshPeer(at, y.observedAtMs, p)]
  {
    assert y.peers[..0] == [];
    assert UpsertPeers(map[], at, y, y.peers) == map[(y.instanceId, p.peerId) := FreshPeer(at, y.observedAtMs, p)];
    assert y.peers[0].peerId in PeerIds(y.peers);
  }

  lemma Withdrawn(t: PeerTable, at: Stamp, x: Instance, row: PeerRow)
    requires t == map[(1, 5) := row] && x.instanceId == 1 && x.peers == [] && !HasOperationError(x.errors, LIST_ROUTES)
    requires Before(row.observedAt, row.completedAt, x.observedAtMs, at.completedAt)
    ensures PeersOfInstance(t, at, x) == map[]
  {
    assert UpsertPeers(t, at, x, []) == t;
    assert Stale(t, at, x, (1, 5));
  }

  lemma SecondReport()
    ensures Accepts(Exec(EMPTY, [Deliver(P)]), Q)
    ensures Exec(EMPTY, [Deliver(P), Deliver(Q)]).runs.Keys == {1, 2}
    ensures Exec(EMPTY, [Deliver(P), Deliver(Q)]).peers == map[]
  {
    hide Exec;
    hide Accepts;
    hide PeersOfInstances;
    hide PeersOfInstance;
    var y, row := Report(29, []), FreshPeer(Stamp(1, 10), 9, Link(5));
    FirstReport();
    ReportStep([Deliver(P)], 2, 30, [y]);
    assert [Deliver(P)] + [Deliver(Q)] == [Deliver(P), Deliver(Q)];
    OneReport(map[(1, 5) := row], Stamp(2, 30), y);
    Withdrawn(map[(1, 5) := row], Stamp(2, 30), y, row);
  }

  /** A deleted peer comes back: of three accepted snapshots the one observed last does not list peer 5 and deletes it,
      and an older one, delivered afterwards, inserts it again. */
  lemma DeletedPeerComesBack()
    ensures (1, 5) in Exec(EMPTY, [Deliver(P)]).peers
    ensures (1, 5) !in Exec(EMPTY, [Deliver(P), Deliver(Q)]).peers
    ensures (1, 5) in Exec(EMPTY, [Deliver(P), Deliver(Q), Deliver(R)]).peers
    ensures Accepts(Exec(EMPTY, [Deliver(P)]), Q) && Accepts(Exec(EMPTY, [Deliver(P), Deliver(Q)]), R)
  {
    hide Exec;
    hide Accepts;
    hide PeersOfInstances;
    hide PeersOfInstance;
    var z := Report(19, [Link(5)]);
    FirstReport();
    SecondReport();
    ReportStep([Deliver(P), Deliver(Q)], 3, 20, [z]);
    assert [Deliver(P), Deliver(Q)] + [Deliver(R)] == [Deliver(P), Deliver(Q), Deliver(R)];
    OneReport(map[], Stamp(3, 20), z);
    AloneOnly(Stamp(3, 20), z, Link(5));
  }

  // ---------- repeated listings ----------

  /** The same instances at the same times; the rest is free. */
  predicate SameShape(xs: seq<Instance>, ys: seq<Instance>) {
    |xs| == |ys| && forall k :: 0 <= k < |xs| ==>
      xs[k].instanceId == ys[k].instanceId && xs[k].observedAtMs == ys[k].observedAtMs
  }

  const NO_ROUTES := TelemetryError("rpc_error", LIST_ROUTES, "")

  /** The listing at `a` withdraws peer 5, the one at `b` lists it, and the others could not list routes. */
  function Backwards(xs: seq<Instance>, a: nat, b: nat): (ys: seq<Instance>)
    ensures SameShape(xs, ys)
  {
    seq(|xs|, k requires 0 <= k < |xs| =>
      Instance(xs[k].instanceId, xs[k].observedAtMs, None, if k == b then [Link(5)] else [], [],
               if k == a then [] else [NO_ROUTES]))
  }

  lemma Quiet(t: PeerTable, at: Stamp, x: Instance)
    requires x.peers == [] && x.errors == [NO_ROUTES]
    ensures PeersOfInstance(t, at, x) == t
  {
    assert x.errors[0].operation == LIST_ROUTES;
  }

  lemma WithdrawnAt(t: PeerTable, at: Stamp, x: Instance, row: PeerRow)
    requires t == map[(x.instanceId, 5) := row] && x.peers == [] && x.errors == []
    requires Before(row.observedAt, row.completedAt, x.observedAtMs, at.completedAt)
    ensures PeersOfInstance(t, at, x) == map[]
  {
    assert UpsertPeers(t, at, x, []) == t;
    assert Stale(t, at, x, (x.instanceId, 5));
  }

  lemma BackwardsStep(at: Stamp, xs: seq<Instance>, a: nat, b: nat, row: PeerRow, n: nat)
    requires a < b < |xs| && n < |xs| && xs[a].instanceId == xs[b].instanceId
    requires Before(row.observedAt, row.completedAt, xs[a].observedAtMs, at.completedAt)
    ensures PeersOfInstance(BackwardsTable(at, xs, a, b, row, n), at, Backwards(xs, a, b)[n])
            == BackwardsTable(at, xs, a, b, row, n + 1)
  {
    var before, y := BackwardsTable(at, xs, a, b, row, n), Backwards(xs, a, b)[n];
    hide PeersOfInstance;
    hide FreshPeer;
    if n == a {
      WithdrawnAt(before, at, y, row);
    } else if n == b {
      AloneOnly(at, y, Link(5));
    } else {
      Quiet(before, at, y);
    }
  }

  /** The table after the first `n` of these listings. */
  function BackwardsTable(at: Stamp, xs: seq<Instance>, a: nat, b: nat, row: PeerRow, n: nat): PeerTable
    requires a < |xs| && b < |xs|
  {
    if n <= a then map[(xs[a].instanceId, 5) := row]
    else if n <= b then map[]
    else map[(xs[b].instanceId, 5) := FreshPeer(at, xs[b].observedAtMs, Link(5))]
  }

  lemma {:induction false} BackwardsRun(at: Stamp, xs: seq<Instance>, a: nat, b: nat, row: PeerRow, n: nat)
    requires a < b < |xs| && n <= |xs| && xs[a].instanceId == xs[b].instanceId
    requires Before(row.observedAt, row.completedAt, xs[a].observedAtMs, at.completedAt)
    ensures PeersOfInstances(BackwardsTable(at, xs, a, b, row, 0), at, Backwards(xs, a, b)[..n])
            == BackwardsTable(at, xs, a, b, row, n)
  {
    hide PeersOfInstance;
    hide Before;
    if n > 0 {
      var ys := Backwards(xs, a, b);
      BackwardsRun(at, xs, a, b, row, n - 1);
      BackwardsStep(at, xs, a, b, row, n - 1);
      hide Backwards;
      hide BackwardsTable;
      assert ys[..n][..n - 1] == ys[..n - 1] && ys[..n][n - 1] == ys[n - 1];
    }
  }

  /** Listings that go backwards in time lower a key, for some peers and some table. */
  lemma BackwardsLowersAKey(at: Stamp, xs: seq<Instance>)
    requires !Chronological(xs)
    ensures exists t: PeerTable, ys :: SameShape(xs, ys) && !PeersMove(t, PeersOfInstances(t, at, ys))
  {
    var a, b :| 0 <= a < b < |xs| && xs[a].instanceId == xs[b].instanceId && xs[a].observedAtMs > xs[b].observedAtMs;
    var key: PeerKey := (xs[a].instanceId, 5);
    var row := PeerRow(RouteOf(Link(5)), None, DetailsOf(Link(5)), xs[b].observedAtMs, at.completedAt + 1, 0);
    var t: PeerTable := map[key := row];
    var ys := Backwards(xs, a, b);
    BackwardsRun(at, xs, a, b, row, |xs|);
    assert ys[..|xs|] == ys;
    hide PeersOfInstances;
    assert key in t && key in PeersOfInstances(t, at, ys);
  }

  /** Exactly the chronological shapes never lower the key of a surviving link. */
  lemma PeerKeysNeverDecreaseExactly(at: Stamp, xs: seq<Instance>)
    ensures Chronological(xs)
        <==> forall t: PeerTable, ys :: SameShape(xs, ys) ==> PeersMove(t, PeersOfInstances(t, at, ys))
  {
    if Chronological(xs) {
      forall t: PeerTable, ys | SameShape(xs, ys) ensures PeersMove(t, PeersOfInstances(t, at, ys)) {
        PeersOfInstancesMove(t, at, ys);
      }
    } else {
      BackwardsLowersAKey(at, xs);
    }
  }

  /** Accepted after `P`: the first report withdraws peer 5, the second, made earlier, lists it again. */
  const S := Reports(4, 30, [Report(20, []), Report(3, [Link(5)])])

  lemma RepeatedReport()
    ensures Accepts(Exec(EMPTY, [Deliver(P)]), S)
    ensures Exec(EMPTY, [Deliver(P), Deliver(S)]).peers == map[(1, 5) := FreshPeer(Stamp(4, 30), 3, Link(5))]
  {
    hide Exec;
    hide Accepts;
    hide PeersOfInstances;
    hide PeersOfInstance;
    FirstReport();
    ReportStep([Deliver(P)], 4, 30, [Report(20, []), Report(3, [Link(5)])]);
    assert [Deliver(P)] + [Deliver(S)] == [Deliver(P), Deliver(S)];
    TwoReports(Stamp(4, 30), Report(20, []), Report(3, [Link(5)]), FreshPeer(Stamp(1, 10), 9, Link(5)));
  }

  lemma RepeatedIsBackwards()
    ensures !Chronological(FlatInstances(S.machines))
  {
    var xs := [Report(20, []), Report(3, [Link(5)])];
    ReportsFlat(S, xs);
    assert xs[0].instanceId == xs[1].instanceId && xs[0].observedAtMs > xs[1].observedAtMs;
  }

  /** In a history: an accepted snapshot with two reports about one instance takes the key of peer 5 from observation 9
      back to observation 3. */
  lemma RepeatedListingLowersPeerKey()
    ensures Accepts(Exec(EMPTY, [Deliver(P)]), S) && !Chronological(FlatInstances(S.machines))
    ensures (1, 5) in Exec(EMPTY, [Deliver(P)]).peers && (1, 5) in Exec(EMPTY, [Deliver(P), Deliver(S)]).peers
    ensures Exec(EMPTY, [Deliver(P)]).peers[(1, 5)].observedAt == 9
    ensures Exec(EMPTY, [Deliver(P), Deliver(S)]).peers[(1, 5)].observedAt == 3
    ensures !PeersMove(Exec(EMPTY, [Deliver(P)]).peers, Exec(EMPTY, [Deliver(P), Deliver(S)]).peers)
  {
    hide Exec;
    hide Accepts;
    hide Chronological;
    hide FlatInstances;
    FirstReport();
    RepeatedReport();
    RepeatedIsBackwards();
  }

  lemma TwoReports(at: Stamp, x: Instance, y: Instance, row: PeerRow)
    requires x.instanceId == 1 && x.peers == [] && x.errors == [] && y.instanceId == 1 && y.peers == [Link(5)]
    requires Before(row.observedAt, row.completedAt, x.observedAtMs, at.completedAt)
    ensures PeersOfInstances(map[(1, 5) := row], at, [x, y]) == map[(1, 5) := FreshPeer(at, y.observedAtMs, Link(5))]
  {
    OneReport(map[(1, 5) := row], at, x);
    Withdrawn(map[(1, 5) := row], at, x, row);
    AloneOnly(at, y, Link(5));
    hide PeersOfInstance;
    assert [x, y][..1] == [x];
  }
}
