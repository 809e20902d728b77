/** Idempotence of ingestion under every interleaving of deliveries, prunes and lost acknowledgements
    (controller/internal/ingest/store.go:44-86, controller/internal/retention/cleaner.go:83-101). */
module IngestDuplicates {
  import opened Wrappers
  import opened Topology
  import opened Tables

  /** A run row still identifies the snapshot it was written for: by fingerprint, or, in a row older than
      fingerprints, by a payload that retention will not touch. */
  ghost predicate Identifies(run: Run, s: Snapshot) {
    || (run.sha256 == Some(Sha256(s)) && (run.pruned || run.payload == Some(s)))
    || (run.sha256.None? && run.payload == Some(s))
  }

  ghost predicate Identified(runs: map<Uuid, Run>, accepted: map<Uuid, Snapshot>) {
    runs.Keys == accepted.Keys && forall id :: id in runs ==> Identifies(runs[id], accepted[id])
  }

  ghost function NextAccepted(before: Db, accepted: map<Uuid, Snapshot>, e: Event): map<Uuid, Snapshot> {
    if e.Deliver? && Accepts(before, e.snapshot) then accepted[e.snapshot.collectionId := e.snapshot] else accepted
  }

  /** The snapshot first accepted under each collection id. */
  ghost function FirstAccepted(db: Db, accepted: map<Uuid, Snapshot>, es: seq<Event>): map<Uuid, Snapshot> {
    if es == [] then accepted
    else NextAccepted(Exec(db, es[..|es| - 1]), FirstAccepted(db, accepted, es[..|es| - 1]), es[|es| - 1])
  }

  lemma IdentifiedDecides(runs: map<Uuid, Run>, accepted: map<Uuid, Snapshot>, s: Snapshot)
    requires Identified(runs, accepted) && s.collectionId in runs
    ensures Matches(runs[s.collectionId], s) <==> s == accepted[s.collectionId]
  {
    assert Identifies(runs[s.collectionId], accepted[s.collectionId]);
  }

  lemma PruneIdentifies(runs: map<Uuid, Run>, accepted: map<Uuid, Snapshot>, ids: set<Uuid>)
    requires Identified(runs, accepted)
    ensures Identified(PruneRuns(runs, ids), accepted)
  {
    forall id | id in runs ensures Identifies(PruneRuns(runs, ids)[id], accepted[id]) {
      assert Identifies(runs[id], accepted[id]);
    }
  }

  lemma AcceptIdentifies(runs: map<Uuid, Run>, accepted: map<Uuid, Snapshot>, s: Snapshot)
    requires Identified(runs, accepted)
    ensures Identified(runs[s.collectionId := RunOf(s)], accepted[s.collectionId := s])
  {
    forall id | id in runs && id != s.collectionId ensures Identifies(runs[id], accepted[id]) {
    }
  }

  lemma StepIdentifies(db: Db, accepted: map<Uuid, Snapshot>, e: Event)
    requires Identified(db.runs, accepted)
    ensures Identified(Apply(db, e).runs, NextAccepted(db, accepted, e))
  {
    ApplyRuns(db, e);
    hide Apply;
    hide Accepts;
    hide PruneRuns;
    hide RunOf;
    hide Identified;
    match e
    case Deliver(s) => AcceptIdentifies(db.runs, accepted, s);
    case Prune(ids) => PruneIdentifies(db.runs, accepted, ids);
    case DeleteSamples(keys) =>
  }

  lemma {:induction false} HistoryIdentifies(db: Db, accepted: map<Uuid, Snapshot>, es: seq<Event>)
    requires Identified(db.runs, accepted)
    ensures Identified(Exec(db, es).runs, FirstAccepted(db, accepted, es))
  {
    hide Apply;
    hide NextAccepted;
    hide Identified;
    if es != [] {
      HistoryIdentifies(db, accepted, es[..|es| - 1]);
      StepIdentifies(Exec(db, es[..|es| - 1]), FirstAccepted(db, accepted, es[..|es| - 1]), es[|es| - 1]);
    }
  }

  /** What was first accepted under an id is never replaced. */
  lemma {:induction false} FirstAcceptedIsFinal(db: Db, accepted: map<Uuid, Snapshot>, es: seq<Event>,
                                                later: seq<Event>, id: Uuid)
    requires Identified(db.runs, accepted)
    requires id in FirstAccepted(db, accepted, es)
    ensures id in FirstAccepted(db, accepted, es + later)
    ensures FirstAccepted(db, accepted, es + later)[id] == FirstAccepted(db, accepted, es)[id]
    decreases |later|
  {
    hide Apply;
    hide Tables.RowsStorable;
    if later == [] {
      assert es + later == es;
    } else {
      var front := later[..|later| - 1];
      assert (es + later)[..|es + later| - 1] == es + front;
      FirstAcceptedIsFinal(db, accepted, es, front, id);
      HistoryIdentifies(db, accepted, es + front);
    }
  }

  /** Re-ingesting a known collection id, after any history: a duplicate exactly when the payload equals the
      one first accepted under that id, an error otherwise, and no table changes in either case. */
  lemma ReingestDecision(db: Db, accepted: map<Uuid, Snapshot>, es: seq<Event>, s: Snapshot)
    requires Identified(db.runs, accepted)
    requires s.collectionId in Exec(db, es).runs
    ensures s.collectionId in FirstAccepted(db, accepted, es)
    ensures Answer(Exec(db, es), s, NoFault) == Ok(false)
        <==> Valid(s) && s == FirstAccepted(db, accepted, es)[s.collectionId]
    ensures Answer(Exec(db, es), s, NoFault) != Ok(false) ==> Answer(Exec(db, es), s, NoFault).Err?
    ensures Apply(Exec(db, es), Deliver(s)) == Exec(db, es)
  {
    HistoryIdentifies(db, accepted, es);
    IdentifiedDecides(Exec(db, es).runs, FirstAccepted(db, accepted, es), s);
  }

  /** An accepted delivery makes its id known, and known ids stay known. */
  lemma {:induction false} KnownStaysKnown(db: Db, es: seq<Event>, later: seq<Event>)
    ensures Exec(db, es).runs.Keys <= Exec(db, es + later).runs.Keys
    decreases |later|
  {
    hide Accepts;
    hide Apply;
    if later == [] {
      assert es + later == es;
    } else {
      var front := later[..|later| - 1];
      assert (es + later)[..|es + later| - 1] == es + front;
      KnownStaysKnown(db, es, front);
      ApplyRuns(Exec(db, es + front), later[|later| - 1]);
    }
  }

  lemma KnownFromPrefix(db: Db, es: seq<Event>, k: nat)
    requires k <= |es|
    ensures Exec(db, es[..k]).runs.Keys <= Exec(db, es).runs.Keys
  {
    hide Exec;
    assert es == es[..k] + es[k..];
    KnownStaysKnown(db, es[..k], es[k..]);
  }

  lemma AcceptedIsKnown(db: Db, es: seq<Event>, e: Event)
    requires e.Deliver? && Accepts(Exec(db, es), e.snapshot)
    ensures e.snapshot.collectionId in Exec(db, es + [e]).runs
  {
    hide Apply;
    hide Accepts;
    ExecStep(db, es, e);
    ApplyRuns(Exec(db, es), e);
  }

  lemma KnownIsRefused(db: Db, s: Snapshot)
    requires s.collectionId in db.runs
    ensures !Accepts(db, s) && Apply(db, Deliver(s)) == db
  {
    hide Commit;
    hide Tables.RowsStorable;
  }

  /** The effects of a collection happen at most once: of two deliveries under one collection id, the later is
      not accepted if the earlier was. A retry after a lost acknowledgement is such a second delivery. */
  lemma EffectsAtMostOnce(db: Db, es: seq<Event>, a: nat, b: nat)
    requires a < b < |es| && es[a].Deliver? && es[b].Deliver?
    requires es[a].snapshot.collectionId == es[b].snapshot.collectionId
    requires Accepts(Exec(db, es[..a]), es[a].snapshot)
    ensures !Accepts(Exec(db, es[..b]), es[b].snapshot)
    ensures Exec(db, es[..b + 1]) == Exec(db, es[..b])
  {
    hide Apply;
    hide Accepts;
    hide Exec;
    AcceptedIsKnown(db, es[..a], es[a]);
    assert es[..a + 1] == es[..a] + [es[a]];
    assert es[..b] == es[..a + 1] + es[a + 1..b];
    KnownStaysKnown(db, es[..a + 1], es[a + 1..b]);
    KnownIsRefused(Exec(db, es[..b]), es[b].snapshot);
    ExecStep(db, es[..b], es[b]);
    assert es[..b + 1] == es[..b] + [es[b]];
  }

  /** Delivering the same snapshot again changes nothing, however often and whatever happened in between: it was
      either stored, and is known, or rejected by a check that will reject it again, or its id was taken. */
  lemma RedeliveryHasNoEffect(db: Db, es: seq<Event>, k: nat)
    requires k < |es| && es[k].Deliver?
    ensures Apply(Exec(db, es), es[k]) == Exec(db, es)
  {
    var s := es[k].snapshot;
    hide Apply;
    hide Exec;
    hide Accepts;
    if Accepts(Exec(db, es[..k]), s) {
      AcceptedIsKnown(db, es[..k], es[k]);
      assert es[..k + 1] == es[..k] + [es[k]];
      KnownFromPrefix(db, es, k + 1);
      KnownIsRefused(Exec(db, es), s);
    } else {
      KnownFromPrefix(db, es, k);
      RejectedStaysRejected(Exec(db, es[..k]), Exec(db, es), s);
    }
  }

  lemma RejectedStaysRejected(before: Db, after: Db, s: Snapshot)
    requires !Accepts(before, s) && before.runs.Keys <= after.runs.Keys
    ensures Apply(after, Deliver(s)) == after
  {
    hide Commit;
    hide Tables.Storable;
    hide Topology.Valid;
  }

  /** A call that loses its acknowledgement and is repeated leaves exactly the tables of one undisturbed call,
      and the repetition reports a duplicate. */
  lemma RetryAfterLostAck(db: Db, s: Snapshot)
    requires Answer(db, s, NoFault) == Ok(true)
    ensures Answer(db, s, AckLost) == Err(Unavailable)
    ensures Answer(Apply(db, Deliver(s)), s, NoFault) == Ok(false)
    ensures Apply(Apply(db, Deliver(s)), Deliver(s)) == Apply(db, Deliver(s))
  {
    hide MachinesAfter;
    hide InstancesAfter;
    hide Tables.RowsStorable;
    assert Accepts(db, s);
    assert Commit(db, s).runs[s.collectionId] == RunOf(s);
  }
}
