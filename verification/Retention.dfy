/** Batched retention of metric samples and raw payloads (controller/internal/retention/cleaner.go). */
module Retention {
  import opened Wrappers
  import opened Topology
  import opened Tables

  function Expired(t: MetricTable, cutoff: int): (r: set<MetricKey>)
    ensures r <= t.Keys
  {
    set k | k in t && t[k].observedAt < cutoff
  }

  function Eligible(runs: map<Uuid, Run>, cutoff: int): (r: set<Uuid>)
    ensures r <= runs.Keys
  {
    set id | id in runs && runs[id].completedAt < cutoff && Prunable(runs[id])
  }

  /** ORDER BY observed_at. */
  predicate SampleLe(t: MetricTable, a: MetricKey, b: MetricKey) {
    a in t && b in t && t[a].observedAt <= t[b].observedAt
  }

  /** ORDER BY completed_at, collection_id. */
  predicate RunLe(runs: map<Uuid, Run>, a: Uuid, b: Uuid) {
    && a in runs && b in runs
    && (runs[a].completedAt < runs[b].completedAt || (runs[a].completedAt == runs[b].completedAt && a <= b))
  }

  /** A batch takes the oldest rows: none that stays is older than one that goes. */
  ghost predicate NoOlderSample(t: MetricTable, taken: set<MetricKey>, left: set<MetricKey>) {
    forall v, e :: v in taken && e in left ==> v in t && e in t && t[v].observedAt <= t[e].observedAt
  }

  /** Likewise for runs; of runs that completed together the smaller ids go first. */
  ghost predicate NoOlderRun(runs: map<Uuid, Run>, taken: set<Uuid>, left: set<Uuid>) {
    forall v, e :: v in taken && e in left ==>
      && v in runs && e in runs && runs[v].completedAt <= runs[e].completedAt
      && (runs[v].completedAt == runs[e].completedAt ==> v <= e)
  }

  lemma OldestAre(t: MetricTable, keys: set<MetricKey>, rest: set<MetricKey>, runs: map<Uuid, Run>, ids: set<Uuid>,
                  others: set<Uuid>)
    ensures OldestSamples(t, keys, rest) ==> NoOlderSample(t, keys, rest)
    ensures OldestRuns(runs, ids, others) ==> NoOlderRun(runs, ids, others)
  {
  }

  ghost predicate OldestSamples(t: MetricTable, taken: set<MetricKey>, left: set<MetricKey>) {
    forall v, e :: v in taken && e in left ==> SampleLe(t, v, e)
  }

  ghost predicate OldestRuns(runs: map<Uuid, Run>, taken: set<Uuid>, left: set<Uuid>) {
    forall v, e :: v in taken && e in left ==> RunLe(runs, v, e)
  }

  lemma SampleTotal(t: MetricTable, a: MetricKey, b: MetricKey)
    requires a in t && b in t
    ensures SampleLe(t, a, b) || SampleLe(t, b, a)
    ensures forall c :: SampleLe(t, a, b) && SampleLe(t, b, c) ==> SampleLe(t, a, c)
  {
  }

  lemma OldestSampleExists(t: MetricTable, from: set<MetricKey>) returns (v: MetricKey)
    requires from != {} && from <= t.Keys
    ensures v in from && forall e :: e in from ==> SampleLe(t, v, e)
  {
    var k :| k in from;
    var rest := from - {k};
    SampleTotal(t, k, k);
    hide SampleLe;
    v := k;
    if rest != {} {
      var m := OldestSampleExists(t, rest);
      SampleTotal(t, k, m);
      if !SampleLe(t, k, m) {
        v := m;
      }
    }
    forall e | e in from ensures SampleLe(t, v, e) {
      assert e == k || e in rest;
    }
  }

  /** The first rows of the selection in its order, at most `limit` of them. */
  method SelectOldestSamples(t: MetricTable, all: set<MetricKey>, limit: nat) returns (taken: set<MetricKey>)
    requires all <= t.Keys
    ensures taken <= all && |taken| <= limit && (|taken| < limit ==> taken == all)
    ensures NoOlderSample(t, taken, all - taken)
  {
    hide SampleLe;
    hide NoOlderSample;
    var left := all;
    taken := {};
    while |taken| < limit && left != {}
      invariant left <= all && taken == all - left && |taken| <= limit
      invariant OldestSamples(t, taken, left)
      decreases left
    {
      ghost var w := OldestSampleExists(t, left);
      var v :| v in left && forall e :: e in left ==> SampleLe(t, v, e);
      taken, left := taken + {v}, left - {v};
    }
    assert all - taken == left;
    OldestAre(t, taken, left, map[], {}, {});
  }

  lemma RunTotal(t: map<Uuid, Run>, a: Uuid, b: Uuid)
    requires a in t && b in t
    ensures RunLe(t, a, b) || RunLe(t, b, a)
    ensures forall c :: RunLe(t, a, b) && RunLe(t, b, c) ==> RunLe(t, a, c)
  {
  }

  lemma OldestRunExists(t: map<Uuid, Run>, from: set<Uuid>) returns (v: Uuid)
    requires from != {} && from <= t.Keys
    ensures v in from && forall e :: e in from ==> RunLe(t, v, e)
  {
    var k :| k in from;
    var rest := from - {k};
    RunTotal(t, k, k);
    hide RunLe;
    v := k;
    if rest != {} {
      var m := OldestRunExists(t, rest);
      RunTotal(t, k, m);
      if !RunLe(t, k, m) {
        v := m;
      }
    }
    forall e | e in from ensures RunLe(t, v, e) {
      assert e == k || e in rest;
    }
  }

  /** The first rows of the selection in its order, at most `limit` of them. */
  method SelectOldestRuns(t: map<Uuid, Run>, all: set<Uuid>, limit: nat) returns (taken: set<Uuid>)
    requires all <= t.Keys
    ensures taken <= all && |taken| <= limit && (|taken| < limit ==> taken == all)
    ensures NoOlderRun(t, taken, all - taken)
  {
    hide RunLe;
    hide NoOlderRun;
    var left := all;
    taken := {};
    while |taken| < limit && left != {}
      invariant left <= all && taken == all - left && |taken| <= limit
      invariant OldestRuns(t, taken, left)
      decreases left
    {
      ghost var w := OldestRunExists(t, left);
      var v :| v in left && forall e :: e in left ==> RunLe(t, v, e);
      taken, left := taken + {v}, left - {v};
    }
    assert all - taken == left;
    OldestAre(map[], {}, {}, t, taken, left);
  }

  lemma PruneLeaves(runs: map<Uuid, Run>, ids: set<Uuid>, cutoff: int)
    requires ids <= Eligible(runs, cutoff)
    ensures Eligible(PruneRuns(runs, ids), cutoff) == Eligible(runs, cutoff) - ids
  {
  }

  lemma DeleteLeaves(t: MetricTable, victims: set<MetricKey>, cutoff: int)
    ensures Expired(t - victims, cutoff) == Expired(t, cutoff) - victims
  {
  }

  lemma DeleteTwice(t: MetricTable, a: set<MetricKey>, b: set<MetricKey>)
    ensures t - a - b == t - (a + b)
  {
  }

  lemma PruneTwice(runs: map<Uuid, Run>, a: set<Uuid>, b: set<Uuid>)
    ensures PruneRuns(PruneRuns(runs, a), b) == PruneRuns(runs, a + b)
  {
  }

  /** The two statements of the PostgreSQL store. A failed call reports no rows, whether or not some have gone. */
  class PostgreSQLStore {
    var metrics: MetricTable
    var runs: map<Uuid, Run>

    method DeleteMetricSamplesBefore(cutoff: int, limit: nat, fault: Fault)
      returns (r: Result<nat, IngestError>, ghost victims: set<MetricKey>)
      modifies this`metrics
      ensures victims <= Expired(old(metrics), cutoff) && metrics == old(metrics) - victims
      ensures NoOlderSample(old(metrics), victims, Expired(old(metrics), cutoff) - victims)
      ensures |victims| == if fault.Aborted? then 0 else Min(limit, |Expired(old(metrics), cutoff)|)
      ensures r == if fault.NoFault? then Ok(|victims|) else Err(Unavailable)
    {
      if fault.Aborted? {
        victims := {};
        return Err(Unavailable), victims;
      }
      var taken := SelectOldestSamples(metrics, Expired(metrics, cutoff), limit);
      BatchSize(taken, Expired(metrics, cutoff), limit);
      victims := taken;
      metrics := metrics - taken;
      r := if fault.NoFault? then Ok(|taken|) else Err(Unavailable);
    }

    method PruneCollectionPayloadsBefore(cutoff: int, limit: nat, fault: Fault)
      returns (r: Result<nat, IngestError>, ghost pruned: set<Uuid>)
      modifies this`runs
      ensures pruned <= Eligible(old(runs), cutoff) && runs == PruneRuns(old(runs), pruned)
      ensures NoOlderRun(old(runs), pruned, Eligible(old(runs), cutoff) - pruned)
      ensures |pruned| == if fault.Aborted? then 0 else Min(limit, |Eligible(old(runs), cutoff)|)
      ensures r == if fault.NoFault? then Ok(|pruned|) else Err(Unavailable)
    {
      if fault.Aborted? {
        pruned := {};
        NonePruned(runs);
        return Err(Unavailable), pruned;
      }
      var taken := SelectOldestRuns(runs, Eligible(runs, cutoff), limit);
      BatchSize(taken, Eligible(runs, cutoff), limit);
      pruned := taken;
      runs := PruneRuns(runs, taken);
      r := if fault.NoFault? then Ok(|taken|) else Err(Unavailable);
    }
  }

  function Min(a: int, b: int): int { if a <= b then a else b }

  lemma BatchSize<T>(taken: set<T>, all: set<T>, limit: nat)
    requires taken <= all && |taken| <= limit && (|taken| < limit ==> taken == all)
    ensures |taken| == Min(limit, |all|)
    ensures |taken| == |all| ==> taken == all
  {
    assert all == taken + (all - taken);
  }

  /** Only expired samples and eligible payloads go; all of them unless the store failed; and payloads only once all
      expired samples are gone. */
  ghost predicate Cleaned(t: MetricTable, runs: map<Uuid, Run>, t': MetricTable, runs': map<Uuid, Run>, cutoff: int,
                          victims: set<MetricKey>, ids: set<Uuid>, error: bool) {
    && victims <= Expired(t, cutoff) && t' == t - victims
    && ids <= Eligible(runs, cutoff) && runs' == PruneRuns(runs, ids)
    && (!error || ids != {} ==> victims == Expired(t, cutoff))
    && (!error ==> ids == Eligible(runs, cutoff))
  }

  /** Samples observed at the cutoff or later keep their rows, and the others go if nothing failed. */
  ghost predicate OldSamplesGo(t: MetricTable, t': MetricTable, cutoff: int, error: bool) {
    && (forall k :: k in t' ==> k in t && t'[k] == t[k])
    && (forall k :: k in t && cutoff <= t[k].observedAt ==> k in t')
    && (!error ==> forall k :: k in t' ==> cutoff <= t'[k].observedAt)
  }

  /** Every run keeps its row; of those completed before the cutoff that have a fingerprint the payload goes if nothing
      failed; all others, and everything but the payload, stay as they are. */
  ghost predicate OldPayloadsGo(runs: map<Uuid, Run>, runs': map<Uuid, Run>, cutoff: int, error: bool) {
    && runs'.Keys == runs.Keys
    && (forall id :: id in runs ==> runs'[id] == runs[id] || runs'[id] == runs[id].(payload := None, pruned := true))
    && (forall id :: id in runs && (cutoff <= runs[id].completedAt || runs[id].sha256.None?) ==> runs'[id] == runs[id])
    && (!error ==>
          forall id :: id in runs && runs[id].completedAt < cutoff && runs[id].sha256.Some? && !runs[id].pruned ==>
            runs'[id].payload == None && runs'[id].pruned)
  }

  /** What a cleanup does to each row. */
  lemma CleanedRows(t: MetricTable, runs: map<Uuid, Run>, t': MetricTable, runs': map<Uuid, Run>, cutoff: int,
                    victims: set<MetricKey>, ids: set<Uuid>, error: bool)
    requires Cleaned(t, runs, t', runs', cutoff, victims, ids, error)
    ensures OldSamplesGo(t, t', cutoff, error) && OldPayloadsGo(runs, runs', cutoff, error)
  {
  }

  /** The first call in a range that fails; the end of the range if none does. */
  ghost function FirstFault(faults: nat -> Fault, from: nat, to: nat): (f: nat)
    requires from <= to
    ensures from <= f <= to
    ensures (forall i: nat :: from <= i < f ==> faults(i) == NoFault) && (f < to ==> faults(f) != NoFault)
    decreases if from <= to then to - from else 0
  {
    if from == to || faults(from) != NoFault then from else FirstFault(faults, from + 1, to)
  }

  lemma FirstFaultFrom(faults: nat -> Fault, from: nat, at: nat, to: nat)
    requires from <= at <= to && forall i: nat :: from <= i < at ==> faults(i) == NoFault
    ensures FirstFault(faults, from, to) == FirstFault(faults, at, to)
    decreases at - from
  {
    if from < at {
      FirstFaultFrom(faults, from + 1, at, to);
    }
  }

  /** What a loop of calls comes to: the rows counted, the rows that went uncounted with a lost acknowledgement, whether
      a call failed, and the number of the next call. */
  datatype Batches = Batches(counted: nat, lost: nat, failed: bool, next: nat)

  /** The rows of so many full batches. */
  function InFull(calls: nat, batchSize: nat): nat { calls * batchSize }

  /** A loop over `rows` rows whose first call has the number `from`. It takes one call for every full batch and one
      that finds less, unless a call fails before. */
  ghost function InBatches(faults: nat -> Fault, from: nat, batchSize: nat, rows: nat): Batches
    requires batchSize > 0
  {
    var f := FirstFault(faults, from, from + rows / batchSize + 1);
    FullBatches(f - from, batchSize, rows);
    if f == from + rows / batchSize + 1 then Batches(rows, 0, false, f)
    else
      var counted := (f - from) * batchSize;
      Batches(counted, if faults(f).AckLost? then Min(batchSize, rows - counted) else 0, true, f + 1)
  }

  lemma NoneInFull(batchSize: nat)
    ensures InFull(0, batchSize) == 0
  {
  }

  lemma FullBatches(n: nat, batchSize: nat, rows: nat)
    requires batchSize > 0
    ensures n <= rows / batchSize <==> n * batchSize <= rows
    ensures n == rows / batchSize <==> n * batchSize <= rows < n * batchSize + batchSize
  {
    var q := rows / batchSize;
    assert q * batchSize <= rows < q * batchSize + batchSize;
    if n < q {
      Scaled(n + 1, q, batchSize);
      OneMore(n, batchSize);
    } else if q < n {
      Scaled(q + 1, n, batchSize);
      OneMore(q, batchSize);
    }
  }

  lemma Scaled(a: nat, b: nat, batchSize: nat)
    requires a <= b
    ensures a * batchSize <= b * batchSize
  {
    assert (b - a) * batchSize >= 0;
  }

  lemma OneMore(n: nat, batchSize: nat)
    ensures (n + 1) * batchSize == n * batchSize + batchSize
  {
  }

  /** What the counters of one or more cleanups miss. */
  datatype Shortfall = Shortfall(samples: nat, payloads: nat)

  const NONE := Shortfall(0, 0)

  /** One cleanup over so many expired samples and eligible payloads. No call of the second loop is made after a failure
      in the first. */
  datatype Outcome = Outcome(samples: Batches, payloads: Batches)
  {
    function Short(): Shortfall { Shortfall(samples.lost, payloads.lost) }
  }

  ghost function OutcomeOf(faults: nat -> Fault, batchSize: nat, expired: nat, eligible: nat): Outcome
    requires batchSize > 0
  {
    var samples := InBatches(faults, 0, batchSize, expired);
    Outcome(samples,
            if samples.failed then Batches(0, 0, true, samples.next)
            else InBatches(faults, samples.next, batchSize, eligible))
  }

  /** Some call is the first that fails, its acknowledgement is lost, and a row was left for it: a sample, or a payload
      once the samples have been dealt with. */
  ghost predicate BatchLost(faults: nat -> Fault, batchSize: nat, expired: nat, eligible: nat)
    requires batchSize > 0
  {
    exists f: nat :: LosesBatch(f, faults, batchSize, expired, eligible)
  }

  ghost predicate LosesBatch(f: nat, faults: nat -> Fault, batchSize: nat, expired: nat, eligible: nat)
    requires batchSize > 0
  {
    && faults(f) == AckLost && (forall i: nat :: i < f ==> faults(i) == NoFault)
    && RowsLeft(f, batchSize, expired, eligible) > 0
  }

  /** The rows that are left for a call when all calls before it have succeeded. */
  ghost function RowsLeft(f: nat, batchSize: nat, expired: nat, eligible: nat): int
    requires batchSize > 0
  {
    var deleting := expired / batchSize + 1;
    if f < deleting then expired - f * batchSize else eligible - (f - deleting) * batchSize
  }

  class Cleaner {
    const store: PostgreSQLStore
    const retention: nat
    const batchSize: nat
    var running: bool
    var lastDeletedSamples: nat
    var totalDeletedSamples: nat
    var lastPrunedPayloads: nat
    var totalPrunedPayloads: nat
    var failed: bool

    constructor (store: PostgreSQLStore, retention: nat, batchSize: nat)
      ensures this.store == store && this.retention == retention && this.batchSize == batchSize
      ensures totalDeletedSamples == totalPrunedPayloads == 0 && !running && !failed
    {
      this.store, this.retention, this.batchSize := store, retention, batchSize;
      running, failed := false, false;
      lastDeletedSamples, totalDeletedSamples, lastPrunedPayloads, totalPrunedPayloads := 0, 0, 0, 0;
    }

    /** The first loop; `faults` says what becomes of each call. */
    method DeleteSamples(cutoff: int, faults: nat -> Fault)
      returns (deleted: nat, error: bool, calls: nat, ghost victims: set<MetricKey>)
      requires batchSize > 0
      modifies store`metrics
      ensures victims <= Expired(old(store.metrics), cutoff) && store.metrics == old(store.metrics) - victims
      ensures var b := InBatches(faults, 0, batchSize, |Expired(old(store.metrics), cutoff)|);
              deleted == b.counted && error == b.failed && calls == b.next && |victims| == b.counted + b.lost
      ensures !error ==> victims == Expired(old(store.metrics), cutoff)
    {
      hide NoOlderSample;
      hide Expired;
      hide FirstFault;
      hide InFull;
      hide InBatches;
      ghost var all := Expired(store.metrics, cutoff);
      NoneInFull(batchSize);
      deleted, calls, victims := 0, 0, {};
      while true
        invariant victims <= all && deleted == |victims| && store.metrics == old(store.metrics) - victims
        invariant deleted == InFull(calls, batchSize) && forall i: nat :: i < calls ==> faults(i) == NoFault
        decreases all - victims
      {
        DeleteLeaves(old(store.metrics), victims, cutoff);
        Remaining(all, victims);
        var r, more := store.DeleteMetricSamplesBefore(cutoff, batchSize, faults(calls));
        InBatchesAt(faults, 0, calls, batchSize, |all|);
        DeleteTwice(old(store.metrics), victims, more);
        Both(all, victims, more);
        victims := victims + more;
        calls := calls + 1;
        if r.Err? {
          error := true;
          return;
        }
        deleted := deleted + r.value;
        if r.value < batchSize {
          error := false;
          return;
        }
      }
    }

    /** The second loop, whose first call is number `from` of the cleanup. */
    method PrunePayloads(cutoff: int, faults: nat -> Fault, from: nat)
      returns (count: nat, error: bool, calls: nat, ghost ids: set<Uuid>)
      requires batchSize > 0
      modifies store`runs
      ensures ids <= Eligible(old(store.runs), cutoff) && store.runs == PruneRuns(old(store.runs), ids)
      ensures var b := InBatches(faults, from, batchSize, |Eligible(old(store.runs), cutoff)|);
              count == b.counted && error == b.failed && calls == b.next && |ids| == b.counted + b.lost
      ensures !error ==> ids == Eligible(old(store.runs), cutoff)
    {
      hide PruneRuns;
      hide Eligible;
      hide NoOlderRun;
      hide FirstFault;
      hide InFull;
      hide InBatches;
      ghost var all := Eligible(store.runs, cutoff);
      NoneInFull(batchSize);
      count, calls, ids := 0, from, {};
      NonePruned(store.runs);
      while true
        invariant ids <= all && count == |ids| && store.runs == PruneRuns(old(store.runs), ids)
        invariant calls >= from && count == InFull(calls - from, batchSize)
        invariant forall i: nat :: from <= i < calls ==> faults(i) == NoFault
        decreases all - ids
      {
        PruneLeaves(old(store.runs), ids, cutoff);
        Remaining(all, ids);
        var r, more := store.PruneCollectionPayloadsBefore(cutoff, batchSize, faults(calls));
        InBatchesAt(faults, from, calls, batchSize, |all|);
        PruneTwice(old(store.runs), ids, more);
        Both(all, ids, more);
        ids := ids + more;
        calls := calls + 1;
        if r.Err? {
          error := true;
          return;
        }
        count := count + r.value;
        if r.value < batchSize {
          error := false;
          return;
        }
      }
    }

    /** Both loops: payloads are only touched once all expired samples are gone. */
    method RunBatches(cutoff: int, faults: nat -> Fault)
      returns (deleted: nat, pruned: nat, error: bool, ghost victims: set<MetricKey>, ghost ids: set<Uuid>)
      requires batchSize > 0
      modifies store
      ensures Cleaned(old(store.metrics), old(store.runs), store.metrics, store.runs, cutoff, victims, ids, error)
      ensures var o := OutcomeOf(faults, batchSize, |Expired(old(store.metrics), cutoff)|,
                                 |Eligible(old(store.runs), cutoff)|);
              && deleted == o.samples.counted && pruned == o.payloads.counted && error == o.payloads.failed
              && |victims| == deleted + o.Short().samples && |ids| == pruned + o.Short().payloads
    {
      hide Expired;
      hide Eligible;
      hide InBatches;
      NonePruned(store.runs);
      hide PruneRuns;
      pruned, ids := 0, {};
      var calls;
      deleted, error, calls, victims := DeleteSamples(cutoff, faults);
      if !error {
        pruned, error, calls, ids := PrunePayloads(cutoff, faults, calls);
      }
    }

    /** `cleanup`: without a failure exactly the expired samples and the eligible payloads are gone. Always, the rows
        that were there are the rows that are left, the rows counted, and the batch whose acknowledgement was lost, if
        any. */
    method Cleanup(startedAt: nat, faults: nat -> Fault)
      returns (ghost victims: set<MetricKey>, ghost ids: set<Uuid>, ghost o: Outcome)
      requires batchSize > 0
      modifies this, store
      ensures Cleaned(old(store.metrics), old(store.runs), store.metrics, store.runs,
                      startedAt - retention, victims, ids, failed)
      ensures OldSamplesGo(old(store.metrics), store.metrics, startedAt - retention, failed)
      ensures OldPayloadsGo(old(store.runs), store.runs, startedAt - retention, failed)
      ensures o == OutcomeOf(faults, batchSize, |Expired(old(store.metrics), startedAt - retention)|,
                             |Eligible(old(store.runs), startedAt - retention)|)
      ensures lastDeletedSamples == o.samples.counted && lastPrunedPayloads == o.payloads.counted
      ensures failed == o.payloads.failed && !running
      ensures |victims| == lastDeletedSamples + o.Short().samples && |ids| == lastPrunedPayloads + o.Short().payloads
      ensures |store.metrics| + totalDeletedSamples + o.Short().samples == old(|store.metrics| + totalDeletedSamples)
      ensures |Unpruned(store.runs)| + totalPrunedPayloads + o.Short().payloads
              == old(|Unpruned(store.runs)| + totalPrunedPayloads)
      ensures (|store.metrics| + totalDeletedSamples == old(|store.metrics| + totalDeletedSamples)
               && |Unpruned(store.runs)| + totalPrunedPayloads == old(|Unpruned(store.runs)| + totalPrunedPayloads))
          <==> !BatchLost(faults, batchSize, |Expired(old(store.metrics), startedAt - retention)|,
                          |Eligible(old(store.runs), startedAt - retention)|)
    {
      hide Unpruned;
      hide OutcomeOf;
      hide BatchLost;
      hide Expired;
      hide Eligible;
      hide Cleaned;
      hide OldSamplesGo;
      hide OldPayloadsGo;
      running := true;
      ghost var t, runs := store.metrics, store.runs;
      var deleted, pruned, error;
      deleted, pruned, error, victims, ids := RunBatches(startedAt - retention, faults);
      var expired, eligible := |Expired(t, startedAt - retention)|, |Eligible(runs, startedAt - retention)|;
      o := OutcomeOf(faults, batchSize, expired, eligible);
      CountersBalance(t, runs, store.metrics, store.runs, startedAt - retention, victims, ids, error);
      CleanedRows(t, runs, store.metrics, store.runs, startedAt - retention, victims, ids, error);
      BalancedExactly(faults, batchSize, expired, eligible);
      Record(deleted, pruned, error);
    }

    /** `Run`: a cleanup at the start and one at every tick. Over all of them, whatever failed in between, the counters
        miss exactly the batches whose acknowledgements were lost, at most one for each cleanup. */
    method Run(startedAt: nat, ticks: seq<nat>, faults: nat -> nat -> Fault) returns (ghost short: seq<Shortfall>)
      requires batchSize > 0
      modifies this, store
      ensures |short| == 1 + |ticks| && OneBatchEach(short, batchSize, faults)
      ensures |store.metrics| + totalDeletedSamples + Total(short).samples == old(|store.metrics| + totalDeletedSamples)
      ensures |Unpruned(store.runs)| + totalPrunedPayloads + Total(short).payloads
              == old(|Unpruned(store.runs)| + totalPrunedPayloads)
    {
      hide Unpruned;
      hide OutcomeOf;
      hide Expired;
      hide Eligible;
      hide Cleaned;
      hide OldSamplesGo;
      hide OldPayloadsGo;
      hide Total;
      hide AtMostOneBatch;
      hide OneBatchEach;
      hide BatchLost;
      NothingShort();
      ghost var victims, ids, o := Cleanup(startedAt, faults(0));
      LostOnce(faults(0), batchSize, |Expired(old(store.metrics), startedAt - retention)|,
               |Eligible(old(store.runs), startedAt - retention)|);
      OneBatchMore([], o.Short(), batchSize, faults);
      TotalStep([], o.Short());
      short := [] + [o.Short()];
      for i := 0 to |ticks|
        invariant |short| == 1 + i && OneBatchEach(short, batchSize, faults)
        invariant |store.metrics| + totalDeletedSamples + Total(short).samples
                  == old(|store.metrics| + totalDeletedSamples)
        invariant |Unpruned(store.runs)| + totalPrunedPayloads + Total(short).payloads
                  == old(|Unpruned(store.runs)| + totalPrunedPayloads)
      {
        ghost var expired := |Expired(store.metrics, ticks[i] - retention)|;
        ghost var eligible := |Eligible(store.runs, ticks[i] - retention)|;
        victims, ids, o := Cleanup(ticks[i], faults(i + 1));
        LostOnce(faults(i + 1), batchSize, expired, eligible);
        OneBatchMore(short, o.Short(), batchSize, faults);
        TotalStep(short, o.Short());
        short := short + [o.Short()];
      }
    }

    /** The deferred status update. */
    method Record(deleted: nat, pruned: nat, error: bool)
      modifies this
      ensures !running && failed == error && lastDeletedSamples == deleted && lastPrunedPayloads == pruned
      ensures totalDeletedSamples == old(totalDeletedSamples) + deleted
      ensures totalPrunedPayloads == old(totalPrunedPayloads) + pruned
    {
      running, failed := false, error;
      lastDeletedSamples, lastPrunedPayloads := deleted, pruned;
      totalDeletedSamples := totalDeletedSamples + deleted;
      totalPrunedPayloads := totalPrunedPayloads + pruned;
    }
  }

  lemma Remaining<T>(all: set<T>, gone: set<T>)
    requires gone <= all
    ensures |all - gone| == |all| - |gone|
  {
    assert all == gone + (all - gone);
  }

  lemma Both<T>(all: set<T>, gone: set<T>, more: set<T>)
    requires gone <= all && more <= all - gone
    ensures gone + more <= all && |gone + more| == |gone| + |more|
    ensures |more| == |all| - |gone| ==> gone + more == all
    ensures more != {} ==> all - (gone + more) < all - gone
  {
    Remaining(all, gone);
    Remaining(all - gone, more);
    if more != {} {
      var x :| x in more;
      assert x in all - gone && x !in all - (gone + more);
    }
  }

  ghost function Total(short: seq<Shortfall>): Shortfall {
    if short == [] then NONE
    else
      var rest, last := Total(short[..|short| - 1]), short[|short| - 1];
      Shortfall(rest.samples + last.samples, rest.payloads + last.payloads)
  }

  lemma NothingShort()
    ensures Total([]) == NONE
  {
  }

  lemma TotalStep(short: seq<Shortfall>, s: Shortfall)
    ensures Total(short + [s]) == Shortfall(Total(short).samples + s.samples, Total(short).payloads + s.payloads)
  {
    assert (short + [s])[..|short|] == short;
  }

  /** At most one batch goes uncounted, of samples or of payloads, and none unless an acknowledgement is lost. */
  ghost predicate AtMostOneBatch(short: Shortfall, batchSize: nat, faults: nat -> Fault) {
    && (short.samples == 0 || short.payloads == 0) && short.samples <= batchSize && short.payloads <= batchSize
    && (short != NONE ==> exists i: nat :: faults(i) == AckLost)
  }

  ghost predicate OneBatchEach(short: seq<Shortfall>, batchSize: nat, faults: nat -> nat -> Fault) {
    forall i :: 0 <= i < |short| ==> AtMostOneBatch(short[i], batchSize, faults(i))
  }

  lemma OneBatchMore(short: seq<Shortfall>, s: Shortfall, batchSize: nat, faults: nat -> nat -> Fault)
    requires (short == [] || OneBatchEach(short, batchSize, faults)) && AtMostOneBatch(s, batchSize, faults(|short|))
    ensures OneBatchEach(short + [s], batchSize, faults)
  {
    hide AtMostOneBatch;
  }

  lemma LostOnce(faults: nat -> Fault, batchSize: nat, expired: nat, eligible: nat)
    requires batchSize > 0
    ensures AtMostOneBatch(OutcomeOf(faults, batchSize, expired, eligible).Short(), batchSize, faults)
  {
    hide FirstFault;
  }

  /** A loop that has made its calls before `at` in full. */
  lemma InBatchesAt(faults: nat -> Fault, from: nat, at: nat, batchSize: nat, rows: nat)
    requires batchSize > 0 && from <= at && InFull(at - from, batchSize) <= rows
    requires forall i: nat :: from <= i < at ==> faults(i) == NoFault
    ensures var b, left := InBatches(faults, from, batchSize, rows), rows - InFull(at - from, batchSize);
            if faults(at) != NoFault then
              b == Batches(InFull(at - from, batchSize),
                           if faults(at).AckLost? then Min(batchSize, left) else 0, true, at + 1)
            else
              left < batchSize ==> b == Batches(rows, 0, false, at + 1)
    ensures InFull(at + 1 - from, batchSize) == InFull(at - from, batchSize) + batchSize
  {
    var need, n := rows / batchSize, at - from;
    FullBatches(n, batchSize, rows);
    FirstFaultFrom(faults, from, at, from + need + 1);
    OneMore(n, batchSize);
    assert n * batchSize == (at - from) * batchSize;
    if faults(at) != NoFault {
      assert FirstFault(faults, from, from + need + 1) == at;
    } else if rows - n * batchSize < batchSize {
      assert at + 1 == from + need + 1;
    }
  }

  /** What is missed when call `f` loses its batch: a full batch, or what was left. */
  ghost function Fallen(f: nat, batchSize: nat, expired: nat, eligible: nat): Shortfall
    requires batchSize > 0 && RowsLeft(f, batchSize, expired, eligible) > 0
  {
    var lost := Min(batchSize, RowsLeft(f, batchSize, expired, eligible));
    if f <= expired / batchSize then Shortfall(lost, 0) else Shortfall(0, lost)
  }

  lemma LossAt(f: nat, faults: nat -> Fault, batchSize: nat, expired: nat, eligible: nat)
    requires batchSize > 0 && LosesBatch(f, faults, batchSize, expired, eligible)
    ensures OutcomeOf(faults, batchSize, expired, eligible).Short() == Fallen(f, batchSize, expired, eligible) != NONE
  {
    hide InBatches;
    var deleting := expired / batchSize + 1;
    if f < deleting {
      FullBatches(f, batchSize, expired);
      InBatchesAt(faults, 0, f, batchSize, expired);
    } else {
      AllDeleted(faults, batchSize, expired);
      InBatchesAt(faults, deleting, f, batchSize, eligible);
    }
  }

  /** The first loop when none of the calls it needs fails. */
  lemma AllDeleted(faults: nat -> Fault, batchSize: nat, expired: nat)
    requires batchSize > 0 && forall i: nat :: i <= expired / batchSize ==> faults(i) == NoFault
    ensures InBatches(faults, 0, batchSize, expired) == Batches(expired, 0, false, expired / batchSize + 1)
  {
    hide InBatches;
    FullBatches(expired / batchSize, batchSize, expired);
    InBatchesAt(faults, 0, expired / batchSize, batchSize, expired);
  }

  lemma LossFound(faults: nat -> Fault, batchSize: nat, expired: nat, eligible: nat)
    requires batchSize > 0 && OutcomeOf(faults, batchSize, expired, eligible).Short() != NONE
    ensures BatchLost(faults, batchSize, expired, eligible)
  {
    hide FirstFault;
    var o := OutcomeOf(faults, batchSize, expired, eligible);
    var last := (if o.samples.failed then o.samples.next else o.payloads.next) - 1;
    assert LosesBatch(last, faults, batchSize, expired, eligible);
  }

  /** The counters of a cleanup are right exactly unless a batch was lost, and then they fall short by that batch. */
  lemma BalancedExactly(faults: nat -> Fault, batchSize: nat, expired: nat, eligible: nat)
    requires batchSize > 0
    ensures var short := OutcomeOf(faults, batchSize, expired, eligible).Short();
            && (short == NONE <==> !BatchLost(faults, batchSize, expired, eligible))
            && (forall f: nat :: LosesBatch(f, faults, batchSize, expired, eligible) ==>
                  short == Fallen(f, batchSize, expired, eligible))
  {
    var o := OutcomeOf(faults, batchSize, expired, eligible);
    forall f: nat | LosesBatch(f, faults, batchSize, expired, eligible)
      ensures o.Short() == Fallen(f, batchSize, expired, eligible)
    {
      LossAt(f, faults, batchSize, expired, eligible);
    }
    if o.Short() != NONE {
      LossFound(faults, batchSize, expired, eligible);
    }
  }

  /** "The counters balance in every case" is false: when the first call deletes expired samples and its acknowledgement
      is lost, they count none of them. */
  lemma LostBatchIsNotCounted(faults: nat -> Fault, batchSize: nat, expired: nat, eligible: nat)
    requires batchSize > 0 && faults(0) == AckLost && expired > 0
    ensures OutcomeOf(faults, batchSize, expired, eligible)
         == Outcome(Batches(0, Min(batchSize, expired), true, 1), Batches(0, 0, true, 1))
  {
  }

  function Unpruned(runs: map<Uuid, Run>): set<Uuid> { set id | id in runs && !runs[id].pruned }

  lemma NonePruned(runs: map<Uuid, Run>)
    ensures PruneRuns(runs, {}) == runs
  {
  }

  /** The rows that were there are the rows that are left and the rows that went. */
  lemma CountersBalance(t: MetricTable, runs: map<Uuid, Run>, t': MetricTable, runs': map<Uuid, Run>, cutoff: int,
                        victims: set<MetricKey>, ids: set<Uuid>, error: bool)
    requires Cleaned(t, runs, t', runs', cutoff, victims, ids, error)
    ensures |t'| + |victims| == |t|
    ensures |Unpruned(runs')| + |ids| == |Unpruned(runs)|
  {
    assert t'.Keys == t.Keys - victims;
    assert |t'| == |t'.Keys| && |t| == |t.Keys|;
    assert Unpruned(runs') == Unpruned(runs) - ids;
  }

  /** After a cleanup without failure nothing is left to do, and repeating it changes nothing. */
  lemma CleanupIsIdempotent(t: MetricTable, runs: map<Uuid, Run>, cutoff: int)
    ensures Expired(t - Expired(t, cutoff), cutoff) == {}
    ensures Eligible(PruneRuns(runs, Eligible(runs, cutoff)), cutoff) == {}
    ensures forall k :: k in t && t[k].observedAt >= cutoff ==> k in t - Expired(t, cutoff)
  {
  }
}
