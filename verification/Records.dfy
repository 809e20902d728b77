/** What an accepted snapshot leaves on record: its run, its metric samples and its errors, and when it is accepted at
    all, in terms of the fields of the snapshot (controller/internal/ingest/store.go:24-123, 233-253, 424-479 and
    database/migrations). */
module Records {
  import opened Wrappers
  import opened Topology
  import opened Tables
  import opened IngestDuplicates

  // ---------- acceptance ----------

  /** What the header checks ask for. */
  predicate GoodHeader(s: Snapshot) {
    && s.schemaVersion == "nexustier.topology.v1" && s.collectionId != 0
    && s.startedAtMs <= s.completedAtMs == s.collectedAtMs && s.completedAtMs <= 253_402_300_799_999
  }

  predicate GoodMachine(m: Machine, completed: nat) {
    && m.session.machineId != 0 && m.observedAtMs <= completed
    && m.session.connectedAtMs <= 253_402_300_799_999 && m.session.lastHeartbeatAtMs <= 253_402_300_799_999
    && forall x :: x in m.instances ==> x.instanceId != 0 && x.observedAtMs <= completed
  }

  /** What the NOT NULL and CHECK constraints ask for. */
  predicate GoodRows(x: Instance) {
    && (x.node.Some? ==> x.node.value.proxyCidrs.Some? && x.node.value.listeners.Some?)
    && forall p :: p in x.peers ==>
         && p.tunnelProtocols.Some?
         && (p.latencyMs.None? || 0.0 <= p.latencyMs.value) && (p.lossRate.None? || 0.0 <= p.lossRate.value)
  }

  /** Position (a, j): the `j`th metric of the `a`th instance. */
  predicate IsMetric(xs: seq<Instance>, a: nat, j: nat) { a < |xs| && j < |xs[a].metrics| }

  predicate SameMetric(xs: seq<Instance>, a: nat, j: nat, b: nat, k: nat)
    requires IsMetric(xs, a, j) && IsMetric(xs, b, k)
  {
    && xs[a].instanceId == xs[b].instanceId && xs[a].metrics[j].name == xs[b].metrics[k].name
    && xs[a].metrics[j].labels == xs[b].metrics[k].labels
  }

  /** No instance has two metrics with the same name and labels, not even in two entries. */
  ghost predicate NoMetricTwice(xs: seq<Instance>) {
    forall a: nat, j: nat, b: nat, k: nat ::
      IsMetric(xs, a, j) && IsMetric(xs, b, k) && SameMetric(xs, a, j, b, k) ==> a == b && j == k
  }

  /** Where the metric at (a, j) stands among all of them. */
  function MetricsBefore(xs: seq<Instance>, a: nat): nat
    requires a <= |xs|
  {
    if a == 0 then 0 else MetricsBefore(xs, a - 1) + |xs[a - 1].metrics|
  }

  lemma {:induction false} MetricsBeforePrefix(xs: seq<Instance>, ys: seq<Instance>, a: nat)
    requires a <= |xs|
    ensures MetricsBefore(xs + ys, a) == MetricsBefore(xs, a)
  {
    if a > 0 {
      MetricsBeforePrefix(xs, ys, a - 1);
      assert (xs + ys)[a - 1] == xs[a - 1];
    }
  }

  ghost predicate SampleIs(at: Stamp, xs: seq<Instance>, a: nat, j: nat, sample: Sample)
    requires IsMetric(xs, a, j)
  {
    sample == Sample(MetricKey(at.collectionId, xs[a].instanceId, xs[a].metrics[j].name, xs[a].metrics[j].labels),
                     MetricRow(xs[a].metrics[j].value, xs[a].observedAtMs))
  }

  /** Every metric has its own place among the samples, and they are in order. */
  lemma {:induction false} SampleAt(at: Stamp, xs: seq<Instance>, a: nat, j: nat)
    requires IsMetric(xs, a, j)
    ensures MetricsBefore(xs, a) + j < |FlatSamples(at, xs)|
    ensures SampleIs(at, xs, a, j, FlatSamples(at, xs)[MetricsBefore(xs, a) + j])
  {
    var front, x := xs[..|xs| - 1], xs[|xs| - 1];
    assert xs == front + [x];
    AllSamples(at, front);
    MetricsBeforePrefix(front, [x], if a < |front| then a else |front|);
    if a < |front| {
      SampleAt(at, front, a, j);
    }
  }

  lemma {:induction false} AllSamples(at: Stamp, xs: seq<Instance>)
    ensures |FlatSamples(at, xs)| == MetricsBefore(xs, |xs|)
  {
    if xs != [] {
      var front, x := xs[..|xs| - 1], xs[|xs| - 1];
      assert xs == front + [x];
      AllSamples(at, front);
      MetricsBeforePrefix(front, [x], |front|);
    }
  }

  /** Every sample is a metric. */
  lemma {:induction false} SampleFrom(at: Stamp, xs: seq<Instance>, n: nat) returns (a: nat, j: nat)
    requires n < |FlatSamples(at, xs)|
    ensures IsMetric(xs, a, j) && n == MetricsBefore(xs, a) + j
  {
    var front, x := xs[..|xs| - 1], xs[|xs| - 1];
    assert xs == front + [x];
    AllSamples(at, front);
    if n < |FlatSamples(at, front)| {
      a, j := SampleFrom(at, front, n);
      MetricsBeforePrefix(front, [x], a);
    } else {
      a, j := |front|, n - |FlatSamples(at, front)|;
      MetricsBeforePrefix(front, [x], a);
    }
  }

  lemma DistinctMetrics(at: Stamp, xs: seq<Instance>)
    ensures DistinctKeys(FlatSamples(at, xs)) <==> NoMetricTwice(xs)
  {
    var samples := FlatSamples(at, xs);
    hide FlatSamples;
    hide MetricsBefore;
    if DistinctKeys(samples) {
      forall a: nat, j: nat, b: nat, k: nat |
        IsMetric(xs, a, j) && IsMetric(xs, b, k) && SameMetric(xs, a, j, b, k)
        ensures a == b && j == k
      {
        SampleAt(at, xs, a, j);
        SampleAt(at, xs, b, k);
        PlacesDiffer(xs, a, j, b, k);
      }
    }
    if NoMetricTwice(xs) {
      forall m, n | 0 <= m < n < |samples| ensures samples[m].key != samples[n].key {
        var a, j := SampleFrom(at, xs, m);
        var b, k := SampleFrom(at, xs, n);
        SampleAt(at, xs, a, j);
        SampleAt(at, xs, b, k);
      }
    }
  }

  lemma PlacesDiffer(xs: seq<Instance>, a: nat, j: nat, b: nat, k: nat)
    requires IsMetric(xs, a, j) && IsMetric(xs, b, k)
    ensures MetricsBefore(xs, a) + j == MetricsBefore(xs, b) + k ==> a == b && j == k
  {
    if a < b {
      MetricsGrow(xs, a + 1, b);
    } else if b < a {
      MetricsGrow(xs, b + 1, a);
    }
  }

  lemma {:induction false} MetricsGrow(xs: seq<Instance>, a: nat, b: nat)
    requires a <= b <= |xs|
    ensures MetricsBefore(xs, a) <= MetricsBefore(xs, b)
  {
    if a < b {
      MetricsGrow(xs, a, b - 1);
    }
  }

  ghost predicate Good(s: Snapshot) {
    && GoodHeader(s) && (forall m :: m in s.machines ==> GoodMachine(m, s.completedAtMs))
    && (forall m, x :: m in s.machines && x in m.instances ==> GoodRows(x))
    && NoMetricTwice(FlatInstances(s.machines))
  }

  lemma GoodIsValid(s: Snapshot)
    ensures Valid(s) <==> GoodHeader(s) && forall m :: m in s.machines ==> GoodMachine(m, s.completedAtMs)
  {
    forall m: Machine ensures MachineOk(m, s.completedAtMs) <==> GoodMachine(m, s.completedAtMs) {
      assert forall k :: 0 <= k < |m.instances| ==> m.instances[k] in m.instances;
    }
    hide MachineOk;
    hide GoodMachine;
    assert forall k :: 0 <= k < |s.machines| ==> s.machines[k] in s.machines;
  }

  lemma {:induction false} FlatHas(ms: seq<Machine>, x: Instance)
    ensures x in FlatInstances(ms) <==> exists m :: m in ms && x in m.instances
  {
    if ms != [] {
      var front, m := ms[..|ms| - 1], ms[|ms| - 1];
      assert ms == front + [m] && m in ms;
      FlatHas(front, x);
    }
  }

  lemma GoodIsStorable(s: Snapshot)
    ensures Storable(s)
        <==> && (forall m, x :: m in s.machines && x in m.instances ==> GoodRows(x))
             && NoMetricTwice(FlatInstances(s.machines))
  {
    var xs := FlatInstances(s.machines);
    DistinctMetrics(StampOf(s), xs);
    forall x: Instance ensures InstanceStorable(x) <==> GoodRows(x) {
      assert forall k :: 0 <= k < |x.peers| ==> x.peers[k] in x.peers;
    }
    forall x ensures x in xs <==> exists m :: m in s.machines && x in m.instances {
      FlatHas(s.machines, x);
    }
    hide InstanceStorable;
    hide GoodRows;
    hide DistinctKeys;
    hide NoMetricTwice;
    hide FlatInstances;
    if forall m, x :: m in s.machines && x in m.instances ==> GoodRows(x) {
      forall k | 0 <= k < |xs| ensures InstanceStorable(xs[k]) {
        assert xs[k] in xs;
      }
    }
    if forall k :: 0 <= k < |xs| ==> InstanceStorable(xs[k]) {
      forall m, x | m in s.machines && x in m.instances ensures GoodRows(x) {
        assert x in xs;
      }
    }
  }

  /** `Ingest` reports an insertion exactly for a snapshot that meets every check and constraint and whose id is new,
      when nothing goes wrong on the way; that is when the snapshot is stored and acknowledged. */
  lemma InsertedExactly(db: Db, s: Snapshot, fault: Fault)
    ensures Answer(db, s, fault) == Ok(true) <==> Good(s) && s.collectionId !in db.runs && fault == NoFault
    ensures Answer(db, s, NoFault) == Ok(true) <==> Accepts(db, s)
    ensures Accepts(db, s) <==> Good(s) && s.collectionId !in db.runs
  {
    GoodIsValid(s);
    GoodIsStorable(s);
    hide Topology.Valid;
    hide Tables.Storable;
    hide Tables.Matches;
    hide GoodHeader;
    hide GoodMachine;
    hide GoodRows;
    hide NoMetricTwice;
  }

  /** What `Ingest` answers after any history, for every snapshot and fault, in terms of what was first accepted under
      its id. */
  lemma AnswersExactly(es: seq<Event>, s: Snapshot, fault: Fault)
    ensures var accepted, answer := FirstAccepted(EMPTY, map[], es), Answer(Exec(EMPTY, es), s, fault);
            if !Valid(s) then answer.Err? && answer.error.InvalidSnapshot? && Validate(s) == Some(answer.error.reason)
            else if s.collectionId in accepted && s != accepted[s.collectionId] then
              answer == Err(PayloadReused(s.collectionId))
            else if s.collectionId !in accepted && !Good(s) then answer == Err(ConstraintViolation)
            else if fault != NoFault then answer == Err(Unavailable)
            else answer == Ok(s.collectionId !in accepted)
  {
    HistoryIdentifies(EMPTY, map[], es);
    GoodIsValid(s);
    GoodIsStorable(s);
    hide Topology.Valid;
    hide Tables.Storable;
    hide GoodHeader;
    hide GoodMachine;
    hide GoodRows;
    hide NoMetricTwice;
    hide Exec;
    hide FirstAccepted;
    if s.collectionId in Exec(EMPTY, es).runs {
      IdentifiedDecides(Exec(EMPTY, es).runs, FirstAccepted(EMPTY, map[], es), s);
    }
    hide Tables.Matches;
  }

  // ---------- runs ----------

  /** The errors of the first `i` instances. */
  function InstanceErrorsBefore(m: Machine, i: nat): nat
    requires i <= |m.instances|
  {
    if i == 0 then 0 else InstanceErrorsBefore(m, i - 1) + |m.instances[i - 1].errors|
  }

  /** The errors of the snapshot itself and of its first `k` machines. */
  function ErrorsBefore(s: Snapshot, k: nat): nat
    requires k <= |s.machines|
  {
    if k == 0 then |s.errors|
    else
      var m := s.machines[k - 1];
      ErrorsBefore(s, k - 1) + |m.errors| + InstanceErrorsBefore(m, |m.instances|)
  }

  function ErrorCount(s: Snapshot): nat { ErrorsBefore(s, |s.machines|) }

  lemma {:induction false} InstanceErrorsCounted(m: Machine, i: nat)
    requires i <= |m.instances|
    ensures |InstanceErrorRows(m.Id(), m.instances[..i])| == InstanceErrorsBefore(m, i)
  {
    if i > 0 {
      InstanceErrorsCounted(m, i - 1);
      assert m.instances[..i][..i - 1] == m.instances[..i - 1];
    }
  }

  lemma {:induction false} ErrorsCounted(s: Snapshot, k: nat)
    requires k <= |s.machines|
    ensures |s.errors| + |MachinesErrorRows(s.machines[..k])| == ErrorsBefore(s, k)
  {
    if k > 0 {
      ErrorsCounted(s, k - 1);
      assert s.machines[..k][..k - 1] == s.machines[..k - 1];
      var m := s.machines[k - 1];
      InstanceErrorsCounted(m, |m.instances|);
      assert m.instances[..|m.instances|] == m.instances;
    }
  }

  /** The row of a run tells when its collection was, how large, and whether anything went wrong in it. */
  predicate RunTells(run: Run, s: Snapshot) {
    && run.startedAt == s.startedAtMs && run.completedAt == s.completedAtMs
    && run.machineCount == |s.machines| && run.errorCount == ErrorCount(s) && (run.complete <==> ErrorCount(s) == 0)
    && run.sha256 == Some(Sha256(s)) && run.payload == if run.pruned then None else Some(s)
  }

  lemma RunOfTells(s: Snapshot)
    ensures RunTells(RunOf(s), s)
  {
    ErrorsCounted(s, |s.machines|);
    assert s.machines[..|s.machines|] == s.machines;
    hide MachinesErrorRows;
    hide ErrorsBefore;
  }

  // ---------- errors ----------

  /** Every error of the snapshot stands at its place: its own first, then for each machine the machine's own and those
      of its instances, each with its scope and the ids it belongs to. */
  ghost predicate ErrorsStand(t: ErrorTable, s: Snapshot) {
    && (forall n: nat :: (s.collectionId, n) in t <==> n < ErrorCount(s))
    && (forall j :: 0 <= j < |s.errors| ==> At(t, s, j) == Some(ErrorRow("snapshot", None, None, s.errors[j])))
    && (forall k, j :: 0 <= k < |s.machines| && 0 <= j < |s.machines[k].errors| ==>
          At(t, s, ErrorsBefore(s, k) + j)
          == Some(ErrorRow("machine", Some(s.machines[k].Id()), None, s.machines[k].errors[j])))
    && (forall k, i, j :: 0 <= k < |s.machines| && 0 <= i < |s.machines[k].instances|
                          && 0 <= j < |s.machines[k].instances[i].errors| ==>
          At(t, s, ErrorsBefore(s, k) + |s.machines[k].errors| + InstanceErrorsBefore(s.machines[k], i) + j)
          == Some(ErrorRow("instance", Some(s.machines[k].Id()), Some(s.machines[k].instances[i].instanceId),
                           s.machines[k].instances[i].errors[j])))
  }

  function At(t: ErrorTable, s: Snapshot, n: nat): Option<ErrorRow> {
    if (s.collectionId, n) in t then Some(t[(s.collectionId, n)]) else None
  }

  lemma {:induction false} InstanceErrorAt(m: Machine, n: nat, i: nat, j: nat)
    requires i < n <= |m.instances| && j < |m.instances[i].errors| && m.Id() != NIL_UUID
    requires m.instances[i].instanceId != NIL_UUID
    ensures var rows := InstanceErrorRows(m.Id(), m.instances[..n]);
            && InstanceErrorsBefore(m, i) + j < |rows|
            && rows[InstanceErrorsBefore(m, i) + j]
               == ErrorRow("instance", Some(m.Id()), Some(m.instances[i].instanceId), m.instances[i].errors[j])
  {
    assert m.instances[..n][..n - 1] == m.instances[..n - 1];
    InstanceErrorsCounted(m, n - 1);
    if i < n - 1 {
      InstanceErrorAt(m, n - 1, i, j);
    }
  }

  lemma {:induction false} MachineErrorsAt(s: Snapshot, n: nat, k: nat, j: nat)
    requires k < n <= |s.machines| && j < |MachineErrorRows(s.machines[k])|
    ensures var rows := MachinesErrorRows(s.machines[..n]);
            && |s.errors| <= ErrorsBefore(s, k) && ErrorsBefore(s, k) - |s.errors| + j < |rows|
            && rows[ErrorsBefore(s, k) - |s.errors| + j] == MachineErrorRows(s.machines[k])[j]
  {
    assert s.machines[..n][..n - 1] == s.machines[..n - 1];
    ErrorsCounted(s, n - 1);
    hide MachineErrorRows;
    hide ErrorsBefore;
    if k < n - 1 {
      MachineErrorsAt(s, n - 1, k, j);
    }
  }

  lemma FlatErrorAt(s: Snapshot, k: nat, j: nat)
    requires k < |s.machines| && j < |MachineErrorRows(s.machines[k])|
    ensures ErrorsBefore(s, k) + j < |FlatErrors(s)|
    ensures FlatErrors(s)[ErrorsBefore(s, k) + j] == MachineErrorRows(s.machines[k])[j]
  {
    hide MachineErrorRows;
    hide MachinesErrorRows;
    hide ErrorsBefore;
    MachineErrorsAt(s, |s.machines|, k, j);
    assert s.machines[..|s.machines|] == s.machines;
    var own, rest := ErrorRows("snapshot", NIL_UUID, NIL_UUID, s.errors), MachinesErrorRows(s.machines);
    assert FlatErrors(s) == own + rest && |own| == |s.errors|;
    hide FlatErrors;
    hide ErrorRows;
  }

  lemma MachineErrorStands(s: Snapshot, k: nat, j: nat)
    requires Valid(s) && k < |s.machines| && j < |s.machines[k].errors|
    ensures ErrorsBefore(s, k) + j < |FlatErrors(s)|
    ensures FlatErrors(s)[ErrorsBefore(s, k) + j]
         == ErrorRow("machine", Some(s.machines[k].Id()), None, s.machines[k].errors[j])
  {
    hide FlatErrors;
    hide ErrorsBefore;
    hide InstanceErrorRows;
    assert MachineOk(s.machines[k], s.completedAtMs);
    assert MachineErrorRows(s.machines[k])[j]
        == ErrorRow("machine", Some(s.machines[k].Id()), None, s.machines[k].errors[j]);
    FlatErrorAt(s, k, j);
  }

  lemma InstanceErrorStands(s: Snapshot, k: nat, i: nat, j: nat)
    requires Valid(s) && k < |s.machines| && i < |s.machines[k].instances|
    requires j < |s.machines[k].instances[i].errors|
    ensures var n := ErrorsBefore(s, k) + |s.machines[k].errors| + InstanceErrorsBefore(s.machines[k], i) + j;
            && n < |FlatErrors(s)|
            && FlatErrors(s)[n] == ErrorRow("instance", Some(s.machines[k].Id()),
                                            Some(s.machines[k].instances[i].instanceId),
                                            s.machines[k].instances[i].errors[j])
  {
    hide FlatErrors;
    hide ErrorsBefore;
    hide InstanceErrorsBefore;
    hide InstanceErrorRows;
    var m := s.machines[k];
    assert MachineOk(m, s.completedAtMs) && InstanceOk(m.instances[i], s.completedAtMs);
    InstanceErrorAt(m, |m.instances|, i, j);
    assert m.instances[..|m.instances|] == m.instances;
    var own := ErrorRows("machine", m.Id(), NIL_UUID, m.errors);
    assert |own| == |m.errors| && MachineErrorRows(m) == own + InstanceErrorRows(m.Id(), m.instances);
    hide ErrorRows;
    FlatErrorAt(s, k, |m.errors| + InstanceErrorsBefore(m, i) + j);
    hide MachineErrorRows;
  }

  lemma SnapshotErrorStands(s: Snapshot, j: nat)
    requires j < |s.errors|
    ensures j < |FlatErrors(s)| && FlatErrors(s)[j] == ErrorRow("snapshot", None, None, s.errors[j])
  {
    hide MachinesErrorRows;
  }

  lemma ErrorsFlat(s: Snapshot)
    ensures |FlatErrors(s)| == ErrorCount(s)
  {
    ErrorsCounted(s, |s.machines|);
    assert s.machines[..|s.machines|] == s.machines;
    hide MachinesErrorRows;
    hide ErrorsBefore;
  }

  /** A table with exactly these rows under the collection's id. */
  ghost predicate Holds(t: ErrorTable, s: Snapshot) {
    forall n: nat :: At(t, s, n) == if n < |FlatErrors(s)| then Some(FlatErrors(s)[n]) else None
  }

  lemma HeldErrorsStand(t: ErrorTable, s: Snapshot)
    requires Valid(s) && Holds(t, s)
    ensures ErrorsStand(t, s)
  {
    ErrorsFlat(s);
    hide FlatErrors;
    hide ErrorCount;
    hide ErrorsBefore;
    hide InstanceErrorsBefore;
    hide Topology.Valid;
    forall n: nat ensures (s.collectionId, n) in t <==> n < ErrorCount(s) {
      assert At(t, s, n) == if n < |FlatErrors(s)| then Some(FlatErrors(s)[n]) else None;
    }
    forall j: nat | j < |s.errors| ensures At(t, s, j) == Some(ErrorRow("snapshot", None, None, s.errors[j])) {
      SnapshotErrorStands(s, j);
    }
    forall k: nat, j: nat | k < |s.machines| && j < |s.machines[k].errors|
      ensures At(t, s, ErrorsBefore(s, k) + j)
              == Some(ErrorRow("machine", Some(s.machines[k].Id()), None, s.machines[k].errors[j]))
    {
      MachineErrorStands(s, k, j);
    }
    forall k: nat, i: nat, j: nat | k < |s.machines| && i < |s.machines[k].instances|
                                    && j < |s.machines[k].instances[i].errors|
      ensures At(t, s, ErrorsBefore(s, k) + |s.machines[k].errors| + InstanceErrorsBefore(s.machines[k], i) + j)
              == Some(ErrorRow("instance", Some(s.machines[k].Id()), Some(s.machines[k].instances[i].instanceId),
                               s.machines[k].instances[i].errors[j]))
    {
      InstanceErrorStands(s, k, i, j);
    }
  }

  // ---------- samples ----------

  /** The sample at this key is one of the snapshot's metrics, with its value and the time of its instance. */
  ghost predicate Measured(s: Snapshot, key: MetricKey, row: MetricRow) {
    exists m, x, y :: m in s.machines && x in m.instances && y in x.metrics
                      && key.instanceId == x.instanceId && key.name == y.name && key.labels == y.labels
                      && row.value == y.value && row.observedAt == x.observedAtMs
  }

  lemma {:induction false} AddedSample(t: MetricTable, samples: seq<Sample>, key: MetricKey)
    requires key in AddSamples(t, samples)
    ensures (key in t && AddSamples(t, samples)[key] == t[key])
            || Sample(key, AddSamples(t, samples)[key]) in samples
  {
    if samples != [] {
      var front, x := samples[..|samples| - 1], samples[|samples| - 1];
      assert samples == front + [x];
      if key != x.key {
        AddedSample(t, front, key);
      }
    }
  }

  /** Every sample that an accepted snapshot adds is one of its metrics. */
  lemma AddedIsMeasured(t: MetricTable, s: Snapshot, key: MetricKey)
    requires key in AddSamples(t, FlatSamples(StampOf(s), FlatInstances(s.machines))) && key !in t
    ensures var row := AddSamples(t, FlatSamples(StampOf(s), FlatInstances(s.machines)))[key];
            key.collectionId == s.collectionId && Measured(s, key, row)
  {
    var xs := FlatInstances(s.machines);
    var samples := FlatSamples(StampOf(s), xs);
    AddedSample(t, samples, key);
    var n :| 0 <= n < |samples| && samples[n].key == key && samples[n].row == AddSamples(t, samples)[key];
    var a, j := SampleFrom(StampOf(s), xs, n);
    SampleAt(StampOf(s), xs, a, j);
    hide FlatSamples;
    hide MetricsBefore;
    hide AddSamples;
    FlatHas(s.machines, xs[a]);
    hide FlatInstances;
    assert xs[a] in xs && xs[a].metrics[j] in xs[a].metrics;
  }

  /** And every metric of a snapshot is there. */
  lemma MetricIsAdded(t: MetricTable, s: Snapshot, m: Machine, x: Instance, y: Metric)
    requires Storable(s) && m in s.machines && x in m.instances && y in x.metrics
    ensures MetricKey(s.collectionId, x.instanceId, y.name, y.labels)
            in AddSamples(t, FlatSamples(StampOf(s), FlatInstances(s.machines)))
  {
    var xs := FlatInstances(s.machines);
    FlatHas(s.machines, x);
    hide FlatInstances;
    var a: nat :| a < |xs| && xs[a] == x;
    var j: nat :| j < |x.metrics| && x.metrics[j] == y;
    SampleAt(StampOf(s), xs, a, j);
    hide FlatSamples;
    AddSamplesKeys(t, FlatSamples(StampOf(s), xs), MetricKey(s.collectionId, x.instanceId, y.name, y.labels));
  }

  // ---------- over histories ----------

  ghost predicate Listed(s: Snapshot, key: MetricKey) {
    exists m, x, y :: m in s.machines && x in m.instances && y in x.metrics
                      && key == MetricKey(s.collectionId, x.instanceId, y.name, y.labels)
  }

  ghost predicate NeverDeleted(es: seq<Event>, key: MetricKey) {
    forall e :: e in es && e.DeleteSamples? ==> key !in e.keys
  }

  ghost predicate RunsTell(db: Db, accepted: map<Uuid, Snapshot>) {
    && db.runs.Keys == accepted.Keys
    && (forall id :: id in accepted ==>
          accepted[id].collectionId == id && Good(accepted[id]) && RunTells(db.runs[id], accepted[id]))
  }

  ghost predicate ErrorsTell(db: Db, accepted: map<Uuid, Snapshot>) {
    && (forall key :: key in db.errors ==> key.0 in accepted)
    && (forall id :: id in accepted ==> ErrorsStand(db.errors, accepted[id]))
  }

  ghost predicate SamplesTell(db: Db, accepted: map<Uuid, Snapshot>) {
    forall key :: key in db.metrics ==>
      key.collectionId in accepted && Measured(accepted[key.collectionId], key, db.metrics[key])
  }

  ghost predicate SamplesKept(db: Db, accepted: map<Uuid, Snapshot>, es: seq<Event>) {
    forall id, key :: id in accepted && Listed(accepted[id], key) && NeverDeleted(es, key) ==> key in db.metrics
  }

  lemma PrunedTells(runs: map<Uuid, Run>, ids: set<Uuid>, id: Uuid, s: Snapshot)
    requires id in runs && RunTells(runs[id], s)
    ensures RunTells(PruneRuns(runs, ids)[id], s)
  {
    hide ErrorCount;
  }

  lemma AcceptedRunTells(db: Db, accepted: map<Uuid, Snapshot>, s: Snapshot)
    requires RunsTell(db, accepted) && Good(s)
    ensures RunsTell(db.(runs := db.runs[s.collectionId := RunOf(s)]), accepted[s.collectionId := s])
  {
    RunOfTells(s);
    hide RunOf;
    hide RunTells;
    hide Good;
  }

  lemma RunsTellStep(db: Db, accepted: map<Uuid, Snapshot>, e: Event)
    requires RunsTell(db, accepted)
    ensures RunsTell(Apply(db, e), NextAccepted(db, accepted, e))
  {
    ApplyRuns(db, e);
    hide Apply;
    hide Accepts;
    hide RunOf;
    hide Good;
    hide RunTells;
    if e.Deliver? && Accepts(db, e.snapshot) {
      InsertedExactly(db, e.snapshot, NoFault);
      AcceptedRunTells(db, accepted, e.snapshot);
    } else if e.Prune? {
      forall id | id in accepted ensures RunTells(PruneRuns(db.runs, e.ids)[id], accepted[id]) {
        PrunedTells(db.runs, e.ids, id, accepted[id]);
      }
      assert PruneRuns(db.runs, e.ids).Keys == db.runs.Keys;
    }
    hide PruneRuns;
  }

  lemma ErrorsApply(db: Db, e: Event)
    ensures Apply(db, e).errors == if e.Deliver? && Accepts(db, e.snapshot)
                                   then AddErrors(db.errors, e.snapshot.collectionId, 0, FlatErrors(e.snapshot))
                                   else db.errors
    ensures Apply(db, e).metrics
         == if e.Deliver? && Accepts(db, e.snapshot)
            then AddSamples(db.metrics, FlatSamples(StampOf(e.snapshot), FlatInstances(e.snapshot.machines)))
            else if e.DeleteSamples? then db.metrics - e.keys else db.metrics
  {
    hide Accepts;
    hide MachinesAfter;
    hide InstancesAfter;
    hide RunOf;
  }

  lemma NewErrorsHold(t: ErrorTable, s: Snapshot)
    requires forall n: nat :: (s.collectionId, n) !in t
    ensures Holds(AddErrors(t, s.collectionId, 0, FlatErrors(s)), s)
  {
    forall n: nat
      ensures At(AddErrors(t, s.collectionId, 0, FlatErrors(s)), s, n)
              == if n < |FlatErrors(s)| then Some(FlatErrors(s)[n]) else None
    {
      AddErrorsKeys(t, s.collectionId, 0, FlatErrors(s), (s.collectionId, n));
    }
  }

  lemma OtherErrorsStand(t: ErrorTable, s: Snapshot, cid: Uuid, rows: seq<ErrorRow>)
    requires s.collectionId != cid && ErrorsStand(t, s)
    ensures ErrorsStand(AddErrors(t, cid, 0, rows), s)
  {
    var t' := AddErrors(t, cid, 0, rows);
    forall n: nat ensures ((s.collectionId, n) in t' <==> (s.collectionId, n) in t) && At(t', s, n) == At(t, s, n) {
      AddErrorsKeys(t, cid, 0, rows, (s.collectionId, n));
    }
    hide AddErrors;
    hide At;
    hide ErrorCount;
  }

  lemma ErrorsTellStep(db: Db, accepted: map<Uuid, Snapshot>, e: Event)
    requires RunsTell(db, accepted) && ErrorsTell(db, accepted)
    ensures ErrorsTell(Apply(db, e), NextAccepted(db, accepted, e))
  {
    ErrorsApply(db, e);
    hide Apply;
    hide Good;
    hide ErrorsStand;
    hide RunTells;
    if e.Deliver? && Accepts(db, e.snapshot) {
      var s, t' := e.snapshot, Apply(db, e).errors;
      NewErrorsHold(db.errors, s);
      HeldErrorsStand(t', s);
      forall key | key in t' ensures key.0 in accepted || key.0 == s.collectionId {
        AddErrorsKeys(db.errors, s.collectionId, 0, FlatErrors(s), key);
      }
      hide Accepts;
      forall id | id in accepted && id != s.collectionId ensures ErrorsStand(t', accepted[id]) {
        OtherErrorsStand(db.errors, accepted[id], s.collectionId, FlatErrors(s));
      }
    }
  }

  lemma {:induction false} AddedKeeps(t: MetricTable, samples: seq<Sample>, key: MetricKey)
    requires key in t && forall x :: x in samples ==> x.key != key
    ensures key in AddSamples(t, samples) && AddSamples(t, samples)[key] == t[key]
  {
    if samples != [] {
      assert samples[|samples| - 1] in samples;
      AddedKeeps(t, samples[..|samples| - 1], key);
    }
  }

  lemma OldSampleStays(t: MetricTable, s: Snapshot, key: MetricKey)
    requires key in t && key.collectionId != s.collectionId
    ensures var t' := AddSamples(t, FlatSamples(StampOf(s), FlatInstances(s.machines))); key in t' && t'[key] == t[key]
  {
    var samples := FlatSamples(StampOf(s), FlatInstances(s.machines));
    forall x | x in samples ensures x.key != key {
      var n :| 0 <= n < |samples| && samples[n] == x;
      FlatSamplesKeys(StampOf(s), FlatInstances(s.machines), n);
    }
    AddedKeeps(t, samples, key);
  }

  lemma SamplesTellStep(db: Db, accepted: map<Uuid, Snapshot>, e: Event)
    requires RunsTell(db, accepted) && SamplesTell(db, accepted)
    ensures SamplesTell(Apply(db, e), NextAccepted(db, accepted, e))
  {
    ErrorsApply(db, e);
    hide Apply;
    hide AddSamples;
    hide FlatSamples;
    hide FlatInstances;
    hide Topology.Valid;
    hide Tables.Storable;
    hide Good;
    hide Measured;
    hide RunTells;
    if e.Deliver? && Accepts(db, e.snapshot) {
      var s, t' := e.snapshot, Apply(db, e).metrics;
      forall key | key in t'
        ensures key.collectionId in NextAccepted(db, accepted, e)
                && Measured(NextAccepted(db, accepted, e)[key.collectionId], key, t'[key])
      {
        if key in db.metrics {
          OldSampleStays(db.metrics, s, key);
        } else {
          AddedIsMeasured(db.metrics, s, key);
        }
      }
    }
  }

  lemma SamplesKeptStep(db: Db, accepted: map<Uuid, Snapshot>, front: seq<Event>, e: Event)
    requires RunsTell(db, accepted) && SamplesKept(db, accepted, front)
    ensures SamplesKept(Apply(db, e), NextAccepted(db, accepted, e), front + [e])
  {
    var accepted' := NextAccepted(db, accepted, e);
    ErrorsApply(db, e);
    hide Apply;
    hide AddSamples;
    hide FlatSamples;
    hide FlatInstances;
    hide Topology.Valid;
    hide Tables.Storable;
    hide Good;
    hide RunTells;
    forall id, key | id in accepted' && Listed(accepted'[id], key) && NeverDeleted(front + [e], key)
      ensures key in Apply(db, e).metrics
    {
      assert NeverDeleted(front, key) && (e.DeleteSamples? ==> key !in e.keys) by {
        assert e in front + [e] && forall x :: x in front ==> x in front + [e];
      }
      if id in db.runs {
        if e.Deliver? && Accepts(db, e.snapshot) {
          OldSampleStays(db.metrics, e.snapshot, key);
        }
      } else {
        var s := e.snapshot;
        var m, x, y :| m in s.machines && x in m.instances && y in x.metrics
                       && key == MetricKey(s.collectionId, x.instanceId, y.name, y.labels);
        MetricIsAdded(db.metrics, s, m, x, y);
      }
    }
  }

  /** After any history the database holds a run for exactly the snapshots that were accepted, each telling when it was
      collected and how large it was; their errors, every one at its place; and of their metrics those that no retention
      has deleted, with value and time. */
  lemma {:induction false} RecordsAreTheSnapshots(es: seq<Event>)
    ensures var db, accepted := Exec(EMPTY, es), FirstAccepted(EMPTY, map[], es);
            && RunsTell(db, accepted) && ErrorsTell(db, accepted)
            && SamplesTell(db, accepted) && SamplesKept(db, accepted, es)
  {
    hide Apply;
    hide NextAccepted;
    hide RunsTell;
    hide ErrorsTell;
    hide SamplesTell;
    hide SamplesKept;
    if es == [] {
      NothingRecorded();
    } else {
      var front, e := es[..|es| - 1], es[|es| - 1];
      assert es == front + [e];
      var db, accepted := Exec(EMPTY, front), FirstAccepted(EMPTY, map[], front);
      RecordsAreTheSnapshots(front);
      RunsTellStep(db, accepted, e);
      ErrorsTellStep(db, accepted, e);
      SamplesTellStep(db, accepted, e);
      SamplesKeptStep(db, accepted, front, e);
    }
  }

  lemma NothingRecorded()
    ensures RunsTell(EMPTY, map[]) && ErrorsTell(EMPTY, map[]) && SamplesTell(EMPTY, map[])
    ensures SamplesKept(EMPTY, map[], [])
  {
  }

  // ---------- whose rows they are ----------

  /** The collections on record, each with its completion. */
  ghost function Completions(runs: map<Uuid, Run>): set<(Uuid, nat)> {
    set id | id in runs :: (id, runs[id].completedAt)
  }

  ghost predicate MachinesStamped(t: MachineTable, known: set<(Uuid, nat)>) {
    forall id :: id in t ==> (t[id].collectionId, t[id].completedAt) in known
  }

  ghost predicate InstancesStamped(t: InstanceTable, known: set<(Uuid, nat)>) {
    forall id :: id in t ==> (t[id].collectionId, t[id].completedAt) in known
  }

  ghost predicate NodesStamped(t: NodeTable, known: set<(Uuid, nat)>) {
    forall id :: id in t ==> (t[id].collectionId, t[id].completedAt) in known
  }

  ghost predicate PeersStamped(t: PeerTable, known: set<(Uuid, nat)>) {
    forall key :: key in t ==> (t[key].collectionId, t[key].completedAt) in known
  }

  lemma {:induction false} UpsertMachinesStamped(t: MachineTable, at: Stamp, ms: seq<Machine>, known: set<(Uuid, nat)>)
    requires MachinesStamped(t, known) && (at.collectionId, at.completedAt) in known
    ensures MachinesStamped(UpsertMachines(t, at, ms), known)
  {
    hide Before;
    if ms != [] {
      UpsertMachinesStamped(t, at, ms[..|ms| - 1], known);
    }
  }

  lemma {:induction false} UpsertInstancesStamped(t: InstanceTable, at: Stamp, m: Uuid, xs: seq<Instance>,
                                                  known: set<(Uuid, nat)>)
    requires InstancesStamped(t, known) && (at.collectionId, at.completedAt) in known
    ensures InstancesStamped(UpsertInstances(t, at, m, xs), known)
  {
    hide Before;
    if xs != [] {
      UpsertInstancesStamped(t, at, m, xs[..|xs| - 1], known);
    }
  }

  lemma {:induction false} InstancesOfMachinesStamped(t: InstanceTable, at: Stamp, ms: seq<Machine>,
                                                      known: set<(Uuid, nat)>)
    requires InstancesStamped(t, known) && (at.collectionId, at.completedAt) in known
    ensures InstancesStamped(InstancesOfMachines(t, at, ms), known)
  {
    if ms != [] {
      var front, m := ms[..|ms| - 1], ms[|ms| - 1];
      InstancesOfMachinesStamped(t, at, front, known);
      UpsertInstancesStamped(InstancesOfMachines(t, at, front), at, m.Id(), m.instances, known);
      hide UpsertInstances;
    }
  }

  lemma {:induction false} UpsertNodesStamped(t: NodeTable, at: Stamp, xs: seq<Instance>, known: set<(Uuid, nat)>)
    requires NodesStamped(t, known) && (at.collectionId, at.completedAt) in known
    ensures NodesStamped(UpsertNodes(t, at, xs), known)
  {
    hide Before;
    if xs != [] {
      UpsertNodesStamped(t, at, xs[..|xs| - 1], known);
    }
  }

  lemma {:induction false} UpsertPeersStamped(t: PeerTable, at: Stamp, i: Instance, ps: seq<Peer>,
                                              known: set<(Uuid, nat)>)
    requires PeersStamped(t, known) && (at.collectionId, at.completedAt) in known
    ensures PeersStamped(UpsertPeers(t, at, i, ps), known)
  {
    hide Before;
    if ps != [] {
      UpsertPeersStamped(t, at, i, ps[..|ps| - 1], known);
    }
  }

  lemma {:induction false} PeersOfInstancesStamped(t: PeerTable, at: Stamp, xs: seq<Instance>, known: set<(Uuid, nat)>)
    requires PeersStamped(t, known) && (at.collectionId, at.completedAt) in known
    ensures PeersStamped(PeersOfInstances(t, at, xs), known)
  {
    if xs != [] {
      var front, x := xs[..|xs| - 1], xs[|xs| - 1];
      PeersOfInstancesStamped(t, at, front, known);
      UpsertPeersStamped(PeersOfInstances(t, at, front), at, x, x.peers, known);
      hide UpsertPeers;
    }
  }

  /** Every row is stamped with a collection on record and that collection's completion. */
  ghost predicate Stamped(db: Db) {
    var known := Completions(db.runs);
    && MachinesStamped(db.machines, known) && InstancesStamped(db.instances, known)
    && NodesStamped(db.nodes, known) && PeersStamped(db.peers, known)
  }

  lemma CommitStamped(db: Db, s: Snapshot, known: set<(Uuid, nat)>)
    requires MachinesStamped(db.machines, known) && InstancesStamped(db.instances, known)
    requires NodesStamped(db.nodes, known) && PeersStamped(db.peers, known)
    requires (s.collectionId, s.completedAtMs as nat) in known
    ensures MachinesStamped(MachinesAfter(db.machines, s), known)
    ensures InstancesStamped(InstancesAfter(db.instances, s), known)
    ensures NodesStamped(UpsertNodes(db.nodes, StampOf(s), FlatInstances(s.machines)), known)
    ensures PeersStamped(PeersOfInstances(db.peers, StampOf(s), FlatInstances(s.machines)), known)
  {
    var at, xs := StampOf(s), FlatInstances(s.machines);
    UpsertMachinesStamped(db.machines, at, s.machines, known);
    InstancesOfMachinesStamped(db.instances, at, s.machines, known);
    UpsertNodesStamped(db.nodes, at, xs, known);
    PeersOfInstancesStamped(db.peers, at, xs, known);
    hide UpsertMachines;
    hide InstancesOfMachines;
    hide UpsertNodes;
    hide PeersOfInstances;
  }

  lemma CompletionsStay(db: Db, e: Event)
    ensures Completions(db.runs) <= Completions(Apply(db, e).runs)
    ensures e.Deliver? && Accepts(db, e.snapshot) ==>
              (e.snapshot.collectionId, e.snapshot.completedAtMs as nat) in Completions(Apply(db, e).runs)
  {
    ApplyRuns(db, e);
    hide Apply;
    var runs := Apply(db, e).runs;
    assert forall id :: id in db.runs ==> id in runs && runs[id].completedAt == db.runs[id].completedAt;
    if e.Deliver? && Accepts(db, e.snapshot) {
      assert e.snapshot.collectionId in runs;
    }
  }

  /** After any history every row of a machine, instance, node or peer names an accepted collection, and carries its
      completion. */
  lemma {:induction false} RowsAreStamped(es: seq<Event>)
    ensures Stamped(Exec(EMPTY, es))
  {
    hide Apply;
    hide Accepts;
    hide MachinesAfter;
    hide InstancesAfter;
    hide UpsertNodes;
    hide PeersOfInstances;
    hide Completions;
    if es != [] {
      var db, e := Exec(EMPTY, es[..|es| - 1]), es[|es| - 1];
      RowsAreStamped(es[..|es| - 1]);
      hide Exec;
      CompletionsStay(db, e);
      ApplyCurrent(db, e);
      if e.Deliver? && Accepts(db, e.snapshot) {
        CommitStamped(db, e.snapshot, Completions(Apply(db, e).runs));
      }
    }
  }
}
