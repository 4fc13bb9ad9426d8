/** The gauge registry behind the metrics endpoint: three gauge vectors kept in step with the
    set of known label sets
    (fractioning-manager/metricsd/internal/metrics/exporter.go). */
module Exporter {
  import opened Text
  import opened Engine

  datatype Labels = Labels(namespace: string, pod: string, podUUID: string, gpuUUID: string, gpu: string)

  datatype Values = Values(memory: real, sm: real, normalized: real)

  const ZERO := Values(0.0, 0.0, 0.0)

  /** What a scrape shows, by key. */
  type Series = map<PodGPUKey, Values>

  /** metricLabels. */
  function LabelsOf(k: PodGPUKey): Labels { Labels(k.namespace, k.pod, k.podUID, k.gpuUUID, Itoa(k.gpuIndex)) }

  function ValuesOf(m: Metric): Values { Values(m.memory as real, m.sm, m.normalized) }

  /** The key a label set came from. */
  function KeyOfLabels(l: Labels): PodGPUKey {
    PodGPUKey(l.namespace, l.pod, l.podUUID, l.gpuUUID, match ParseDecimal(l.gpu) case Some(i) => i case None => 0)
  }

  /** A way of labelling keys and of reading labels back, of which the two above are in use. */
  datatype Labelling = Labelling(tagOf: PodGPUKey -> Labels, keyOf: Labels -> PodGPUKey)

  ghost predicate Faithful(c: Labelling) { forall k :: c.keyOf(c.tagOf(k)) == k }

  /** Different keys have different label sets, so deleting one series never touches another. */
  lemma LabelsIdentifyKeys()
    ensures Faithful(Labelling(LabelsOf, KeyOfLabels))
  {
    forall k ensures KeyOfLabels(LabelsOf(k)) == k { ItoaRoundTrip(k.gpuIndex); }
  }

  // ---------------------------------------------------------------- one observation

  predicate PodActive(active: Option<set<string>>, k: PodGPUKey) { active.Some? ==> k.podUID in active.value }

  /** An idle placeholder for a GPU that the other key names by UUID. */
  predicate PlaceholderFor(idle: PodGPUKey, seen: PodGPUKey) {
    seen.gpuUUID != "" && idle.gpuUUID == "" && idle.namespace == seen.namespace && idle.podUID == seen.podUID
        && idle.gpuIndex == seen.gpuIndex
  }

  function Retained(s: Series, active: Option<set<string>>): Series { map k | k in s && PodActive(active, k) :: ZERO }

  function Shown(s: Series, m: Metric): Series {
    (map k | k in s && !PlaceholderFor(k, m.key) :: s[k])[m.key := ValuesOf(m)]
  }

  function ShownAll(s: Series, metrics: seq<Metric>): Series {
    if metrics == [] then s else Shown(ShownAll(s, metrics[..|metrics| - 1]), metrics[|metrics| - 1])
  }

  /** The registry after observing a snapshot. */
  function AfterObserve(s: Series, metrics: seq<Metric>, active: Option<set<string>>): Series {
    ShownAll(Retained(s, active), metrics)
  }

  // ---------------------------------------------------------------- main results

  predicate InSnapshot(metrics: seq<Metric>, k: PodGPUKey) { exists i :: 0 <= i < |metrics| && metrics[i].key == k }

  /** From any series whatsoever: after the rows of a snapshot a series is shown exactly if its row
      comes after every row that makes it a placeholder, or it has no row, was shown before and no
      row makes it a placeholder. A row shows its values, everything else what it showed before. */
  lemma {:induction false} SeriesAfterObserve(s: Series, metrics: seq<Metric>, k: PodGPUKey)
    requires DistinctKeys(metrics)
    ensures forall i :: 0 <= i < |metrics| && metrics[i].key == k ==>
              (k in ShownAll(s, metrics) <==> forall j :: i < j < |metrics| ==> !PlaceholderFor(k, metrics[j].key))
              && (k in ShownAll(s, metrics) ==> ShownAll(s, metrics)[k] == ValuesOf(metrics[i]))
    ensures !InSnapshot(metrics, k) ==>
              (k in ShownAll(s, metrics) <==> k in s && forall j :: 0 <= j < |metrics| ==>
                  !PlaceholderFor(k, metrics[j].key))
              && (k in ShownAll(s, metrics) ==> ShownAll(s, metrics)[k] == s[k])
  {
    if metrics != [] {
      var front, last := metrics[..|metrics| - 1], metrics[|metrics| - 1];
      SeriesAfterObserve(s, front, k);
      assert forall j :: 0 <= j < |front| ==> front[j] == metrics[j];
      if !InSnapshot(metrics, k) {
        assert last.key != k;
        forall j | 0 <= j < |front| ensures front[j].key != k { assert metrics[j].key != k; }
      } else if last.key == k {
        assert forall j :: 0 <= j < |front| ==> metrics[j].key != k;
      }
    }
  }

  /** A snapshot lists each GPU of a pod once. */
  predicate OnePerGPU(metrics: seq<Metric>) {
    forall i, j :: 0 <= i < j < |metrics| ==>
      !(metrics[i].key.namespace == metrics[j].key.namespace && metrics[i].key.podUID == metrics[j].key.podUID
        && metrics[i].key.gpuIndex == metrics[j].key.gpuIndex)
  }

  /** A series without UUID at the GPU of a row that has one. */
  predicate BesideNamed(k: PodGPUKey, metrics: seq<Metric>) {
    exists m | m in metrics ::
      && k.gpuUUID == "" && m.key.gpuUUID != "" && k.namespace == m.key.namespace && k.podUID == m.key.podUID
      && k.gpuIndex == m.key.gpuIndex
  }

  /** When the snapshot lists each GPU of a pod once, every row is shown with its values; any other
      series is shown exactly if it was before, its pod is among the active ones, if those are known,
      and it does not stand beside a row that names its GPU, and then it shows zero. */
  lemma ObserveShowsSnapshot(s: Series, metrics: seq<Metric>, active: Option<set<string>>)
    requires OnePerGPU(metrics)
    ensures var r := AfterObserve(s, metrics, active);
            && (forall i :: 0 <= i < |metrics| ==> metrics[i].key in r && r[metrics[i].key] == ValuesOf(metrics[i]))
            && (forall k :: !InSnapshot(metrics, k) ==>
                  (k in r <==> k in s && (active.Some? ==> k.podUID in active.value) && !BesideNamed(k, metrics)))
            && (forall k :: k in r && !InSnapshot(metrics, k) ==> r[k] == Values(0.0, 0.0, 0.0))
            && (forall k :: k in r ==> !BesideNamed(k, metrics))
  {
    var r, start := AfterObserve(s, metrics, active), Retained(s, active);
    assert DistinctKeys(metrics);
    forall i | 0 <= i < |metrics| ensures metrics[i].key in r && r[metrics[i].key] == ValuesOf(metrics[i]) {
      SeriesAfterObserve(start, metrics, metrics[i].key);
    }
    forall k | !InSnapshot(metrics, k)
      ensures k in r <==> k in s && (active.Some? ==> k.podUID in active.value) && !BesideNamed(k, metrics)
      ensures k in r ==> r[k] == ZERO
    {
      SeriesAfterObserve(start, metrics, k);
      BesideIsPlaceholder(k, metrics);
    }
    forall k | k in r ensures !BesideNamed(k, metrics) {
      if InSnapshot(metrics, k) { RowsAreNotBeside(k, metrics); }
    }
  }

  lemma BesideIsPlaceholder(k: PodGPUKey, metrics: seq<Metric>)
    ensures BesideNamed(k, metrics) <==> exists j :: 0 <= j < |metrics| && PlaceholderFor(k, metrics[j].key)
  {
    if j :| 0 <= j < |metrics| && PlaceholderFor(k, metrics[j].key) { assert metrics[j] in metrics; }
  }

  lemma RowsAreNotBeside(k: PodGPUKey, metrics: seq<Metric>)
    requires OnePerGPU(metrics) && InSnapshot(metrics, k)
    ensures !BesideNamed(k, metrics)
  {
    var i :| 0 <= i < |metrics| && metrics[i].key == k;
    BesideIsPlaceholder(k, metrics);
  }

  /** Without that, a placeholder row survives exactly if it comes after the row that names its
      GPU: what a scrape shows then depends on the order of the snapshot. */
  lemma PlaceholderSurvivalDependsOnOrder(s: Series, idle: Metric, seen: Metric, active: Option<set<string>>)
    requires PlaceholderFor(idle.key, seen.key)
    ensures idle.key !in AfterObserve(s, [idle, seen], active)
    ensures idle.key in AfterObserve(s, [seen, idle], active)
  {
    var start := Retained(s, active);
    SeriesAfterObserve(start, [idle, seen], idle.key);
    SeriesAfterObserve(start, [seen, idle], idle.key);
    assert [idle, seen][0].key == idle.key && [idle, seen][1].key == seen.key;
    assert [seen, idle][1].key == idle.key;
  }

  // ---------------------------------------------------------------- the code

  type Vector = map<Labels, real>

  /** A vector with exactly the labels of the given series and, under each, one of its values. */
  ghost predicate Shows(vector: Vector, s: Series, c: Labelling, field: Values -> real) {
    && (forall k {:trigger c.tagOf(k)} :: k in s ==> c.tagOf(k) in vector && vector[c.tagOf(k)] == field(s[k]))
    && (forall l {:trigger c.keyOf(l)} :: l in vector ==> c.keyOf(l) in s && c.tagOf(c.keyOf(l)) == l)
  }

  function MemoryField(v: Values): real { v.memory }

  function SMField(v: Values): real { v.sm }

  function NormalizedField(v: Values): real { v.normalized }

  lemma ShowsAfterSet(vector: Vector, s: Series, c: Labelling, field: Values -> real, key: PodGPUKey, v: Values)
    requires Faithful(c) && Shows(vector, s, c, field)
    ensures Shows(vector[c.tagOf(key) := field(v)], s[key := v], c, field)
  {
    assert c.keyOf(c.tagOf(key)) == key;
  }

  lemma ShowsAfterDelete(vector: Vector, s: Series, c: Labelling, field: Values -> real, key: PodGPUKey)
    requires Faithful(c) && Shows(vector, s, c, field)
    ensures Shows(vector - {c.tagOf(key)}, s - {key}, c, field)
    ensures key !in s ==> vector - {c.tagOf(key)} == vector
  {
    assert c.keyOf(c.tagOf(key)) == key;
    if key !in s { assert c.tagOf(key) !in vector; }
  }

  /** The labels known are those of the series. */
  ghost predicate Knows(known: map<PodGPUKey, Labels>, s: Series, c: Labelling) {
    known.Keys == s.Keys && forall k :: k in known ==> known[k] == c.tagOf(k)
  }

  class Registry {
    var memoryBytes: Vector
    var smUtilization: Vector
    var smUtilizationNormalized: Vector
    var knownLabels: map<PodGPUKey, Labels>
    /** What a scrape shows, by key. */
    ghost var shown: Series
    const labels: Labelling

    /** All three vectors hold exactly the known label sets, with the shown values. */
    ghost predicate InStep()
      reads this
    {
      && Faithful(labels)
      && Knows(knownLabels, shown, labels)
      && Shows(memoryBytes, shown, labels, MemoryField)
      && Shows(smUtilization, shown, labels, SMField)
      && Shows(smUtilizationNormalized, shown, labels, NormalizedField)
    }

    constructor ()
      ensures InStep() && shown == map[] && labels == Labelling(LabelsOf, KeyOfLabels)
    {
      LabelsIdentifyKeys();
      labels := Labelling(LabelsOf, KeyOfLabels);
      memoryBytes, smUtilization, smUtilizationNormalized, knownLabels := map[], map[], map[], map[];
      shown := map[];
    }

    /** Registers the key if new and sets its three gauges. */
    method SetSeries(key: PodGPUKey, tag: Labels, v: Values)
      requires InStep() && tag == labels.tagOf(key)
      modifies this
      ensures InStep() && shown == old(shown)[key := v]
      ensures knownLabels == old(knownLabels)[key := tag]
    {
      ShowsAfterSet(memoryBytes, shown, labels, MemoryField, key, v);
      ShowsAfterSet(smUtilization, shown, labels, SMField, key, v);
      ShowsAfterSet(smUtilizationNormalized, shown, labels, NormalizedField, key, v);
      memoryBytes := memoryBytes[tag := v.memory];
      smUtilization := smUtilization[tag := v.sm];
      smUtilizationNormalized := smUtilizationNormalized[tag := v.normalized];
      knownLabels := knownLabels[key := tag];
      shown := shown[key := v];
    }

    method DeleteSeries(key: PodGPUKey)
      requires InStep()
      modifies this
      ensures InStep() && shown == old(shown) - {key}
    {
      ShowsAfterDelete(memoryBytes, shown, labels, MemoryField, key);
      ShowsAfterDelete(smUtilization, shown, labels, SMField, key);
      ShowsAfterDelete(smUtilizationNormalized, shown, labels, NormalizedField, key);
      if key in knownLabels {
        var tag := knownLabels[key];
        memoryBytes := memoryBytes - {tag};
        smUtilization := smUtilization - {tag};
        smUtilizationNormalized := smUtilizationNormalized - {tag};
      }
      knownLabels := knownLabels - {key};
      shown := shown - {key};
    }

    method PruneDeletedPods(active: Option<set<string>>)
      requires InStep()
      modifies this
      ensures InStep() && shown == map k | k in old(shown) && PodActive(active, k) :: old(shown)[k]
    {
      if active.None? { return; }
      DeleteWhere((k: PodGPUKey) => k.podUID !in active.value);
    }

    method DeleteIdleLabelsForObservedGPU(observed: PodGPUKey)
      requires InStep()
      modifies this
      ensures InStep() && shown == map k | k in old(shown) && !PlaceholderFor(k, observed) :: old(shown)[k]
    {
      if observed.gpuUUID == "" { return; }
      DeleteWhere((k: PodGPUKey) => k.namespace == observed.namespace && k.podUID == observed.podUID && k.gpuUUID == ""
          && k.gpuIndex == observed.gpuIndex);
    }

    /** The loop over the known keys shared by the two deletions above. */
    method DeleteWhere(doomed: PodGPUKey -> bool)
      requires InStep()
      modifies this
      ensures InStep() && shown == map k | k in old(shown) && !doomed(k) :: old(shown)[k]
    {
      var pending := knownLabels.Keys;
      ghost var before := shown;
      while pending != {}
        invariant InStep() && pending <= knownLabels.Keys
        invariant Without(before, pending, doomed) == shown
        decreases pending
      {
        var key :| key in pending;
        WithoutStep(before, pending, doomed, key);
        pending := pending - {key};
        if doomed(key) { DeleteSeries(key); }
      }
    }

    /** The loop that sets every known series to zero. */
    method ZeroKnown()
      requires InStep()
      modifies this
      ensures InStep() && shown == map k | k in old(shown) :: ZERO
    {
      var pending := knownLabels.Keys;
      ghost var before := shown;
      while pending != {}
        invariant InStep() && pending <= before.Keys
        invariant shown == Zeroed(before, pending)
        decreases pending
      {
        var key :| key in pending;
        ZeroedStep(before, pending, key);
        SetZero(key);
        pending := pending - {key};
      }
    }

    /** setZero for a known key. */
    method SetZero(key: PodGPUKey)
      requires InStep() && key in knownLabels
      modifies this
      ensures InStep() && shown == old(shown)[key := ZERO] && knownLabels == old(knownLabels)
    {
      ghost var before := knownLabels;
      SetSeries(key, knownLabels[key], ZERO);
      assert knownLabels.Keys == before.Keys;
    }

    /** observe. */
    method Observe(metrics: seq<Metric>, active: Option<set<string>>)
      requires InStep()
      modifies this
      ensures InStep() && shown == AfterObserve(old(shown), metrics, active)
      ensures labels == Labelling(LabelsOf, KeyOfLabels) && OnePerGPU(metrics) ==>
                forall i :: 0 <= i < |metrics| ==> Exports(metrics[i])
    {
      ghost var before := shown;
      PruneDeletedPods(active);
      ZeroKnown();
      assert shown == Retained(before, active);
      for i := 0 to |metrics|
        invariant InStep() && shown == ShownAll(Retained(before, active), metrics[..i])
      {
        assert metrics[..i + 1][..i] == metrics[..i];
        ghost var s := shown;
        DeleteIdleLabelsForObservedGPU(metrics[i].key);
        SetSeries(metrics[i].key, labels.tagOf(metrics[i].key), ValuesOf(metrics[i]));
        assert shown == Shown(s, metrics[i]);
      }
      assert metrics[..|metrics|] == metrics;
      if labels == Labelling(LabelsOf, KeyOfLabels) && OnePerGPU(metrics) {
        ObserveShowsSnapshot(before, metrics, active);
        forall i | 0 <= i < |metrics| ensures Exports(metrics[i]) { RowIsExported(metrics[i]); }
      }
    }

    /** Under the labels of a row each vector has the value it is named after. */
    ghost predicate Exports(m: Metric)
      reads this
    {
      var k := m.key;
      var tag := Labels(k.namespace, k.pod, k.podUID, k.gpuUUID, Itoa(k.gpuIndex));
      && tag in memoryBytes && memoryBytes[tag] == m.memory as real
      && tag in smUtilization && smUtilization[tag] == m.sm
      && tag in smUtilizationNormalized && smUtilizationNormalized[tag] == m.normalized
    }

    lemma RowIsExported(m: Metric)
      requires InStep() && labels == Labelling(LabelsOf, KeyOfLabels)
      requires m.key in shown && shown[m.key] == ValuesOf(m)
      ensures Exports(m)
    {
      assert labels.tagOf(m.key) == LabelsOf(m.key);
    }
  }

  ghost function Without(s: Series, pending: set<PodGPUKey>, doomed: PodGPUKey -> bool): Series {
    map k | k in s && (k in pending || !doomed(k)) :: s[k]
  }

  lemma WithoutStep(s: Series, pending: set<PodGPUKey>, doomed: PodGPUKey -> bool, key: PodGPUKey)
    requires key in pending
    ensures Without(s, pending - {key}, doomed) == if doomed(key) then Without(s, pending, doomed) - {key}
              else Without(s, pending, doomed)
  {
  }

  ghost function Zeroed(s: Series, pending: set<PodGPUKey>): Series {
    map k | k in s :: if k in pending then s[k] else ZERO
  }

  lemma ZeroedStep(s: Series, pending: set<PodGPUKey>, key: PodGPUKey)
    requires key in pending && key in s
    ensures Zeroed(s, pending - {key}) == Zeroed(s, pending)[key := ZERO]
  {
  }
}
