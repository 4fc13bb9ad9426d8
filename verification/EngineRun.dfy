/** The metrics engine over time: what it remembers about devices and the sliding window of
    utilisation samples kept across collects
    (fractioning-manager/metricsd/internal/metrics/engine.go). */
module EngineRun {
  import opened Text
  import opened ContainerStores
  import opened Engine
  import EngineProperties

  type Samples = map<PodGPUKey, real>
  type Buffers = map<PodGPUKey, seq<real>>

  // ---------------------------------------------------------------- windows

  function TakeLast(s: seq<real>, w: nat): seq<real> { if |s| <= w then s else s[|s| - w..] }

  function Sum(s: seq<real>): real { if s == [] then 0.0 else Sum(s[..|s| - 1]) + s[|s| - 1] }

  function Mean(s: seq<real>): real
    requires s != []
  {
    Sum(s) / |s| as real
  }

  function BufferAt(buf: Buffers, k: PodGPUKey): seq<real> { if k in buf then buf[k] else [] }

  /** The buffer of a key after one more sample. */
  function NextBuffer(buf: Buffers, k: PodGPUKey, x: real, w: nat): (b: seq<real>)
    ensures w >= 1 ==> b != []
  {
    TakeLast(BufferAt(buf, k) + [x], w)
  }

  /** One cycle: keys of the cycle get one more sample, all others are dropped. */
  function PushAll(buf: Buffers, samples: Samples, w: nat): Buffers {
    map k | k in samples :: NextBuffer(buf, k, samples[k], w)
  }

  function BuffersAfter(history: seq<Samples>, w: nat): Buffers {
    if history == [] then map[]
    else PushAll(BuffersAfter(history[..|history| - 1], w), history[|history| - 1], w)
  }

  /** The samples of a key in the most recent unbroken run of cycles that contain it. */
  function Streak(history: seq<Samples>, k: PodGPUKey): seq<real> {
    if history == [] || k !in history[|history| - 1] then []
    else Streak(history[..|history| - 1], k) + [history[|history| - 1][k]]
  }

  /** A cycle of collect: the raw samples, or None when there were no active containers. */
  type Cycle = Option<Samples>

  /** The cycles that had containers. */
  function Present(cycles: seq<Cycle>): seq<Samples> {
    if cycles == [] then []
    else
      var last := cycles[|cycles| - 1];
      Present(cycles[..|cycles| - 1]) + if last.Some? then [last.value] else []
  }

  lemma PresentSkips(cycles: seq<Cycle>)
    ensures Present(cycles + [None]) == Present(cycles)
  {
    assert (cycles + [None])[..|cycles|] == cycles;
  }

  lemma PresentGrows(cycles: seq<Cycle>, samples: Samples)
    ensures Present(cycles + [Some(samples)]) == Present(cycles) + [samples]
  {
    assert (cycles + [Some(samples)])[..|cycles|] == cycles;
  }

  lemma BuffersGrow(history: seq<Samples>, samples: Samples, w: nat)
    ensures BuffersAfter(history + [samples], w) == PushAll(BuffersAfter(history, w), samples, w)
  {
    assert (history + [samples])[..|history|] == history;
  }

  /** After every run of cycles, the buffers are those of the keys of the last cycle, and each
      holds the last w samples since its key reappeared. */
  lemma {:induction false} BuffersHoldStreaks(history: seq<Samples>, w: nat)
    requires w >= 1
    ensures history != [] ==> BuffersAfter(history, w).Keys == history[|history| - 1].Keys
    ensures forall k :: BufferAt(BuffersAfter(history, w), k) == TakeLast(Streak(history, k), w)
  {
    if history != [] {
      var before, last := history[..|history| - 1], history[|history| - 1];
      BuffersHoldStreaks(before, w);
      forall k ensures BufferAt(BuffersAfter(history, w), k) == TakeLast(Streak(history, k), w) {
        if k in last { TakeLastSnoc(Streak(before, k), last[k], w); }
      }
    }
  }

  lemma TakeLastSnoc(s: seq<real>, x: real, w: nat)
    requires w >= 1
    ensures TakeLast(TakeLast(s, w) + [x], w) == TakeLast(s + [x], w)
  {
    if |s| > w {
      assert (s[|s| - w..] + [x])[1..] == (s + [x])[|s| + 1 - w..];
    }
  }

  predicate Percentages(s: seq<real>) { forall i :: 0 <= i < |s| ==> 0.0 <= s[i] <= 100.0 }

  lemma {:induction false} SumBounds(s: seq<real>)
    requires Percentages(s)
    ensures 0.0 <= Sum(s) <= 100.0 * |s| as real
  {
    if s != [] { SumBounds(s[..|s| - 1]); }
  }

  lemma MeanBounds(s: seq<real>)
    requires Percentages(s) && s != []
    ensures 0.0 <= Mean(s) <= 100.0
  {
    SumBounds(s);
    DivBounds(Sum(s), |s| as real);
  }

  lemma DivBounds(x: real, n: real)
    requires n > 0.0 && 0.0 <= x <= 100.0 * n
    ensures 0.0 <= x / n <= 100.0
  {
    assert x / n * n == x;
  }

  // ---------------------------------------------------------------- normalisation

  /** normalizedSMUtil. */
  function Normalized(sm: real, fraction: real): real {
    var f := if fraction == 0.0 then 1.0 else fraction;
    if sm / f > 100.0 then 100.0 else sm / f
  }

  lemma NormalizedBounds(sm: real, fraction: real)
    requires 0.0 <= sm <= 100.0 && fraction >= 0.0
    ensures 0.0 <= Normalized(sm, fraction) <= 100.0
    ensures fraction == 0.0 ==> Normalized(sm, fraction) == sm
    ensures fraction <= 1.0 ==> Normalized(sm, fraction) >= sm
  {
    var f := if fraction == 0.0 then 1.0 else fraction;
    var q := sm / f;
    assert q * f == sm;
    assert q >= 0.0;
    assert f <= 1.0 ==> q * f <= q * 1.0;
  }

  /** Utilisation of the requested share: the whole device for an unknown share, and 100 percent when
      it is more than the share. */
  predicate IsShare(sm: real, fraction: real, normalized: real) {
    if fraction == 0.0 then normalized == sm
    else if sm <= 100.0 * fraction then normalized * fraction == sm
    else normalized == 100.0
  }

  lemma NormalizedIsShare(sm: real, fraction: real)
    requires 0.0 <= sm <= 100.0 && fraction >= 0.0
    ensures IsShare(sm, fraction, Normalized(sm, fraction))
  {
    if fraction > 0.0 {
      var q := sm / fraction;
      QuotientTimes(sm, fraction);
      assert Normalized(sm, fraction) == if q > 100.0 then 100.0 else q;
      ShareOfQuotient(sm, fraction, q);
    }
  }

  lemma ShareOfQuotient(sm: real, fraction: real, q: real)
    requires fraction > 0.0 && q * fraction == sm
    ensures IsShare(sm, fraction, if q > 100.0 then 100.0 else q)
  {
    TimesIsMonotone(q, 100.0, fraction);
  }

  lemma QuotientTimes(x: real, y: real)
    requires y > 0.0
    ensures (x / y) * y == x
  {
  }

  lemma TimesIsMonotone(x: real, y: real, z: real)
    requires z > 0.0
    ensures x * z <= y * z <==> x <= y
  {
  }

  // ---------------------------------------------------------------- what is remembered

  function MergeUUIDs(known: map<int, string>, seen: map<int, string>): map<int, string> {
    known + map i | i in seen && seen[i] != "" :: seen[i]
  }

  function MergeTotals(known: map<int, nat>, seen: map<int, nat>): map<int, nat> {
    known + map i | i in seen && seen[i] != 0 :: seen[i]
  }

  /** The next key of a map iteration. */
  method NextKey<K(==), V>(m: map<K, V>) returns (k: K)
    requires m != map[]
    ensures k in m
  {
    k :| k in m.Keys;
  }

  lemma MergeUUIDsStep(known: map<int, string>, seen: map<int, string>, i: int)
    requires i in seen
    ensures MergeUUIDs(known, seen) == MergeUUIDs(if seen[i] != "" then known[i := seen[i]] else known, seen - {i})
  {
  }

  lemma MergeTotalsStep(known: map<int, nat>, seen: map<int, nat>, i: int)
    requires i in seen
    ensures MergeTotals(known, seen) == MergeTotals(if seen[i] != 0 then known[i := seen[i]] else known, seen - {i})
  {
  }

  function Learn(t: Tables, seen: Tables): Tables {
    Tables(MergeUUIDs(t.uuids, seen.uuids), t.minors + seen.minors, MergeTotals(t.totals, seen.totals))
  }

  /** What is remembered about a device is never a blank. */
  predicate Known(t: Tables) {
    && (forall i :: i in t.totals ==> t.totals[i] > 0)
    && (forall i :: i in t.uuids ==> t.uuids[i] != "")
  }

  lemma LearnKeepsKnown(t: Tables, seen: Tables)
    requires Known(t)
    ensures Known(Learn(t, seen))
    ensures t.totals.Keys <= Learn(t, seen).totals.Keys
    ensures t.uuids.Keys <= Learn(t, seen).uuids.Keys && t.minors.Keys <= Learn(t, seen).minors.Keys
  {
  }

  function LearnAll(t: Tables, reports: seq<Tables>): Tables {
    if reports == [] then t else Learn(LearnAll(t, reports[..|reports| - 1]), reports[|reports| - 1])
  }

  /** In every run of reports, however partial: a device total once learned never becomes
      unknown again, a UUID never becomes empty, and a resolvable minor stays resolvable. */
  lemma {:induction false} LearnedIsNeverForgotten(t: Tables, reports: seq<Tables>)
    requires Known(t)
    ensures var t' := LearnAll(t, reports);
            && Known(t') && t.totals.Keys <= t'.totals.Keys
            && t.uuids.Keys <= t'.uuids.Keys && t.minors.Keys <= t'.minors.Keys
  {
    if reports != [] {
      LearnedIsNeverForgotten(t, reports[..|reports| - 1]);
      LearnKeepsKnown(LearnAll(t, reports[..|reports| - 1]), reports[|reports| - 1]);
    }
  }

  /** Which report told last about a device: a UUID that is not blank, a total that is not zero, the
      index of a minor. */
  predicate TellsUUID(r: Tables, i: int) { i in r.uuids && r.uuids[i] != "" }

  predicate TellsTotal(r: Tables, i: int) { i in r.totals && r.totals[i] != 0 }

  predicate TellsMinor(r: Tables, i: int) { i in r.minors }

  predicate LastTold(reports: seq<Tables>, tells: (Tables, int) -> bool, i: int, j: int) {
    0 <= j < |reports| && tells(reports[j], i) && forall l :: j < l < |reports| ==> !tells(reports[l], i)
  }

  predicate NeverTold(reports: seq<Tables>, tells: (Tables, int) -> bool, i: int) {
    forall l :: 0 <= l < |reports| ==> !tells(reports[l], i)
  }

  /** In every run of reports what is known of a device is what the last report that told of it said,
      and what was known at first if none did. */
  lemma LastReportWins(t: Tables, reports: seq<Tables>, i: int, j: int)
    ensures var t' := LearnAll(t, reports);
            && (LastTold(reports, TellsUUID, i, j) ==> i in t'.uuids && t'.uuids[i] == reports[j].uuids[i])
            && (LastTold(reports, TellsTotal, i, j) ==> i in t'.totals && t'.totals[i] == reports[j].totals[i])
            && (LastTold(reports, TellsMinor, i, j) ==> i in t'.minors && t'.minors[i] == reports[j].minors[i])
    ensures var t' := LearnAll(t, reports);
            && (NeverTold(reports, TellsUUID, i) ==>
                  (i in t'.uuids <==> i in t.uuids) && (i in t.uuids ==> t'.uuids[i] == t.uuids[i]))
            && (NeverTold(reports, TellsTotal, i) ==>
                  (i in t'.totals <==> i in t.totals) && (i in t.totals ==> t'.totals[i] == t.totals[i]))
            && (NeverTold(reports, TellsMinor, i) ==>
                  (i in t'.minors <==> i in t.minors) && (i in t.minors ==> t'.minors[i] == t.minors[i]))
  {
    LastUUIDWins(t, reports, i, j);
    LastTotalWins(t, reports, i, j);
    LastMinorWins(t, reports, i, j);
  }

  lemma {:induction false} LastUUIDWins(t: Tables, reports: seq<Tables>, i: int, j: int)
    ensures var t' := LearnAll(t, reports);
            && (LastTold(reports, TellsUUID, i, j) ==> i in t'.uuids && t'.uuids[i] == reports[j].uuids[i])
            && (NeverTold(reports, TellsUUID, i) ==>
                  (i in t'.uuids <==> i in t.uuids) && (i in t.uuids ==> t'.uuids[i] == t.uuids[i]))
  {
    if reports != [] {
      LastUUIDWins(t, reports[..|reports| - 1], i, j);
      ToldStep(reports, TellsUUID, i, j);
    }
  }

  lemma {:induction false} LastTotalWins(t: Tables, reports: seq<Tables>, i: int, j: int)
    ensures var t' := LearnAll(t, reports);
            && (LastTold(reports, TellsTotal, i, j) ==> i in t'.totals && t'.totals[i] == reports[j].totals[i])
            && (NeverTold(reports, TellsTotal, i) ==>
                  (i in t'.totals <==> i in t.totals) && (i in t.totals ==> t'.totals[i] == t.totals[i]))
  {
    if reports != [] {
      LastTotalWins(t, reports[..|reports| - 1], i, j);
      ToldStep(reports, TellsTotal, i, j);
    }
  }

  lemma {:induction false} LastMinorWins(t: Tables, reports: seq<Tables>, i: int, j: int)
    ensures var t' := LearnAll(t, reports);
            && (LastTold(reports, TellsMinor, i, j) ==> i in t'.minors && t'.minors[i] == reports[j].minors[i])
            && (NeverTold(reports, TellsMinor, i) ==>
                  (i in t'.minors <==> i in t.minors) && (i in t.minors ==> t'.minors[i] == t.minors[i]))
  {
    if reports != [] {
      LastMinorWins(t, reports[..|reports| - 1], i, j);
      ToldStep(reports, TellsMinor, i, j);
    }
  }

  lemma ToldStep(reports: seq<Tables>, tells: (Tables, int) -> bool, i: int, j: int)
    requires reports != []
    ensures var n := |reports| - 1;
            && (LastTold(reports, tells, i, j) ==>
                  if tells(reports[n], i) then j == n else j < n && LastTold(reports[..n], tells, i, j))
            && (NeverTold(reports, tells, i) ==> !tells(reports[n], i) && NeverTold(reports[..n], tells, i))
  {
    var n := |reports| - 1;
    assert forall l :: 0 <= l < n ==> reports[..n][l] == reports[l];
  }

  // ---------------------------------------------------------------- one published cycle

  function SamplesOf(rows: seq<Metric>): Samples {
    if rows == [] then map[] else SamplesOf(rows[..|rows| - 1])[rows[|rows| - 1].key := rows[|rows| - 1].sm]
  }

  ghost function TableSamples(table: map<PodGPUKey, Metric>): Samples { map k | k in table :: table[k].sm }

  /** A table of rows with windowed and normalised utilisation. */
  ghost function Published(table: map<PodGPUKey, Metric>, history: seq<Samples>, w: nat): map<PodGPUKey, Metric>
    requires forall k :: k in table ==> TakeLast(Streak(history, k), w) != []
  {
    map k | k in table ::
      var sm := Mean(TakeLast(Streak(history, k), w));
      table[k].(sm := sm, normalized := Normalized(sm, table[k].fraction))
  }

  ghost predicate InRange(samples: Samples) { forall k :: k in samples ==> 0.0 <= samples[k] <= 100.0 }

  /** Raw, windowed and normalised utilisation are percentages, and normalising never lowers
      a value unless more than the whole device was requested. */
  lemma PublishedValuesAreBounded(table: map<PodGPUKey, Metric>, history: seq<Samples>, w: nat, k: PodGPUKey)
    requires w >= 1 && k in table && history != [] && history[|history| - 1] == TableSamples(table)
    requires AllInRange(history)
    requires forall k :: k in table ==> table[k].fraction >= 0.0
    requires forall k :: k in table ==> TakeLast(Streak(history, k), w) != []
    ensures var m := Published(table, history, w)[k];
            && 0.0 <= table[k].sm <= 100.0 && 0.0 <= m.sm <= 100.0 && 0.0 <= m.normalized <= 100.0
            && (m.fraction <= 1.0 ==> m.normalized >= m.sm)
            && (w == 1 ==> m.sm == table[k].sm)
  {
    StreakInRange(history, k);
    var s := TakeLast(Streak(history, k), w);
    MeanBounds(s);
    NormalizedBounds(Mean(s), table[k].fraction);
    assert TableSamples(table)[k] == table[k].sm;
    if w == 1 { OneSample(history, k); }
  }

  /** Every published row gives the utilisation of its requested share. */
  lemma PublishedShares(table: map<PodGPUKey, Metric>, history: seq<Samples>, w: nat, k: PodGPUKey)
    requires w >= 1 && k in table && AllInRange(history) && table[k].fraction >= 0.0
    requires forall k :: k in table ==> TakeLast(Streak(history, k), w) != []
    ensures var m := Published(table, history, w)[k];
            IsShare(m.sm, m.fraction, m.normalized) && m.fraction == table[k].fraction
  {
    StreakInRange(history, k);
    var s := TakeLast(Streak(history, k), w);
    MeanBounds(s);
    NormalizedIsShare(Mean(s), table[k].fraction);
  }

  lemma {:induction false} StreakInRange(history: seq<Samples>, k: PodGPUKey)
    requires AllInRange(history)
    ensures Percentages(Streak(history, k))
  {
    if history != [] { StreakInRange(history[..|history| - 1], k); }
  }

  // ---------------------------------------------------------------- the code

  ghost predicate AllInRange(history: seq<Samples>) {
    history != [] ==> AllInRange(history[..|history| - 1]) && InRange(history[|history| - 1])
  }

  lemma HistoryGrows(history: seq<Samples>, samples: Samples, w: nat)
    requires AllInRange(history) && InRange(samples)
    ensures AllInRange(history + [samples])
    ensures BuffersAfter(history + [samples], w) == PushAll(BuffersAfter(history, w), samples, w)
  {
    assert (history + [samples])[..|history|] == history;
    BuffersGrow(history, samples, w);
  }

  function PodUIDs(pods: Mapping): set<string> { set id | id in pods && pods[id].podUID != "" :: pods[id].podUID }

  class MetricsEngine {
    const windowSize: nat
    var tables: Tables
    var buf: Buffers
    var snapshot: seq<Metric>
    var activePodUIDs: set<string>
    /** The raw samples of every cycle that had containers, oldest first. */
    ghost var history: seq<Samples>
    /** Every cycle, oldest first. */
    ghost var cycles: seq<Cycle>

    ghost predicate Valid()
      reads this
    {
      && windowSize >= 1
      && buf == (if windowSize > 1 then BuffersAfter(history, windowSize) else map[])
      && AllInRange(history) && history == Present(cycles)
      && Known(tables)
    }

    /** interval and window in the same unit of time. */
    constructor (interval: int, window: int)
      ensures Valid() && cycles == [] && snapshot == [] && tables == Tables(map[], map[], map[])
      ensures windowSize == if interval > 0 && window > interval then window / interval else 1
    {
      windowSize := if interval > 0 && window > interval then window / interval else 1;
      tables, buf, snapshot, activePodUIDs := Tables(map[], map[], map[]), map[], [], {};
      history, cycles := [], [];
      new;
      WindowAtLeastOne(interval, window);
    }

    /** collect. choice is the outcome of searching the UUID table. A cycle without containers
        publishes nothing and leaves tables and buffers alone, stale samples included. Any
        other cycle publishes, per row, the mean of the key's last samples since it reappeared
        among such cycles, normalised by the requested fraction. */
    method Collect(pods: Mapping, obs: seq<Observation>, seen: Tables, choice: IndexChoice)
      returns (ghost table: map<PodGPUKey, Metric>)
      requires Valid() && WellKeyed(pods) && OwnersKnown(obs, pods)
      modifies this
      ensures Valid() && activePodUIDs == PodUIDs(pods)
      ensures cycles == old(cycles) + [if pods == map[] then None else Some(TableSamples(table))]
      ensures pods == map[] ==> snapshot == [] && tables == old(tables) && buf == old(buf)
      ensures pods != map[] ==> tables == Learn(old(tables), seen)
      ensures table == if pods == map[] then map[] else Enriched(tables, ResolverOf(tables, choice), obs, pods)
      ensures pods != map[] ==>
                && (forall k :: k in table ==> TakeLast(Streak(history, k), windowSize) != [])
                && Lists(snapshot, Published(table, history, windowSize))
    {
      activePodUIDs := PodUIDs(pods);
      if pods == map[] {
        table := map[];
        SkipCycle();
      } else {
        Remember(seen);
        var metrics;
        metrics, table := Rows(tables, choice, obs, pods);
        snapshot := Publish(metrics, table);
      }
    }

    /** A cycle without containers. */
    method SkipCycle()
      requires Valid()
      modifies this`snapshot, this`cycles
      ensures Valid() && snapshot == [] && cycles == old(cycles) + [None]
    {
      snapshot := [];
      PresentSkips(cycles);
      cycles := cycles + [None];
    }

    /** The rows of one cycle and the table they list. */
    static method Rows(t: Tables, choice: IndexChoice, obs: seq<Observation>, pods: Mapping)
      returns (metrics: seq<Metric>, ghost table: map<PodGPUKey, Metric>)
      requires WellKeyed(pods) && OwnersKnown(obs, pods)
      ensures table == Enriched(t, ResolverOf(t, choice), obs, pods)
      ensures Lists(metrics, table) && InRange(TableSamples(table))
    {
      var unmatched;
      metrics, unmatched := Enrich(t, choice, obs, pods);
      table := Enriched(t, ResolverOf(t, choice), obs, pods);
      RawInRange(t, ResolverOf(t, choice), obs, pods);
    }

    /** The rest of collect once the rows are known: window, normalise. */
    method Publish(metrics: seq<Metric>, ghost table: map<PodGPUKey, Metric>) returns (out: seq<Metric>)
      requires Valid() && Lists(metrics, table) && InRange(TableSamples(table))
      modifies this`buf, this`history, this`cycles
      ensures Valid() && cycles == old(cycles) + [Some(TableSamples(table))]
      ensures forall k :: k in table ==> TakeLast(Streak(history, k), windowSize) != []
      ensures Lists(out, Published(table, history, windowSize))
    {
      SamplesOfLists(metrics, table);
      out := Smooth(metrics);
      PublishedLists(metrics, table, history, windowSize);
      HistoryGrows(history, TableSamples(table), windowSize);
      PresentGrows(cycles, TableSamples(table));
      history, cycles := history + [TableSamples(table)], cycles + [Some(TableSamples(table))];
    }

    /** Window when there is one, then normalise. */
    method Smooth(metrics: seq<Metric>) returns (out: seq<Metric>)
      requires windowSize >= 1 && DistinctKeys(metrics)
      modifies this`buf
      ensures buf == if windowSize > 1 then PushAll(old(buf), SamplesOf(metrics), windowSize) else old(buf)
      ensures out == NormalizedRows(Windowed(old(buf), metrics, windowSize))
    {
      out := metrics;
      if windowSize > 1 { out := WindowedSMUtil(out); }
      out := NormalizeSMUtil(out);
    }

    method Remember(seen: Tables)
      requires Known(tables)
      modifies this`tables
      ensures tables == Learn(old(tables), seen) && Known(tables)
    {
      LearnKeepsKnown(tables, seen);
      var uuids := RememberDeviceUUIDs(tables.uuids, seen.uuids);
      var minors := tables.minors + seen.minors;
      var totals := RememberDeviceTotalMemory(tables.totals, seen.totals);
      tables := Tables(uuids, minors, totals);
    }

    static method RememberDeviceUUIDs(known: map<int, string>, seen: map<int, string>) returns (out: map<int, string>)
      ensures out == MergeUUIDs(known, seen)
    {
      out := known;
      var pending := seen;
      while pending != map[]
        invariant MergeUUIDs(out, pending) == MergeUUIDs(known, seen)
        decreases pending.Keys
      {
        var index := NextKey(pending);
        MergeUUIDsStep(out, pending, index);
        if pending[index] != "" { out := out[index := pending[index]]; }
        pending := pending - {index};
      }
    }

    static method RememberDeviceTotalMemory(known: map<int, nat>, seen: map<int, nat>) returns (out: map<int, nat>)
      ensures out == MergeTotals(known, seen)
    {
      out := known;
      var pending := seen;
      while pending != map[]
        invariant MergeTotals(out, pending) == MergeTotals(known, seen)
        decreases pending.Keys
      {
        var index := NextKey(pending);
        MergeTotalsStep(out, pending, index);
        if pending[index] != 0 { out := out[index := pending[index]]; }
        pending := pending - {index};
      }
    }

    /** windowedSMUtil: one sample per row, then buffers of vanished rows are pruned. */
    method WindowedSMUtil(metrics: seq<Metric>) returns (out: seq<Metric>)
      requires windowSize >= 1 && DistinctKeys(metrics)
      modifies this`buf
      ensures buf == PushAll(old(buf), SamplesOf(metrics), windowSize)
      ensures out == Smoothed(old(buf), metrics, windowSize)
    {
      out := [];
      var current: set<PodGPUKey> := {};
      ghost var start := buf;
      for i := 0 to |metrics|
        invariant current == SamplesOf(metrics[..i]).Keys
        invariant buf == Pushed(start, metrics[..i], windowSize)
        invariant out == Smoothed(start, metrics[..i], windowSize)
      {
        WindowStep(start, metrics, i, windowSize);
        current := current + {metrics[i].key};
        var avg := PushSample(metrics[i].key, metrics[i].sm);
        out := out + [metrics[i].(sm := avg)];
      }
      assert metrics[..|metrics|] == metrics;
      Prune(current);
      PrunedIsPushAll(start, metrics, windowSize, buf);
    }

    method Prune(current: set<PodGPUKey>)
      modifies this`buf
      ensures buf == map k | k in old(buf) && k in current :: old(buf)[k]
    {
      var pending := buf.Keys;
      while pending != {}
        invariant pending <= buf.Keys
        invariant buf == map k | k in old(buf) && (k in pending || k in current) :: old(buf)[k]
        decreases pending
      {
        var key :| key in pending;
        pending := pending - {key};
        if key !in current { buf := buf - {key}; }
      }
    }

    /** pushSample. */
    method PushSample(key: PodGPUKey, sample: real) returns (avg: real)
      requires windowSize >= 1
      modifies this`buf
      ensures buf == old(buf)[key := NextBuffer(old(buf), key, sample, windowSize)]
      ensures avg == Mean(buf[key])
    {
      var b := BufferAt(buf, key) + [sample];
      if |b| > windowSize { b := b[|b| - windowSize..]; }
      buf := buf[key := b];
      var sum := 0.0;
      for i := 0 to |b|
        invariant sum == Sum(b[..i])
      {
        assert b[..i + 1][..i] == b[..i];
        sum := sum + b[i];
      }
      assert b[..|b|] == b;
      avg := sum / |b| as real;
    }

    method NormalizeSMUtil(metrics: seq<Metric>) returns (out: seq<Metric>)
      ensures out == NormalizedRows(metrics)
    {
      out := metrics;
      for i := 0 to |metrics|
        invariant |out| == |metrics| && out[i..] == metrics[i..]
        invariant forall j :: 0 <= j < i ==> out[j] == NormalizedRow(metrics[j])
      {
        assert out[i..][0] == metrics[i..][0];
        out := out[i := out[i].(normalized := Normalized(out[i].sm, out[i].fraction))];
      }
    }
  }

  // ---------------------------------------------------------------- supporting lemmas

  lemma WindowAtLeastOne(interval: int, window: int)
    ensures interval > 0 && window > interval ==> window / interval >= 1
  {
    if interval > 0 && window > interval {
      var q := window / interval;
      assert window == interval * q + window % interval;
      assert interval * q > 0;
    }
  }

  lemma {:induction false} KeysOfSamples(rows: seq<Metric>)
    ensures forall k :: k in SamplesOf(rows) <==> exists i :: 0 <= i < |rows| && rows[i].key == k
    ensures DistinctKeys(rows) ==> forall i :: 0 <= i < |rows| ==> SamplesOf(rows)[rows[i].key] == rows[i].sm
  {
    if rows != [] {
      var front := rows[..|rows| - 1];
      KeysOfSamples(front);
      forall k | k in SamplesOf(front) ensures exists i :: 0 <= i < |rows| && rows[i].key == k {
        var i :| 0 <= i < |front| && front[i].key == k;
        assert rows[i].key == k;
      }
      forall i | 0 <= i < |rows| ensures rows[i].key in SamplesOf(rows) {
        if i < |front| { assert front[i].key == rows[i].key; }
      }
      if DistinctKeys(rows) {
        forall i | 0 <= i < |rows| ensures SamplesOf(rows)[rows[i].key] == rows[i].sm {
          if i < |front| { assert front[i] == rows[i]; }
        }
      }
    }
  }

  lemma SamplesOfLists(rows: seq<Metric>, table: map<PodGPUKey, Metric>)
    requires Lists(rows, table)
    ensures SamplesOf(rows) == TableSamples(table)
  {
    KeysOfSamples(rows);
  }

  lemma RawInRange(t: Tables, resolve: Resolver, obs: seq<Observation>, pods: Mapping)
    ensures InRange(TableSamples(Enriched(t, resolve, obs, pods)))
    ensures forall k :: k in Enriched(t, resolve, obs, pods) ==> Enriched(t, resolve, obs, pods)[k].fraction >= 0.0
  {
    forall k | k in Enriched(t, resolve, obs, pods) ensures Enriched(t, resolve, obs, pods)[k].fraction >= 0.0 {
      EngineProperties.FractionIsShareOfDevice(t, resolve, obs, pods, k);
    }
  }

  lemma OneSample(history: seq<Samples>, k: PodGPUKey)
    requires history != [] && k in history[|history| - 1]
    ensures TakeLast(Streak(history, k), 1) == [history[|history| - 1][k]]
    ensures Mean([history[|history| - 1][k]]) == history[|history| - 1][k]
  {
    var x := history[|history| - 1][k];
    assert [x][..0] == [];
    assert Sum([x]) == Sum([]) + x == x;
    assert x / 1.0 == x;
  }

  /** The buffers after pushing some rows, before pruning. */
  function Pushed(buf: Buffers, rows: seq<Metric>, w: nat): Buffers {
    if rows == [] then buf
    else
      var m, before := rows[|rows| - 1], Pushed(buf, rows[..|rows| - 1], w);
      before[m.key := NextBuffer(before, m.key, m.sm, w)]
  }

  lemma {:induction false} PushedAt(buf: Buffers, rows: seq<Metric>, w: nat, k: PodGPUKey)
    ensures (forall i :: 0 <= i < |rows| ==> rows[i].key != k) ==> BufferAt(Pushed(buf, rows, w), k) == BufferAt(buf, k)
    ensures forall i :: 0 <= i < |rows| && rows[i].key == k && DistinctKeys(rows) ==>
              k in Pushed(buf, rows, w) && Pushed(buf, rows, w)[k] == NextBuffer(buf, k, rows[i].sm, w)
  {
    if rows != [] {
      var front := rows[..|rows| - 1];
      PushedAt(buf, front, w, k);
      forall i | 0 <= i < |rows| && rows[i].key == k && DistinctKeys(rows)
        ensures k in Pushed(buf, rows, w) && Pushed(buf, rows, w)[k] == NextBuffer(buf, k, rows[i].sm, w)
      {
        if i < |front| { assert front[i] == rows[i]; }
      }
    }
  }

  function SmoothedRow(buf: Buffers, m: Metric, w: nat): Metric
    requires w >= 1
  {
    m.(sm := Mean(NextBuffer(buf, m.key, m.sm, w)))
  }

  function Smoothed(buf: Buffers, rows: seq<Metric>, w: nat): seq<Metric>
    requires w >= 1
  {
    if rows == [] then [] else Smoothed(buf, rows[..|rows| - 1], w) + [SmoothedRow(buf, rows[|rows| - 1], w)]
  }

  lemma {:induction false} SmoothedAt(buf: Buffers, rows: seq<Metric>, w: nat, i: nat)
    requires w >= 1 && i < |rows|
    ensures |Smoothed(buf, rows, w)| == |rows| && Smoothed(buf, rows, w)[i] == SmoothedRow(buf, rows[i], w)
  {
    SmoothedLength(buf, rows[..|rows| - 1], w);
    if i < |rows| - 1 { SmoothedAt(buf, rows[..|rows| - 1], w, i); }
  }

  lemma {:induction false} SmoothedLength(buf: Buffers, rows: seq<Metric>, w: nat)
    requires w >= 1
    ensures |Smoothed(buf, rows, w)| == |rows|
  {
    if rows != [] { SmoothedLength(buf, rows[..|rows| - 1], w); }
  }

  /** A row whose key is new pushes onto the buffer the cycle started with. */
  lemma WindowStep(start: Buffers, rows: seq<Metric>, i: nat, w: nat)
    requires i < |rows| && DistinctKeys(rows) && w >= 1
    ensures NextBuffer(Pushed(start, rows[..i], w), rows[i].key, rows[i].sm, w)
            == NextBuffer(start, rows[i].key, rows[i].sm, w)
    ensures Pushed(start, rows[..i + 1], w)
            == Pushed(start, rows[..i], w)[rows[i].key := NextBuffer(start, rows[i].key, rows[i].sm, w)]
    ensures Smoothed(start, rows[..i + 1], w) == Smoothed(start, rows[..i], w) + [SmoothedRow(start, rows[i], w)]
    ensures SamplesOf(rows[..i + 1]).Keys == SamplesOf(rows[..i]).Keys + {rows[i].key}
  {
    PushedElsewhere(start, rows[..i], w, rows[i].key);
    assert rows[..i + 1][..i] == rows[..i];
  }

  lemma PushedElsewhere(start: Buffers, rows: seq<Metric>, w: nat, k: PodGPUKey)
    requires forall i :: 0 <= i < |rows| ==> rows[i].key != k
    ensures BufferAt(Pushed(start, rows, w), k) == BufferAt(start, k)
  {
    PushedAt(start, rows, w, k);
  }

  lemma PrunedIsPushAll(start: Buffers, rows: seq<Metric>, w: nat, buf: Buffers)
    requires DistinctKeys(rows)
    requires buf == map k | k in Pushed(start, rows, w) && k in SamplesOf(rows).Keys :: Pushed(start, rows, w)[k]
    ensures buf == PushAll(start, SamplesOf(rows), w)
  {
    KeysOfSamples(rows);
    forall k | k in SamplesOf(rows)
      ensures k in Pushed(start, rows, w) && Pushed(start, rows, w)[k] == NextBuffer(start, k, SamplesOf(rows)[k], w)
    {
      var i :| 0 <= i < |rows| && rows[i].key == k;
      PushedAt(start, rows, w, k);
    }
  }

  /** With or without a buffer, the smoothed value is the mean of the streak's last samples. */
  lemma SmoothedMeans(rows: seq<Metric>, table: map<PodGPUKey, Metric>, before: seq<Samples>, w: nat)
    requires w >= 1 && Lists(rows, table)
    ensures var history := before + [TableSamples(table)];
            && (forall k :: k in table ==> TakeLast(Streak(history, k), w) != [])
            && (forall i :: 0 <= i < |rows| ==>
                  TakeLast(Streak(history, rows[i].key), w)
                      == NextBuffer(BuffersAfter(before, w), rows[i].key, rows[i].sm, w))
            && (w == 1 ==> forall i :: 0 <= i < |rows| ==>
               Mean(TakeLast(Streak(history, rows[i].key), w)) == rows[i].sm)
  {
    var history := before + [TableSamples(table)];
    assert history[..|history| - 1] == before;
    BuffersHoldStreaks(before, w);
    forall k | k in table
      ensures TakeLast(Streak(history, k), w) == NextBuffer(BuffersAfter(before, w), k, table[k].sm, w)
    {
      TakeLastSnoc(Streak(before, k), table[k].sm, w);
    }
    if w == 1 {
      forall i | 0 <= i < |rows| ensures Mean(TakeLast(Streak(history, rows[i].key), w)) == rows[i].sm {
        OneSample(history, rows[i].key);
      }
    }
  }

  function NormalizedRow(m: Metric): Metric { m.(normalized := Normalized(m.sm, m.fraction)) }

  function NormalizedRows(rows: seq<Metric>): seq<Metric> {
    seq(|rows|, i requires 0 <= i < |rows| => NormalizedRow(rows[i]))
  }

  /** The rows as windowed, when there is a window. */
  function Windowed(buf: Buffers, rows: seq<Metric>, w: nat): seq<Metric>
    requires w >= 1
  {
    if w > 1 then Smoothed(buf, rows, w) else rows
  }

  lemma PublishedLists(raw: seq<Metric>, table: map<PodGPUKey, Metric>, before: seq<Samples>, w: nat)
    requires w >= 1 && Lists(raw, table)
    ensures forall k :: k in table ==> TakeLast(Streak(before + [TableSamples(table)], k), w) != []
    ensures Lists(NormalizedRows(Windowed(BuffersAfter(before, w), raw, w)),
            Published(table, before + [TableSamples(table)], w))
  {
    WindowedMeans(raw, table, before, w);
    RowsList(raw, Windowed(BuffersAfter(before, w), raw, w), table, before + [TableSamples(table)], w);
  }

  /** The rows with their utilisation replaced by the mean of the streak's last samples. */
  ghost predicate AreMeans(windowed: seq<Metric>, raw: seq<Metric>, history: seq<Samples>, w: nat) {
    && |windowed| == |raw|
    && forall i :: 0 <= i < |raw| ==>
         var last := TakeLast(Streak(history, raw[i].key), w);
         last != [] && windowed[i] == raw[i].(sm := Mean(last))
  }

  lemma WindowedMeans(raw: seq<Metric>, table: map<PodGPUKey, Metric>, before: seq<Samples>, w: nat)
    requires w >= 1 && Lists(raw, table)
    ensures forall k :: k in table ==> TakeLast(Streak(before + [TableSamples(table)], k), w) != []
    ensures AreMeans(Windowed(BuffersAfter(before, w), raw, w), raw, before + [TableSamples(table)], w)
  {
    var history, windowed := before + [TableSamples(table)], Windowed(BuffersAfter(before, w), raw, w);
    SmoothedMeans(raw, table, before, w);
    SmoothedLength(BuffersAfter(before, w), raw, w);
    forall i | 0 <= i < |raw|
      ensures var last := TakeLast(Streak(history, raw[i].key), w);
              last != [] && windowed[i] == raw[i].(sm := Mean(last))
    {
      SmoothedAt(BuffersAfter(before, w), raw, w, i);
    }
  }

  lemma RowIsPublished(raw: seq<Metric>, windowed: seq<Metric>, table: map<PodGPUKey, Metric>, history: seq<Samples>,
      w: nat, i: nat)
    requires Lists(raw, table) && AreMeans(windowed, raw, history, w) && i < |raw|
    requires forall k :: k in table ==> TakeLast(Streak(history, k), w) != []
    ensures var row, p := NormalizedRow(windowed[i]), Published(table, history, w);
            row.key == raw[i].key && row.key in p && row == p[row.key]
  {
    assert raw[i] == table[raw[i].key];
  }

  lemma RowsList(raw: seq<Metric>, windowed: seq<Metric>, table: map<PodGPUKey, Metric>, history: seq<Samples>, w: nat)
    requires Lists(raw, table) && AreMeans(windowed, raw, history, w)
    requires forall k :: k in table ==> TakeLast(Streak(history, k), w) != []
    ensures Lists(NormalizedRows(windowed), Published(table, history, w))
  {
    var rows, p := NormalizedRows(windowed), Published(table, history, w);
    forall i | 0 <= i < |rows| ensures rows[i].key == raw[i].key && rows[i].key in p && rows[i] == p[rows[i].key] {
      RowIsPublished(raw, windowed, table, history, w, i);
    }
    forall k | k in p ensures exists i :: 0 <= i < |rows| && rows[i].key == k {
      var i :| 0 <= i < |raw| && raw[i].key == k;
      assert rows[i].key == k;
    }
  }
}
