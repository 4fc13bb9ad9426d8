/** The sliding window over every run of cycles, those without active containers included
    (fractioning-manager/metricsd/internal/metrics/engine.go). Such a cycle publishes nothing and
    prunes nothing, so samples from before it can live on in a buffer; here is exactly when. */
module WindowGaps {
  import opened Text
  import opened Engine
  import opened EngineRun

  /** The buffers after a run of cycles: one without containers leaves them alone. */
  function BuffersOver(cycles: seq<Cycle>, w: nat): Buffers {
    if cycles == [] then map[]
    else
      var before := BuffersOver(cycles[..|cycles| - 1], w);
      match cycles[|cycles| - 1] case None => before case Some(samples) => PushAll(before, samples, w)
  }

  /** The samples of a key since it last reappeared among all cycles. */
  function CurrentStreak(cycles: seq<Cycle>, k: PodGPUKey): seq<real> {
    if cycles == [] then []
    else
      match cycles[|cycles| - 1]
      case None => []
      case Some(samples) => if k in samples then CurrentStreak(cycles[..|cycles| - 1], k) + [samples[k]] else []
  }

  /** The cycles whose samples a buffer without bound would hold. */
  function StreakCycles(cycles: seq<Cycle>, k: PodGPUKey): seq<nat> {
    if cycles == [] then []
    else
      var n := |cycles| - 1;
      match cycles[n]
      case None => StreakCycles(cycles[..n], k)
      case Some(samples) => if k in samples then StreakCycles(cycles[..n], k) + [n] else []
  }

  /** The cycle of the oldest sample in the window of a key. */
  function WindowStart(cycles: seq<Cycle>, k: PodGPUKey, w: nat): nat {
    var at := StreakCycles(cycles, k);
    if at == [] then |cycles| else if |at| <= w || w == 0 then at[0] else at[|at| - w]
  }

  /** No cycle without containers falls inside the window of a key. */
  predicate NoGapInWindow(cycles: seq<Cycle>, k: PodGPUKey, w: nat) {
    forall g :: WindowStart(cycles, k, w) <= g < |cycles| ==> cycles[g].Some?
  }

  // ---------------------------------------------------------------- main results

  /** The buffers the engine keeps are those of the cycles that had containers. */
  lemma {:induction false} BuffersSkipGaps(cycles: seq<Cycle>, w: nat)
    ensures BuffersOver(cycles, w) == BuffersAfter(Present(cycles), w)
  {
    if cycles != [] {
      var front, last := cycles[..|cycles| - 1], cycles[|cycles| - 1];
      BuffersSkipGaps(front, w);
      assert cycles == front + [last];
      if last.Some? {
        PresentGrows(front, last.value);
        BuffersGrow(Present(front), last.value, w);
      } else {
        PresentSkips(front);
      }
    }
  }

  /** Over every run of cycles: the buffer of a key is the window of its samples since it last
      reappeared if and only if no cycle without containers falls inside that window. */
  lemma BufferIsCurrentIff(cycles: seq<Cycle>, k: PodGPUKey, w: nat)
    requires w >= 1
    ensures BufferAt(BuffersOver(cycles, w), k) == TakeLast(CurrentStreak(cycles, k), w) <==>
            NoGapInWindow(cycles, k, w)
  {
    HeldBuffer(cycles, k, w);
    CurrentIsLatest(cycles, k);
    WindowsCompare(Streak(Present(cycles), k), CurrentStreak(cycles, k), w);
    StreakPositions(cycles, k);
    GapIff(cycles, k, w);
  }

  lemma HeldBuffer(cycles: seq<Cycle>, k: PodGPUKey, w: nat)
    requires w >= 1
    ensures BufferAt(BuffersOver(cycles, w), k) == TakeLast(Streak(Present(cycles), k), w)
  {
    BuffersSkipGaps(cycles, w);
    BuffersHoldStreaks(Present(cycles), w);
  }

  /** Of two sequences, the second the end of the first, the windows agree if and only if the second
      is the whole first or at least a window long. */
  lemma WindowsCompare(held: seq<real>, current: seq<real>, w: nat)
    requires Ends(held, current)
    ensures TakeLast(held, w) == TakeLast(current, w) <==> |held| == |current| || w <= |current|
  {
    if |held| > |current| && w > |current| { assert |TakeLast(held, w)| > |TakeLast(current, w)|; }
  }

  lemma GapIff(cycles: seq<Cycle>, k: PodGPUKey, w: nat)
    requires w >= 1 && Placed(cycles, StreakCycles(cycles, k), |CurrentStreak(cycles, k)|)
    ensures NoGapInWindow(cycles, k, w) <==>
            |StreakCycles(cycles, k)| == |CurrentStreak(cycles, k)| || w <= |CurrentStreak(cycles, k)|
  {
    var at, m := StreakCycles(cycles, k), |CurrentStreak(cycles, k)|;
    var start := WindowStart(cycles, k, w);
    if at != [] {
      var i := if |at| <= w then 0 else |at| - w;
      assert start == at[i];
      if |at| == m || w <= m { assert start >= |cycles| - m; } else { assert start <= |cycles| - m - 1; }
    }
  }

  /** A stale sample in a published value: fully busy, a cycle without containers, then idle. The
      window of two cycles reports half busy, although the only sample since the key reappeared is
      zero. */
  lemma StaleSampleIsPublished(k: PodGPUKey)
    ensures var cycles := [Some(map[k := 100.0]), None, Some(map[k := 0.0])];
            && !NoGapInWindow(cycles, k, 2)
            && BufferAt(BuffersOver(cycles, 2), k) == [100.0, 0.0] && Mean([100.0, 0.0]) == 50.0
            && TakeLast(CurrentStreak(cycles, k), 2) == [0.0] && Mean([0.0]) == 0.0
  {
    var busy, idle := map[k := 100.0], map[k := 0.0];
    HeldOverGap(busy, idle, k);
    CurrentAfterGap(busy, idle, k);
    BufferIsCurrentIff([Some(busy), None, Some(idle)], k, 2);
    MeansOfTwo();
  }

  lemma HeldOverGap(first: Samples, last: Samples, k: PodGPUKey)
    requires k in first && k in last
    ensures BufferAt(BuffersOver([Some(first), None, Some(last)], 2), k) == [first[k], last[k]]
  {
    var cycles := [Some(first), None, Some(last)];
    HeldSnoc([], Some(first), k);
    HeldSnoc([Some(first)], None, k);
    HeldSnoc([Some(first), None], Some(last), k);
    assert [] + [Some(first)] == [Some(first)] && [Some(first)] + [None] == [Some(first), None];
    assert [Some(first), None] + [Some(last)] == cycles;
    assert Streak(Present(cycles), k) == [first[k], last[k]];
    HeldBuffer(cycles, k, 2);
  }

  lemma CurrentAfterGap(first: Samples, last: Samples, k: PodGPUKey)
    requires k in first && k in last
    ensures CurrentStreak([Some(first), None, Some(last)], k) == [last[k]]
  {
    var cycles := [Some(first), None, Some(last)];
    assert cycles[..2] == [Some(first), None];
    assert CurrentStreak([Some(first), None], k) == [];
  }

  lemma MeansOfTwo()
    ensures Mean([100.0, 0.0]) == 50.0 && Mean([0.0]) == 0.0
  {
    assert [100.0, 0.0][..1] == [100.0] && [100.0][..0] == [] && [0.0][..0] == [];
    assert Sum([]) == 0.0 && Sum([100.0]) == 100.0 && Sum([100.0, 0.0]) == 100.0 && Sum([0.0]) == 0.0;
  }

  // ---------------------------------------------------------------- supporting lemmas

  /** One sequence is the end of another. */
  predicate Ends(held: seq<real>, current: seq<real>) {
    |current| <= |held| && current == held[|held| - |current|..]
  }

  lemma EndsSnoc(held: seq<real>, current: seq<real>, x: real)
    requires Ends(held, current)
    ensures Ends(held + [x], current + [x])
  {
    assert (held + [x])[|held| - |current|..] == held[|held| - |current|..] + [x];
  }

  /** What one more cycle does to the samples held, those since the key reappeared, and their cycles. */
  lemma HeldSnoc(front: seq<Cycle>, c: Cycle, k: PodGPUKey)
    ensures var held := Streak(Present(front), k);
            Streak(Present(front + [c]), k)
            == if c == None then held else if k in c.value then held + [c.value[k]] else []
  {
    if c.Some? {
      PresentGrows(front, c.value);
      StreakGrows(Present(front), c.value, k);
    } else {
      PresentSkips(front);
    }
  }

  lemma CurrentSnoc(front: seq<Cycle>, c: Cycle, k: PodGPUKey)
    ensures CurrentStreak(front + [c], k)
            == if c.Some? && k in c.value then CurrentStreak(front, k) + [c.value[k]] else []
    ensures StreakCycles(front + [c], k)
            == if c == None then StreakCycles(front, k)
               else if k in c.value then StreakCycles(front, k) + [|front|] else []
  {
    assert (front + [c])[..|front|] == front;
  }

  /** The samples since a key reappeared are the latest of those held. */
  lemma {:induction false} CurrentIsLatest(cycles: seq<Cycle>, k: PodGPUKey)
    ensures Ends(Streak(Present(cycles), k), CurrentStreak(cycles, k))
    ensures |Streak(Present(cycles), k)| == |StreakCycles(cycles, k)|
  {
    if cycles != [] {
      var front, last := cycles[..|cycles| - 1], cycles[|cycles| - 1];
      CurrentIsLatest(front, k);
      HeldSnoc(front, last, k);
      CurrentSnoc(front, last, k);
      assert cycles == front + [last];
      if last.Some? && k in last.value {
        EndsSnoc(Streak(Present(front), k), CurrentStreak(front, k), last.value[k]);
      }
    }
  }

  lemma StreakGrows(history: seq<Samples>, samples: Samples, k: PodGPUKey)
    ensures Streak(history + [samples], k) == if k in samples then Streak(history, k) + [samples[k]] else []
  {
    assert (history + [samples])[..|history|] == history;
  }

  /** The last m of the given cycles are the latest m of the run, and any before them lie before a
      cycle without containers. */
  predicate Placed(cycles: seq<Cycle>, at: seq<nat>, m: nat) {
    && m <= |at| && m <= |cycles|
    && (forall g :: |cycles| - m <= g < |cycles| ==> cycles[g].Some?)
    && (forall i :: |at| - m <= i < |at| ==> at[i] >= |cycles| - m)
    && (m < |at| ==> m < |cycles| && cycles[|cycles| - m - 1].None?)
    && (forall i :: 0 <= i < |at| - m ==> at[i] < |cycles| - m - 1)
  }

  lemma {:induction false} StreakPositions(cycles: seq<Cycle>, k: PodGPUKey)
    ensures Placed(cycles, StreakCycles(cycles, k), |CurrentStreak(cycles, k)|)
    ensures forall i :: 0 <= i < |StreakCycles(cycles, k)| ==> StreakCycles(cycles, k)[i] < |cycles|
  {
    if cycles != [] {
      var front, last := cycles[..|cycles| - 1], cycles[|cycles| - 1];
      StreakPositions(front, k);
      assert cycles == front + [last];
    }
  }
}
