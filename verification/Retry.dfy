/** The retry loop with exponential backoff and a budget that a stable run resets, in its two
    copies: the MPS daemon supervisor (fractioning-manager/mpsd/internal/supervisor.go) and the
    NRI connection loop (fractioning-manager/fractiond/cmd/main.go). Durations are nanoseconds;
    a script of uptimes stands for what the supervised runs do, and its end for the shutdown
    signal. */
module Retry {
  import opened Text

  const MAX_BACKOFF: nat := 60_000_000_000

  datatype Config = Config(maxRetries: nat, backoff: nat, stableThreshold: nat)

  datatype Outcome = GaveUp(attempts: nat) | ShutDown | SetupFailed

  predicate Stable(cfg: Config, uptime: nat) { uptime >= cfg.stableThreshold }

  // ---------------------------------------------------------------- reference definitions

  /** Consecutive unstable runs since the start or the last stable run. */
  function UnstableTail(cfg: Config, ups: seq<nat>): nat {
    if ups == [] || Stable(cfg, ups[|ups| - 1]) then 0 else UnstableTail(cfg, ups[..|ups| - 1]) + 1
  }

  /** How many waits have happened since the last reset when the wait after these runs begins. */
  function WaitIndex(cfg: Config, ups: seq<nat>): nat {
    if |ups| <= 1 || Stable(cfg, ups[|ups| - 1]) then 0 else WaitIndex(cfg, ups[..|ups| - 1]) + 1
  }

  function Pow2(j: nat): nat { if j == 0 then 1 else 2 * Pow2(j - 1) }

  function Min(a: nat, b: nat): nat { if a < b then a else b }

  /** The j-th wait since a reset. */
  function Wait(cfg: Config, j: nat): nat {
    if j == 0 then cfg.backoff else Min(Pow2(j) * cfg.backoff, MAX_BACKOFF)
  }

  function StableRuns(cfg: Config, ups: seq<nat>): nat {
    if ups == [] then 0 else StableRuns(cfg, ups[..|ups| - 1]) + (if Stable(cfg, ups[|ups| - 1]) then 1 else 0)
  }

  /** The budget is used up by these runs. */
  predicate Exhausted(cfg: Config, ups: seq<nat>) { cfg.maxRetries > 0 && UnstableTail(cfg, ups) >= cfg.maxRetries }

  /** What a retry loop must have done: it stopped at the first moment the budget was used up, or
      at the end of the script, and it began the prescribed wait after every other run. */
  ghost predicate Follows(cfg: Config, ups: seq<nat>, out: Outcome, completed: nat, waits: seq<nat>) {
    && completed <= |ups|
    && (forall i :: 0 < i < completed ==> !Exhausted(cfg, ups[..i]))
    && (match out
        case GaveUp(attempts) =>
          completed > 0 && Exhausted(cfg, ups[..completed])
              && attempts == cfg.maxRetries == UnstableTail(cfg, ups[..completed])
          && |waits| == completed - 1
        case ShutDown => completed == |ups| == |waits| && (completed > 0 ==> !Exhausted(cfg, ups))
        case SetupFailed => |waits| == completed)
    && (forall i :: 0 <= i < |waits| ==> waits[i] == Wait(cfg, WaitIndex(cfg, ups[..i + 1])))
  }

  // ---------------------------------------------------------------- main results

  /** The runs launched: those that came to an end, and at a shutdown possibly one more in flight. */
  function Launches(out: Outcome, completed: nat): nat { completed + if out.ShutDown? then 1 else 0 }

  /** With a budget of N, S stable runs allow at most (S + 1) * N launches, the one a shutdown
      interrupts included. */
  lemma LaunchesAreBounded(cfg: Config, ups: seq<nat>, out: Outcome, completed: nat, waits: seq<nat>)
    requires cfg.maxRetries > 0 && Follows(cfg, ups, out, completed, waits)
    ensures Launches(out, completed) <= (StableRuns(cfg, ups[..completed]) + 1) * cfg.maxRetries
  {
    var ran := ups[..completed];
    assert forall i :: 0 < i < |ran| ==> ran[..i] == ups[..i];
    RunsFitBudget(cfg, ran);
    var s := StableRuns(cfg, ran);
    if completed > 0 && out.GaveUp? {
      assert UnstableTail(cfg, ran) == cfg.maxRetries;
    } else if completed > 0 {
      NotExhaustedTail(cfg, ups, out, completed, waits);
    }
    assert (s + 1) * cfg.maxRetries == s * cfg.maxRetries + cfg.maxRetries;
  }

  lemma NotExhaustedTail(cfg: Config, ups: seq<nat>, out: Outcome, completed: nat, waits: seq<nat>)
    requires cfg.maxRetries > 0 && completed > 0 && Follows(cfg, ups, out, completed, waits) && !out.GaveUp?
    ensures UnstableTail(cfg, ups[..completed]) <= cfg.maxRetries - if out.ShutDown? then 1 else 0
  {
    if out.ShutDown? {
      assert ups[..completed] == ups;
    } else if completed > 1 {
      assert !Exhausted(cfg, ups[..completed - 1]);
      assert ups[..completed][..completed - 1] == ups[..completed - 1];
    } else {
      assert ups[..1][..0] == [];
    }
  }

  lemma {:induction false} RunsFitBudget(cfg: Config, ups: seq<nat>)
    requires cfg.maxRetries > 0 && forall i :: 0 < i < |ups| ==> !Exhausted(cfg, ups[..i])
    ensures |ups| <= StableRuns(cfg, ups) * cfg.maxRetries + UnstableTail(cfg, ups)
  {
    if ups != [] {
      var front := ups[..|ups| - 1];
      forall i | 0 < i < |front| ensures !Exhausted(cfg, front[..i]) { assert front[..i] == ups[..i]; }
      RunsFitBudget(cfg, front);
      if Stable(cfg, ups[|ups| - 1]) {
        var s := StableRuns(cfg, front);
        assert UnstableTail(cfg, front) < cfg.maxRetries by {
          if front != [] { assert !Exhausted(cfg, ups[..|ups| - 1]); }
        }
        assert (s + 1) * cfg.maxRetries == s * cfg.maxRetries + cfg.maxRetries;
      }
    }
  }

  /** No wait exceeds the configured one or the cap, whichever is larger. */
  lemma WaitsAreBounded(cfg: Config, j: nat)
    ensures Wait(cfg, j) <= cfg.backoff || Wait(cfg, j) <= MAX_BACKOFF
    ensures j > 0 ==> Wait(cfg, j) <= MAX_BACKOFF
    ensures j > 0 ==> Wait(cfg, j + 1) == Min(2 * Wait(cfg, j), MAX_BACKOFF)
    ensures Wait(cfg, 1) == Min(2 * Wait(cfg, 0), MAX_BACKOFF)
  {
    assert Pow2(1) == 2;
    if j > 0 {
      var p, b := Pow2(j), cfg.backoff;
      assert Pow2(j + 1) * b == 2 * (p * b);
    }
  }

  /** Run i ends a row of maxRetries runs, each shorter than the stable threshold. */
  predicate EndsFailing(cfg: Config, ups: seq<nat>, i: int) {
    && 0 < cfg.maxRetries <= i <= |ups|
    && forall j :: i - cfg.maxRetries <= j < i ==> ups[j] < cfg.stableThreshold
  }

  lemma {:induction false} TailMeans(cfg: Config, ups: seq<nat>, n: nat)
    ensures UnstableTail(cfg, ups) >= n <==>
            n <= |ups| && forall j :: |ups| - n <= j < |ups| ==> ups[j] < cfg.stableThreshold
  {
    if ups != [] && n > 0 {
      var front := ups[..|ups| - 1];
      TailMeans(cfg, front, n - 1);
      assert forall j :: 0 <= j < |front| ==> front[j] == ups[j];
    }
  }

  lemma ExhaustedMeans(cfg: Config, ups: seq<nat>, i: nat)
    requires i <= |ups|
    ensures Exhausted(cfg, ups[..i]) <==> EndsFailing(cfg, ups, i)
  {
    TailMeans(cfg, ups[..i], cfg.maxRetries);
    assert forall j :: 0 <= j < i ==> ups[..i][j] == ups[j];
  }

  /** Giving up is exactly running out of budget, and at once: the loop gives up after the first run
      that ends a row of maxRetries runs shorter than the stable threshold. */
  lemma GivesUpIffBudgetRunsOut(cfg: Config, ups: seq<nat>, out: Outcome, completed: nat, waits: seq<nat>)
    requires Follows(cfg, ups, out, completed, waits) && !out.SetupFailed?
    ensures out.GaveUp? <==> exists i :: EndsFailing(cfg, ups, i)
    ensures out.GaveUp? ==> EndsFailing(cfg, ups, completed) && forall i :: EndsFailing(cfg, ups, i) ==> completed <= i
  {
    assert ups[..|ups|] == ups;
    forall i: nat | i <= |ups| ensures Exhausted(cfg, ups[..i]) <==> EndsFailing(cfg, ups, i) {
      ExhaustedMeans(cfg, ups, i);
    }
    if out.GaveUp? {
      forall i | EndsFailing(cfg, ups, i) ensures completed <= i { assert Exhausted(cfg, ups[..i]); }
    } else {
      forall i: nat | i <= |ups| ensures !EndsFailing(cfg, ups, i) { assert i == 0 || !Exhausted(cfg, ups[..i]); }
    }
  }

  /** The first wait is the configured one, and so is the wait after a run that reached the stable
      threshold; any other is twice the one before, and at most a minute. */
  lemma WaitsDouble(cfg: Config, ups: seq<nat>, out: Outcome, completed: nat, waits: seq<nat>, i: nat)
    requires Follows(cfg, ups, out, completed, waits) && i < |waits|
    ensures |waits| <= |ups|
    ensures waits[i] == if i == 0 || ups[i] >= cfg.stableThreshold then cfg.backoff
                        else if 2 * waits[i - 1] < 60_000_000_000 then 2 * waits[i - 1] else 60_000_000_000
  {
    if i > 0 {
      assert ups[..i + 1][..i] == ups[..i];
      WaitsAreBounded(cfg, WaitIndex(cfg, ups[..i]));
    }
  }

  // ---------------------------------------------------------------- the two loops

  /** One turn of either loop after a run of the given uptime: the new counters, and whether the
      budget is used up. */
  lemma TurnMeans(cfg: Config, ups: seq<nat>, i: nat, attempt: nat, backoff: nat)
    requires i < |ups| && attempt == UnstableTail(cfg, ups[..i]) && backoff == NextBackoff(cfg, ups[..i])
    ensures UnstableTail(cfg, ups[..i + 1]) == if Stable(cfg, ups[i]) then 0 else attempt + 1
    ensures (if Stable(cfg, ups[i]) then cfg.backoff else backoff) == Wait(cfg, WaitIndex(cfg, ups[..i + 1]))
    ensures NextBackoff(cfg, ups[..i + 1]) == Min(2 * Wait(cfg, WaitIndex(cfg, ups[..i + 1])), MAX_BACKOFF)
  {
    assert ups[..i + 1][..i] == ups[..i];
    WaitsAreBounded(cfg, WaitIndex(cfg, ups[..i + 1]));
    if i > 0 { WaitsAreBounded(cfg, WaitIndex(cfg, ups[..i])); }
  }

  /** The backoff in force when the next run starts. */
  function NextBackoff(cfg: Config, ups: seq<nat>): nat {
    if ups == [] then cfg.backoff else Min(2 * Wait(cfg, WaitIndex(cfg, ups)), MAX_BACKOFF)
  }

  /** mpsd's Supervisor.Run. */
  method SuperviseMPS(cfg: Config, setupOk: bool, ups: seq<nat>) returns (out: Outcome, completed: nat, waits: seq<nat>)
    ensures Follows(cfg, ups, out, completed, waits)
    ensures out == SetupFailed <==> !setupOk
  {
    completed, waits := 0, [];
    if !setupOk { return SetupFailed, 0, []; }
    var attempt, backoff := 0, cfg.backoff;
    while completed < |ups|
      invariant completed <= |ups| && |waits| == completed
      invariant attempt == UnstableTail(cfg, ups[..completed]) && backoff == NextBackoff(cfg, ups[..completed])
      invariant forall i :: 0 < i <= completed ==> !Exhausted(cfg, ups[..i])
      invariant forall i :: 0 <= i < |waits| ==> waits[i] == Wait(cfg, WaitIndex(cfg, ups[..i + 1]))
    {
      TurnMeans(cfg, ups, completed, attempt, backoff);
      attempt := attempt + 1;
      var uptime := ups[completed];
      completed := completed + 1;
      if uptime >= cfg.stableThreshold { attempt, backoff := 0, cfg.backoff; }
      if cfg.maxRetries > 0 && attempt >= cfg.maxRetries {
        out := GaveUp(attempt);
        TailGrowsByOne(cfg, ups, completed);
        return;
      }
      waits := waits + [backoff];
      backoff := Min(backoff * 2, MAX_BACKOFF);
    }
    assert ups[..|ups|] == ups;
    out := ShutDown;
  }

  /** What a probe sees: during each connection readiness once it has synchronised, and in the wait
      after it none. */
  function Probes(synced: seq<bool>): seq<bool> {
    if synced == [] then [] else Probes(synced[..|synced| - 1]) + [synced[|synced| - 1], false]
  }

  lemma ProbesStep(synced: seq<bool>, i: nat)
    requires i < |synced|
    ensures forall before: seq<bool> {:trigger before + Probes(synced[..i])} ::
              before + Probes(synced[..i + 1]) == before + Probes(synced[..i]) + [synced[i], false]
  {
    assert synced[..i + 1][..i] == synced[..i];
  }

  /** fractiond's runWithRetry with the readiness it reports. */
  class Connection {
    const cfg: Config
    var ready: bool
    /** Readiness at the end of each connection and in the wait after it. */
    ghost var probed: seq<bool>

    constructor (cfg: Config)
      ensures this.cfg == cfg && !ready && probed == []
    {
      this.cfg, ready, probed := cfg, false, [];
    }

    /** One connection; its synchronisation, if it gets there, makes the plugin ready, and its end
        withdraws that. */
    method Connect(synchronises: bool)
      modifies this
      ensures !ready && probed == old(probed) + [old(ready) || synchronises, false]
    {
      if synchronises { ready := true; }
      probed := probed + [ready];
      ready := false;
      probed := probed + [ready];
    }

    /** synced[i]: the i-th connection got as far as a synchronisation. stubFailsAt: creating the
        stub for that attempt fails, which ends the loop at once. At the end of the script the
        shutdown signal comes in a wait or in a connection, which then ends too. */
    method RunWithRetry(ups: seq<nat>, synced: seq<bool>, stubFailsAt: Option<nat>)
      returns (out: Outcome, completed: nat, waits: seq<nat>)
      requires |synced| == |ups| && (stubFailsAt.Some? ==> stubFailsAt.value <= |ups|) && !ready
      modifies this
      ensures Follows(cfg, ups, out, completed, waits)
      ensures !ready && probed == old(probed) + Probes(synced[..completed])
      ensures out == SetupFailed ==> stubFailsAt == Some(completed)
      ensures stubFailsAt.Some? && out != SetupFailed ==> out.GaveUp? && completed <= stubFailsAt.value
    {
      completed, waits := 0, [];
      var attempt, backoff := 0, cfg.backoff;
      while completed < |ups|
        invariant completed <= |ups| && |waits| == completed
        invariant !ready && probed == old(probed) + Probes(synced[..completed])
        invariant stubFailsAt.Some? ==> completed <= stubFailsAt.value
        invariant attempt == UnstableTail(cfg, ups[..completed]) && backoff == NextBackoff(cfg, ups[..completed])
        invariant forall i :: 0 < i <= completed ==> !Exhausted(cfg, ups[..i])
        invariant forall i :: 0 <= i < |waits| ==> waits[i] == Wait(cfg, WaitIndex(cfg, ups[..i + 1]))
      {
        if stubFailsAt == Some(completed) { return SetupFailed, completed, waits; }
        TurnMeans(cfg, ups, completed, attempt, backoff);
        attempt := attempt + 1;
        var uptime := ups[completed];
        ProbesStep(synced, completed);
        Connect(synced[completed]);
        completed := completed + 1;
        if uptime >= cfg.stableThreshold { attempt, backoff := 0, cfg.backoff; }
        if cfg.maxRetries > 0 && attempt >= cfg.maxRetries {
          out := GaveUp(attempt);
          TailGrowsByOne(cfg, ups, completed);
          return;
        }
        waits := waits + [backoff];
        backoff := Min(backoff * 2, MAX_BACKOFF);
      }
      if stubFailsAt == Some(completed) { return SetupFailed, completed, waits; }
      assert ups[..|ups|] == ups;
      out := ShutDown;
    }
  }

  /** The budget is met exactly, never overshot. */
  lemma TailGrowsByOne(cfg: Config, ups: seq<nat>, n: nat)
    requires 0 < n <= |ups| && Exhausted(cfg, ups[..n]) && forall i :: 0 < i < n ==> !Exhausted(cfg, ups[..i])
    ensures UnstableTail(cfg, ups[..n]) == cfg.maxRetries
  {
    assert ups[..n][..n - 1] == ups[..n - 1];
    if n > 1 { assert !Exhausted(cfg, ups[..n - 1]); }
  }
}
