/** Progress of the finalizer protocol: while API calls succeed, a deleted resource goes and a live one
    gets its conditions
    (operator/internal/controller/gpufractioningconfig_controller.go and
    operator/internal/common/daemonmgr/conditions.go). */
module FinalizerProgress {
  import opened Text
  import opened Finalizer

  /** A step of the controller in which no API call fails. */
  predicate Succeeds(a: Action) {
    match a
    case CreateCR => false
    case DeleteCR => false
    case NodeJoins(_) => false
    case NodeLeaves(_) => false
    case StartReconcile => true
    case UpdateAddFinalizer(ok) => ok
    case PatchCondition(_, ok) => ok
    case DropCondition(_, ok) => ok
    case FinishReconcile => true
    case ListPage(_, ok) => ok
    case RemoveCondition(_, ok) => ok
    case SweepEnds => true
    case RemoveLabels(ok) => ok
    case UpdateRemoveFinalizer(ok) => ok
  }

  predicate AllSucceed(actions: seq<Action>) { forall i :: 0 <= i < |actions| ==> Succeeds(actions[i]) }

  /** An API call of a deletion that fails. */
  predicate CallFails(a: Action) {
    || (a.ListPage? && !a.ok) || (a.RemoveCondition? && !a.ok)
    || (a.RemoveLabels? && !a.ok) || (a.UpdateRemoveFinalizer? && !a.ok)
  }

  // ---------------------------------------------------------------- main results

  /** From every state of every run in which the resource is being deleted: controller steps that
      succeed bring it to its end, with no node left marked. */
  lemma DeletionCanFinish(nodes: set<string>, actions: seq<Action>) returns (more: seq<Action>)
    requires var s := Run(Cluster(None, nodes, {}, Idle), actions); s.cr.Some? && s.cr.value.deleting
    ensures AllSucceed(more)
    ensures var s := Run(Cluster(None, nodes, {}, Idle), actions + more); s.cr.None? && s.marked == {}
  {
    var start := Cluster(None, nodes, {}, Idle);
    ConditionsOnlyUnderFinalizer(nodes, actions);
    DeletingIsHeld(nodes, actions);
    more := Finish(Run(start, actions));
    RunConcat(start, actions, more);
    ConditionsOnlyUnderFinalizer(nodes, actions + more);
  }

  /** From every state of every run with a live resource: controller steps that succeed mark any
      targeted node, and unmark it again. */
  lemma ConditionCanBeSet(nodes: set<string>, actions: seq<Action>, n: string) returns (more: seq<Action>)
    requires var s := Run(Cluster(None, nodes, {}, Idle), actions);
             s.cr.Some? && !s.cr.value.deleting && n in s.nodes
    ensures AllSucceed(more)
    ensures var s := Run(Cluster(None, nodes, {}, Idle), actions + more); n in s.marked && Held(s)
    ensures var s := Run(Cluster(None, nodes, {}, Idle), actions + more + [DropCondition(n, true)]); n !in s.marked
  {
    var start := Cluster(None, nodes, {}, Idle);
    ConditionsOnlyUnderFinalizer(nodes, actions);
    more := Mark(Run(start, actions), n);
    RunConcat(start, actions, more);
    assert (actions + more + [DropCondition(n, true)])[..|actions + more|] == actions + more;
  }

  /** A whole life: created, with any targeted node marked, deleted, and gone without a trace. */
  lemma LifeOfResource(nodes: set<string>, n: string) returns (up: seq<Action>, down: seq<Action>)
    requires n in nodes
    ensures n in Run(Cluster(None, nodes, {}, Idle), [CreateCR] + up).marked && AllSucceed(up)
    ensures var s := Run(Cluster(None, nodes, {}, Idle), [CreateCR] + up + [DeleteCR] + down);
            s.cr.None? && s.marked == {} && AllSucceed(down)
  {
    var start := Cluster(None, nodes, {}, Idle);
    assert [CreateCR][..0] == [];
    assert Run(start, []) == start;
    up := ConditionCanBeSet(nodes, [CreateCR], n);
    var live := [CreateCR] + up;
    assert (live + [DeleteCR])[..|live|] == live;
    down := DeletionCanFinish(nodes, live + [DeleteCR]);
  }

  /** A deletion whose sweep has had no failure goes on until the resource is gone, whatever users and
      nodes do, unless a call fails. */
  lemma {:induction false} DeletionGoesOn(s: Cluster, actions: seq<Action>)
    requires Inv(s) && OnCourse(s) && forall i :: 0 <= i < |actions| ==> !CallFails(actions[i])
    ensures OnCourse(Run(s, actions)) || exists i :: 0 <= i <= |actions| && Run(s, actions[..i]).cr.None?
  {
    if actions != [] {
      var front, a := actions[..|actions| - 1], actions[|actions| - 1];
      DeletionGoesOn(s, front);
      if OnCourse(Run(s, front)) {
        RunKeepsInv(s, front);
        StaysOnCourse(Run(s, front), a);
        assert actions[..|actions|] == actions;
      } else {
        var i :| 0 <= i <= |front| && Run(s, front[..i]).cr.None?;
        assert front[..i] == actions[..i];
      }
    }
  }

  /** A deletion with no failure so far. */
  predicate OnCourse(s: Cluster) { Deleting(s.pc) && !(s.pc.Sweeping? && s.pc.failed) }

  // ---------------------------------------------------------------- supporting lemmas

  lemma StaysOnCourse(s: Cluster, a: Action)
    requires Inv(s) && OnCourse(s) && !CallFails(a)
    ensures OnCourse(Step(s, a)) || Step(s, a).cr.None?
  {
  }

  lemma {:induction false} RunKeepsInv(s: Cluster, actions: seq<Action>)
    requires Inv(s)
    ensures Inv(Run(s, actions))
  {
    if actions != [] {
      RunKeepsInv(s, actions[..|actions| - 1]);
      StepKeepsInv(Run(s, actions[..|actions| - 1]), actions[|actions| - 1]);
    }
  }

  /** An object that is only marked for deletion has a finalizer. */
  lemma {:induction false} DeletingIsHeld(nodes: set<string>, actions: seq<Action>)
    ensures var s := Run(Cluster(None, nodes, {}, Idle), actions); s.cr.Some? && s.cr.value.deleting ==> Held(s)
  {
    if actions != [] {
      DeletingIsHeld(nodes, actions[..|actions| - 1]);
      ConditionsOnlyUnderFinalizer(nodes, actions[..|actions| - 1]);
    }
  }

  lemma {:induction false} RunConcat(s: Cluster, a: seq<Action>, b: seq<Action>)
    ensures Run(s, a + b) == Run(Run(s, a), b)
  {
    if b == [] {
      assert a + b == a;
    } else {
      RunConcat(s, a, b[..|b| - 1]);
      assert (a + b)[..|a + b| - 1] == a + b[..|b| - 1];
    }
  }

  lemma Prepend(s: Cluster, a: Action, rest: seq<Action>)
    ensures Run(s, [a] + rest) == Run(Step(s, a), rest)
  {
    RunConcat(s, [a], rest);
    assert [a][..0] == [];
    assert Run(s, []) == s;
  }

  /** A reconcile that will not itself release has to be over first. */
  function Detour(pc: Reconcile): nat {
    if pc == AddingFinalizer || pc == Patching || (pc.Sweeping? && pc.failed) then 1 else 0
  }

  function StagesLeft(pc: Reconcile): nat {
    match pc
    case Idle => 5
    case AddingFinalizer => 4
    case Patching => 4
    case Sweeping(_, more, _, _) => if more then 3 else 2
    case CleaningLabels => 1
    case Releasing => 0
  }

  function PageLeft(pc: Reconcile): nat { if pc.Sweeping? then |pc.page| else 0 }

  /** The controller's next step when its calls succeed. */
  ghost function NextStep(s: Cluster): (a: Action)
    ensures Succeeds(a)
  {
    match s.pc
    case Idle => StartReconcile
    case AddingFinalizer => UpdateAddFinalizer(true)
    case Patching => FinishReconcile
    case Sweeping(rest, more, page, _) =>
      if page != {} then (var n :| n in page; RemoveCondition(n, true))
      else if more then ListPage(rest, true)
      else SweepEnds
    case CleaningLabels => RemoveLabels(true)
    case Releasing => UpdateRemoveFinalizer(true)
  }

  lemma NextStepAdvances(s: Cluster)
    requires Inv(s) && Held(s) && s.cr.value.deleting
    ensures Advances(s, Step(s, NextStep(s)))
  {
    if s.pc.Sweeping? {
      if s.pc.page != {} { RemovalAdvances(s); } else { PageEndAdvances(s); }
    }
  }

  /** The resource is gone or its deletion is nearer to its end. */
  predicate Advances(s: Cluster, s': Cluster) {
    s'.cr.None? || (Held(s') && s'.cr.value.deleting && Nearer(s.pc, s'.pc))
  }

  lemma RemovalAdvances(s: Cluster)
    requires Held(s) && s.cr.value.deleting && s.pc.Sweeping? && s.pc.page != {}
    ensures Advances(s, Step(s, NextStep(s)))
  {
    var a := NextStep(s);
    assert a.RemoveCondition? && a.node in s.pc.page && a.ok;
    assert |s.pc.page - {a.node}| == |s.pc.page| - 1;
  }

  lemma PageEndAdvances(s: Cluster)
    requires Held(s) && s.cr.value.deleting && s.pc.Sweeping? && s.pc.page == {}
    ensures Advances(s, Step(s, NextStep(s)))
  {
  }

  predicate Nearer(pc: Reconcile, pc': Reconcile) {
    || Detour(pc') < Detour(pc)
    || (Detour(pc') == Detour(pc) && StagesLeft(pc') < StagesLeft(pc))
    || (Detour(pc') == Detour(pc) && StagesLeft(pc') == StagesLeft(pc) && PageLeft(pc') < PageLeft(pc))
  }

  lemma {:induction false} Finish(s: Cluster) returns (more: seq<Action>)
    requires Inv(s) && Held(s) && s.cr.value.deleting
    ensures AllSucceed(more) && Run(s, more).cr.None?
    decreases Detour(s.pc), StagesLeft(s.pc), PageLeft(s.pc)
  {
    var a := NextStep(s);
    NextStepAdvances(s);
    StepKeepsInv(s, a);
    var rest := [];
    if Step(s, a).cr.Some? { rest := Finish(Step(s, a)); }
    more := [a] + rest;
    Prepend(s, a, rest);
  }

  lemma {:induction false} Mark(s: Cluster, n: string) returns (more: seq<Action>)
    requires Inv(s) && s.cr.Some? && !s.cr.value.deleting && n in s.nodes
    ensures AllSucceed(more) && n in Run(s, more).marked && Held(Run(s, more)) && Run(s, more).pc == Patching
    decreases if s.pc == Idle then 2 else if s.pc == AddingFinalizer then 1 else 0
  {
    var a := if s.pc == Patching then PatchCondition(n, true)
             else if s.pc == AddingFinalizer then UpdateAddFinalizer(true) else StartReconcile;
    StepKeepsInv(s, a);
    var rest := [];
    if s.pc != Patching { rest := Mark(Step(s, a), n); }
    more := [a] + rest;
    Prepend(s, a, rest);
  }
}
