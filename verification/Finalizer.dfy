/** The finalizer protocol of the operator: reconciles run one at a time, but users, nodes and
    API failures interleave with every single API call
    (operator/internal/controller/gpufractioningconfig_controller.go and
    operator/internal/common/daemonmgr/conditions.go). */
module Finalizer {
  import opened Text

  /** The custom resource, as far as deletion is concerned. */
  datatype CR = CR(finalizer: bool, deleting: bool)

  /** Where the running reconcile stands. Sweeping to Releasing is reconcileDelete: rest are the
      targeted nodes no page has listed yet, more says that another page must be listed, page holds
      the nodes of the current page that were listed with the condition and are still to be cleaned,
      and failed says that a removal has failed. */
  datatype Reconcile =
    | Idle
    | AddingFinalizer
    | Patching
    | Sweeping(rest: set<string>, more: bool, page: set<string>, failed: bool)
    | CleaningLabels
    | Releasing

  /** nodes are the nodes the selector targets; marked are those carrying the condition. */
  datatype Cluster = Cluster(cr: Option<CR>, nodes: set<string>, marked: set<string>, pc: Reconcile)

  datatype Action =
    | CreateCR
    | DeleteCR
    | NodeJoins(node: string)
    | NodeLeaves(node: string)
    | StartReconcile
    | UpdateAddFinalizer(ok: bool)
    | PatchCondition(node: string, ok: bool)
    | DropCondition(node: string, ok: bool)
    | FinishReconcile
    | ListPage(listed: set<string>, ok: bool)
    | RemoveCondition(node: string, ok: bool)
    | SweepEnds
    | RemoveLabels(ok: bool)
    | UpdateRemoveFinalizer(ok: bool)

  /** The next page is due, and these are nodes it may hold. */
  predicate CanList(s: Cluster, listed: set<string>) {
    s.pc.Sweeping? && s.pc.more && s.pc.page == {} && listed <= s.pc.rest
  }

  /** One step. An action that is not possible in a state changes nothing. */
  function Step(s: Cluster, a: Action): Cluster {
    match a
    case CreateCR => if s.cr.None? then s.(cr := Some(CR(false, false))) else s
    case DeleteCR =>
      // the API server removes an object without finalizers at once, others are only marked
      if s.cr.None? then s
      else if s.cr.value.finalizer then s.(cr := Some(s.cr.value.(deleting := true)))
      else s.(cr := None)
    case NodeJoins(n) => if n in s.nodes then s else s.(nodes := s.nodes + {n})
    case NodeLeaves(n) => s.(nodes := s.nodes - {n}, marked := s.marked - {n})
    case StartReconcile =>
      if s.pc != Idle || s.cr.None? then s
      else if s.cr.value.deleting then
        if s.cr.value.finalizer then s.(pc := Sweeping(s.nodes, true, {}, false)) else s
      else if s.cr.value.finalizer then s.(pc := Patching)
      else s.(pc := AddingFinalizer)
    case UpdateAddFinalizer(ok) =>
      if s.pc != AddingFinalizer then s
      else if ok && s.cr.Some? && !s.cr.value.deleting
        then s.(cr := Some(s.cr.value.(finalizer := true)), pc := Patching)
      else s.(pc := Idle)
    case PatchCondition(n, ok) =>
      if s.pc == Patching && ok && n in s.nodes then s.(marked := s.marked + {n}) else s
    case DropCondition(n, ok) =>
      if s.pc == Patching && ok then s.(marked := s.marked - {n}) else s
    case FinishReconcile => if s.pc == Patching then s.(pc := Idle) else s
    case ListPage(listed, ok) =>
      // a failed listing ends the sweep, nodes listed without the condition are passed over
      if !CanList(s, listed) then s
      else if !ok then s.(pc := Idle)
      else
        var rest := s.pc.rest - listed;
        s.(pc := Sweeping(rest, rest != {}, listed * s.marked, s.pc.failed))
    case RemoveCondition(n, ok) =>
      if !(s.pc.Sweeping? && n in s.pc.page) then s
      else if ok then s.(marked := s.marked - {n}, pc := s.pc.(page := s.pc.page - {n}))
      else s.(pc := s.pc.(page := s.pc.page - {n}, failed := true))
    case SweepEnds =>
      if s.pc.Sweeping? && !s.pc.more && s.pc.page == {} then s.(pc := if s.pc.failed then Idle else CleaningLabels)
      else s
    case RemoveLabels(ok) => if s.pc == CleaningLabels then s.(pc := if ok then Releasing else Idle) else s
    case UpdateRemoveFinalizer(ok) =>
      if s.pc != Releasing then s
      else if ok && s.cr.Some?
        then s.(cr := if s.cr.value.deleting then None else Some(s.cr.value.(finalizer := false)), pc := Idle)
      else s.(pc := Idle)
  }

  function Run(s: Cluster, actions: seq<Action>): Cluster {
    if actions == [] then s else Step(Run(s, actions[..|actions| - 1]), actions[|actions| - 1])
  }

  predicate Held(s: Cluster) { s.cr.Some? && s.cr.value.finalizer }

  /** Inside reconcileDelete. */
  predicate Deleting(pc: Reconcile) { pc.Sweeping? || pc == CleaningLabels || pc == Releasing }

  predicate Inv(s: Cluster) {
    && s.marked <= s.nodes
    && (s.marked != {} ==> Held(s))
    && (s.pc == Patching ==> Held(s))
    && (Deleting(s.pc) ==> Held(s) && s.cr.value.deleting)
    && (s.pc.Sweeping? && !s.pc.more ==> s.pc.rest == {})
    && (s.pc.Sweeping? && !s.pc.failed ==> s.marked <= s.pc.rest + s.pc.page)
    && (s.pc == CleaningLabels || s.pc == Releasing ==> s.marked == {})
  }

  lemma StepKeepsInv(s: Cluster, a: Action)
    requires Inv(s)
    ensures Inv(Step(s, a))
  {
  }

  /** In every run from a cluster without conditions: a targeted node carries the condition only
      while the resource exists and holds the finalizer. */
  lemma {:induction false} ConditionsOnlyUnderFinalizer(nodes: set<string>, actions: seq<Action>)
    ensures var s := Run(Cluster(None, nodes, {}, Idle), actions);
            Inv(s) && (s.marked != {} ==> s.cr.Some? && s.cr.value.finalizer)
  {
    if actions != [] {
      ConditionsOnlyUnderFinalizer(nodes, actions[..|actions| - 1]);
      StepKeepsInv(Run(Cluster(None, nodes, {}, Idle), actions[..|actions| - 1]), actions[|actions| - 1]);
    }
  }

  /** Whatever the next step is, the finalizer disappears only by a successful release, at a
      moment when no targeted node carries the condition. */
  lemma FinalizerReleasedOnlyWhenClean(nodes: set<string>, actions: seq<Action>, a: Action)
    ensures var s := Run(Cluster(None, nodes, {}, Idle), actions);
            Held(s) && !Held(Step(s, a)) ==> a == UpdateRemoveFinalizer(true) && s.pc == Releasing && s.marked == {}
  {
    ConditionsOnlyUnderFinalizer(nodes, actions);
  }

  // ---------------------------------------------------------------- what a release was preceded by

  /** The state before action i of a run from a cluster without the resource. */
  function StateAt(nodes: set<string>, actions: seq<Action>, i: nat): Cluster
    requires i <= |actions|
  {
    Run(Cluster(None, nodes, {}, Idle), actions[..i])
  }

  /** Action n starts a reconcile of a resource that is being deleted and holds the finalizer, and
      that reconcile is still going on at the end. */
  ghost predicate DeletingSince(nodes: set<string>, actions: seq<Action>, n: nat) {
    && n < |actions| && actions[n] == StartReconcile
    && StateAt(nodes, actions, n).pc == Idle
    && Held(StateAt(nodes, actions, n)) && StateAt(nodes, actions, n).cr.value.deleting
    && forall i :: n < i <= |actions| ==> Deleting(StateAt(nodes, actions, i).pc)
  }

  /** After action n a page that holds m was listed. */
  ghost predicate ListedAfter(nodes: set<string>, actions: seq<Action>, n: nat, m: string) {
    exists i :: n < i < |actions| && Lists(StateAt(nodes, actions, i), actions[i], m)
  }

  predicate Lists(s: Cluster, a: Action, m: string) { a.ListPage? && a.ok && CanList(s, a.listed) && m in a.listed }

  /** After action n the condition of m was removed by a call that succeeded, or m went away. */
  ghost predicate ClearedAfter(nodes: set<string>, actions: seq<Action>, n: nat, m: string) {
    exists i :: n < i < |actions| && Clears(StateAt(nodes, actions, i), actions[i], m)
  }

  predicate Clears(s: Cluster, a: Action, m: string) {
    a == NodeLeaves(m) || (a == RemoveCondition(m, true) && s.pc.Sweeping? && m in s.pc.page)
  }

  /** A call of the sweep fails. */
  predicate Fails(s: Cluster, a: Action) {
    || (a.ListPage? && !a.ok && CanList(s, a.listed))
    || (a.RemoveCondition? && !a.ok && s.pc.Sweeping? && a.node in s.pc.page)
  }

  ghost predicate ErrorFreeAfter(nodes: set<string>, actions: seq<Action>, n: nat) {
    forall i :: n < i < |actions| ==> !Fails(StateAt(nodes, actions, i), actions[i])
  }

  /** A reconcile gets past the sweep only by a complete one without errors: since the reconcile
      began, every node targeted then was listed, every node marked then was cleared, and no listing
      and no removal has failed. */
  ghost predicate SweptSince(nodes: set<string>, actions: seq<Action>, n: nat) {
    && DeletingSince(nodes, actions, n)
    && ErrorFreeAfter(nodes, actions, n)
    && (forall m :: m in StateAt(nodes, actions, n).nodes ==> ListedAfter(nodes, actions, n, m))
    && (forall m :: m in StateAt(nodes, actions, n).marked ==> ClearedAfter(nodes, actions, n, m))
  }

  predicate StillToList(nodes: set<string>, actions: seq<Action>, m: string) {
    var s := StateAt(nodes, actions, |actions|);
    s.pc.Sweeping? && m in s.pc.rest
  }

  /** How far the sweep of the reconcile begun at n has come. */
  ghost predicate Progress(nodes: set<string>, actions: seq<Action>, n: nat) {
    && DeletingSince(nodes, actions, n)
    && FailureKnown(nodes, actions, n)
    && (forall m :: m in StateAt(nodes, actions, n).nodes ==>
       StillToList(nodes, actions, m) || ListedAfter(nodes, actions, n, m))
    && (forall m :: m in StateAt(nodes, actions, n).marked ==>
          m in StateAt(nodes, actions, |actions|).marked || ClearedAfter(nodes, actions, n, m))
  }

  /** One more action leaves the earlier states and facts as they were. */
  lemma Extends(nodes: set<string>, front: seq<Action>, a: Action, n: nat)
    requires n <= |front|
    ensures forall i :: 0 <= i <= |front| ==> StateAt(nodes, front + [a], i) == StateAt(nodes, front, i)
    ensures StateAt(nodes, front + [a], |front| + 1) == Step(StateAt(nodes, front, |front|), a)
    ensures forall m :: ListedAfter(nodes, front + [a], n, m) <==>
              ListedAfter(nodes, front, n, m) || (n < |front| && Lists(StateAt(nodes, front, |front|), a, m))
    ensures forall m :: ClearedAfter(nodes, front + [a], n, m) <==>
              ClearedAfter(nodes, front, n, m) || (n < |front| && Clears(StateAt(nodes, front, |front|), a, m))
  {
    var actions := front + [a];
    forall i | 0 <= i <= |front|
      ensures StateAt(nodes, actions, i) == StateAt(nodes, front, i)
    {
      assert actions[..i] == front[..i];
    }
    assert actions[..|front| + 1][..|front|] == front[..|front|];
    forall m
      ensures ListedAfter(nodes, actions, n, m) <==>
              ListedAfter(nodes, front, n, m) || (n < |front| && Lists(StateAt(nodes, front, |front|), a, m))
    {
      ListedExtends(nodes, front, a, n, m);
    }
    forall m
      ensures ClearedAfter(nodes, actions, n, m) <==>
              ClearedAfter(nodes, front, n, m) || (n < |front| && Clears(StateAt(nodes, front, |front|), a, m))
    {
      ClearedExtends(nodes, front, a, n, m);
    }
  }

  lemma ListedExtends(nodes: set<string>, front: seq<Action>, a: Action, n: nat, m: string)
    requires n <= |front|
    requires forall i :: 0 <= i <= |front| ==> StateAt(nodes, front + [a], i) == StateAt(nodes, front, i)
    ensures ListedAfter(nodes, front + [a], n, m) <==>
              ListedAfter(nodes, front, n, m) || (n < |front| && Lists(StateAt(nodes, front, |front|), a, m))
  {
    var actions := front + [a];
    if ListedAfter(nodes, actions, n, m) {
      var i :| n < i < |actions| && Lists(StateAt(nodes, actions, i), actions[i], m);
      if i < |front| { assert Lists(StateAt(nodes, front, i), front[i], m); }
    }
    if ListedAfter(nodes, front, n, m) {
      var i :| n < i < |front| && Lists(StateAt(nodes, front, i), front[i], m);
      assert Lists(StateAt(nodes, actions, i), actions[i], m);
    }
    if n < |front| && Lists(StateAt(nodes, front, |front|), a, m) {
      assert Lists(StateAt(nodes, actions, |front|), actions[|front|], m);
    }
  }

  lemma ClearedExtends(nodes: set<string>, front: seq<Action>, a: Action, n: nat, m: string)
    requires n <= |front|
    requires forall i :: 0 <= i <= |front| ==> StateAt(nodes, front + [a], i) == StateAt(nodes, front, i)
    ensures ClearedAfter(nodes, front + [a], n, m) <==>
              ClearedAfter(nodes, front, n, m) || (n < |front| && Clears(StateAt(nodes, front, |front|), a, m))
  {
    var actions := front + [a];
    if ClearedAfter(nodes, actions, n, m) {
      var i :| n < i < |actions| && Clears(StateAt(nodes, actions, i), actions[i], m);
      if i < |front| { assert Clears(StateAt(nodes, front, i), front[i], m); }
    }
    if ClearedAfter(nodes, front, n, m) {
      var i :| n < i < |front| && Clears(StateAt(nodes, front, i), front[i], m);
      assert Clears(StateAt(nodes, actions, i), actions[i], m);
    }
    if n < |front| && Clears(StateAt(nodes, front, |front|), a, m) {
      assert Clears(StateAt(nodes, actions, |front|), actions[|front|], m);
    }
  }

  lemma ProgressStarts(nodes: set<string>, front: seq<Action>, a: Action)
    requires !Deleting(StateAt(nodes, front, |front|).pc) && Deleting(StateAt(nodes, front + [a], |front| + 1).pc)
    ensures Progress(nodes, front + [a], |front|)
  {
    Extends(nodes, front, a, |front|);
  }

  /** What one step of a deletion does to a node that is still to be listed, to a marked node and to
      the record of failures. */
  lemma DeletionStep(s: Cluster, a: Action, m: string)
    requires Inv(s) && Deleting(s.pc) && Deleting(Step(s, a).pc)
    ensures var s' := Step(s, a);
            && (s.pc.Sweeping? && m in s.pc.rest ==> (s'.pc.Sweeping? && m in s'.pc.rest) || Lists(s, a, m))
            && (m in s.marked ==> m in s'.marked || Clears(s, a, m))
            && (Fails(s, a) || (s.pc.Sweeping? && s.pc.failed) ==> s'.pc.Sweeping? && s'.pc.failed)
  {
  }

  lemma ProgressContinues(nodes: set<string>, front: seq<Action>, a: Action, n: nat)
    requires Progress(nodes, front, n) && Deleting(StateAt(nodes, front + [a], |front| + 1).pc)
    requires Inv(StateAt(nodes, front, |front|))
    ensures Progress(nodes, front + [a], n)
  {
    StateExtends(nodes, front, a, n);
    DeletingContinues(nodes, front, a, n);
    FailuresContinue(nodes, front, a, n);
    forall m | m in StateAt(nodes, front, n).nodes
      ensures StillToList(nodes, front + [a], m) || ListedAfter(nodes, front + [a], n, m)
    {
      ListedContinues(nodes, front, a, n, m);
    }
    forall m | m in StateAt(nodes, front, n).marked
      ensures m in StateAt(nodes, front + [a], |front| + 1).marked || ClearedAfter(nodes, front + [a], n, m)
    {
      ClearedContinues(nodes, front, a, n, m);
    }
  }

  lemma StateExtends(nodes: set<string>, front: seq<Action>, a: Action, n: nat)
    requires n <= |front|
    ensures StateAt(nodes, front + [a], n) == StateAt(nodes, front, n)
    ensures StateAt(nodes, front + [a], |front| + 1) == Step(StateAt(nodes, front, |front|), a)
  {
    Extends(nodes, front, a, n);
  }

  ghost predicate FailureKnown(nodes: set<string>, actions: seq<Action>, n: nat) {
    var s := StateAt(nodes, actions, |actions|);
    (s.pc.Sweeping? && s.pc.failed) || ErrorFreeAfter(nodes, actions, n)
  }

  lemma FailuresContinue(nodes: set<string>, front: seq<Action>, a: Action, n: nat)
    requires Inv(StateAt(nodes, front, |front|)) && n < |front| && FailureKnown(nodes, front, n)
    requires Deleting(StateAt(nodes, front, |front|).pc) && Deleting(StateAt(nodes, front + [a], |front| + 1).pc)
    ensures FailureKnown(nodes, front + [a], n)
  {
    StateExtends(nodes, front, a, n);
    DeletionStep(StateAt(nodes, front, |front|), a, "");
    if !Fails(StateAt(nodes, front, |front|), a) && ErrorFreeAfter(nodes, front, n) {
      ErrorFreeContinues(nodes, front, a, n);
    }
  }

  lemma ListedContinues(nodes: set<string>, front: seq<Action>, a: Action, n: nat, m: string)
    requires Inv(StateAt(nodes, front, |front|)) && n < |front|
    requires Deleting(StateAt(nodes, front, |front|).pc) && Deleting(StateAt(nodes, front + [a], |front| + 1).pc)
    requires StillToList(nodes, front, m) || ListedAfter(nodes, front, n, m)
    ensures StillToList(nodes, front + [a], m) || ListedAfter(nodes, front + [a], n, m)
  {
    Extends(nodes, front, a, n);
    DeletionStep(StateAt(nodes, front, |front|), a, m);
  }

  lemma ClearedContinues(nodes: set<string>, front: seq<Action>, a: Action, n: nat, m: string)
    requires Inv(StateAt(nodes, front, |front|)) && n < |front|
    requires Deleting(StateAt(nodes, front, |front|).pc) && Deleting(StateAt(nodes, front + [a], |front| + 1).pc)
    requires m in StateAt(nodes, front, |front|).marked || ClearedAfter(nodes, front, n, m)
    ensures m in StateAt(nodes, front + [a], |front| + 1).marked || ClearedAfter(nodes, front + [a], n, m)
  {
    Extends(nodes, front, a, n);
    DeletionStep(StateAt(nodes, front, |front|), a, m);
  }

  lemma DeletingContinues(nodes: set<string>, front: seq<Action>, a: Action, n: nat)
    requires DeletingSince(nodes, front, n) && Deleting(StateAt(nodes, front + [a], |front| + 1).pc)
    ensures DeletingSince(nodes, front + [a], n)
  {
    Extends(nodes, front, a, n);
    forall i | n < i <= |front| + 1 ensures Deleting(StateAt(nodes, front + [a], i).pc) {
      if i <= |front| { assert Deleting(StateAt(nodes, front, i).pc); }
    }
  }

  lemma ErrorFreeContinues(nodes: set<string>, front: seq<Action>, a: Action, n: nat)
    requires n < |front| && ErrorFreeAfter(nodes, front, n) && !Fails(StateAt(nodes, front, |front|), a)
    ensures ErrorFreeAfter(nodes, front + [a], n)
  {
    Extends(nodes, front, a, n);
    forall i | n < i < |front| + 1 ensures !Fails(StateAt(nodes, front + [a], i), (front + [a])[i]) {
      if i < |front| { assert !Fails(StateAt(nodes, front, i), front[i]); }
    }
  }

  /** In every run: a reconcile that is deleting began at some action n, and once it is past the
      sweep, that sweep was complete and without error. */
  lemma {:induction false} ReleaseNeedsCompleteSweep(nodes: set<string>, actions: seq<Action>) returns (n: nat)
    ensures Deleting(Run(Cluster(None, nodes, {}, Idle), actions).pc) ==> Progress(nodes, actions, n)
    ensures Run(Cluster(None, nodes, {}, Idle), actions).pc in {CleaningLabels, Releasing} ==>
            SweptSince(nodes, actions, n)
  {
    n := 0;
    assert actions[..|actions|] == actions;
    if actions != [] {
      var front, a := actions[..|actions| - 1], actions[|actions| - 1];
      n := ReleaseNeedsCompleteSweep(nodes, front);
      assert actions == front + [a] && front[..|front|] == front;
      if Deleting(Run(Cluster(None, nodes, {}, Idle), actions).pc) {
        if Deleting(Run(Cluster(None, nodes, {}, Idle), front).pc) {
          ConditionsOnlyUnderFinalizer(nodes, front);
          ProgressContinues(nodes, front, a, n);
        } else {
          n := |front|;
          ProgressStarts(nodes, front, a);
        }
      }
      ConditionsOnlyUnderFinalizer(nodes, actions);
    }
  }

  /** The finalizer goes only after a complete sweep without error, at a moment when no targeted
      node carries the condition. */
  lemma FinalizerGoesOnlyAfterSweep(nodes: set<string>, actions: seq<Action>, a: Action) returns (n: nat)
    ensures var s := Run(Cluster(None, nodes, {}, Idle), actions);
            Held(s) && !Held(Step(s, a)) ==>
                a == UpdateRemoveFinalizer(true) && s.marked == {} && SweptSince(nodes, actions, n)
  {
    FinalizerReleasedOnlyWhenClean(nodes, actions, a);
    n := ReleaseNeedsCompleteSweep(nodes, actions);
  }
}
