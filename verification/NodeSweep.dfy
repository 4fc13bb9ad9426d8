/** The node condition the operator maintains: single patches, the paginated sweep over managed
    pods, and its removal
    (operator/internal/common/daemonmgr/conditions.go and
    operator/internal/controller/gpufractioningconfig_controller.go). */
module NodeSweep {
  import opened Text

  const REASON_READY := "AllDaemonsReady"
  const MESSAGE_READY := "all gpu-fractioning daemons are running"

  /** The gpu-fractioning.nvidia.com/Ready condition of a node. Times are abstract. */
  datatype Condition = Condition(status: bool, reason: string, message: string, heartbeat: nat, transition: nat)

  /** A managed pod: failure is the reason derived from its container statuses and phase. */
  datatype Pod = Pod(node: string, ready: bool, component: string, failure: string)

  type Conditions = map<string, Condition>

  /** What the driver checker makes of a node's False condition: another reason and message. */
  type DriverCheck = string -> Option<(string, string)>

  // ---------------------------------------------------------------- one patch

  /** PatchNodeCondition when the node could be read and patched. */
  function Patched(existing: Option<Condition>, status: bool, reason: string, message: string, now: nat): Condition {
    if existing.Some? && existing.value.status == status then
      if existing.value.reason == reason && existing.value.message == message then existing.value
      else Condition(status, reason, message, now, existing.value.transition)
    else Condition(status, reason, message, now, now)
  }

  /** A patch sets the wanted status and keeps the transition time exactly when the status was
      already that one. */
  lemma PatchKeepsTransitionIffStatusSame(existing: Condition, status: bool, reason: string, message: string, now: nat)
    requires now > existing.transition
    ensures var c := Patched(Some(existing), status, reason, message, now);
            c.status == status && c.reason == reason && c.message == message
            && (c.transition == existing.transition <==> existing.status == status)
  {
  }

  function At(conds: Conditions, n: string): Option<Condition> { if n in conds then Some(conds[n]) else None }

  // ---------------------------------------------------------------- the sweep

  datatype Sweep = Sweep(conds: Conditions, unhealthy: set<string>, seen: set<string>, clock: nat)

  /** nodeConditionForPod followed by the driver check: reason and message for a pod. */
  function Explain(pod: Pod, check: DriverCheck): (string, string) {
    if pod.ready then (REASON_READY, MESSAGE_READY)
    else match check(pod.node)
      case Some(driver) => driver
      case None => (pod.failure, pod.component + " pod is not ready: " + pod.failure)
  }

  /** One pod, with the reason and message its node gets if it is patched. */
  function VisitWith(s: Sweep, pod: Pod, why: (string, string)): Sweep {
    if pod.node == "" then s
    else if pod.ready && pod.node in s.unhealthy then s.(seen := s.seen + {pod.node})
    else
      Sweep(s.conds[pod.node := Patched(At(s.conds, pod.node), pod.ready, why.0, why.1, s.clock)],
            if pod.ready then s.unhealthy else s.unhealthy + {pod.node},
            s.seen + {pod.node},
            s.clock + 1)
  }

  function Visit(s: Sweep, pod: Pod, check: DriverCheck): Sweep { VisitWith(s, pod, Explain(pod, check)) }

  function VisitAll(s: Sweep, pods: seq<Pod>, check: DriverCheck): Sweep {
    if pods == [] then s else Visit(VisitAll(s, pods[..|pods| - 1], check), pods[|pods| - 1], check)
  }

  function Flatten<T>(pages: seq<seq<T>>): seq<T> {
    if pages == [] then [] else Flatten(pages[..|pages| - 1]) + pages[|pages| - 1]
  }

  // ---------------------------------------------------------------- the batch definition

  function Nodes(pods: seq<Pod>): set<string> { set p | p in pods && p.node != "" :: p.node }

  function Degraded(pods: seq<Pod>): set<string> { set p | p in pods && p.node != "" && !p.ready :: p.node }

  /** The first pod on the node is ready. */
  predicate FirstReady(pods: seq<Pod>, n: string) {
    pods != [] &&
    var front, last := pods[..|pods| - 1], pods[|pods| - 1];
    if n in Nodes(front) then FirstReady(front, n) else last.node == n && last.ready
  }

  /** What a whole list of pods asks for: each node seen is True exactly when all its managed pods
      are ready, and unseen nodes keep their condition. */
  ghost predicate IsBatch(conds: Conditions, pods: seq<Pod>, s: Sweep) {
    && s.seen == Nodes(pods) && s.unhealthy == Degraded(pods) && s.unhealthy <= s.seen
    && (forall n :: n in s.seen ==> n in s.conds && s.conds[n].status == (n !in s.unhealthy))
    && (forall n :: n !in s.seen ==> At(s.conds, n) == At(conds, n))
  }

  /** Streaming equals batch: patching node by node as the pods go by ends where the whole list
      says. */
  lemma {:induction false} StreamingEqualsBatch(conds: Conditions, clock: nat, pods: seq<Pod>, check: DriverCheck)
    ensures IsBatch(conds, pods, VisitAll(Sweep(conds, {}, {}, clock), pods, check))
  {
    if pods != [] {
      var front, last := pods[..|pods| - 1], pods[|pods| - 1];
      StreamingEqualsBatch(conds, clock, front, check);
      VisitKeepsBatch(conds, front, last, VisitAll(Sweep(conds, {}, {}, clock), front, check), check);
      assert pods == front + [last];
    }
  }

  lemma VisitKeepsBatch(conds: Conditions, front: seq<Pod>, last: Pod, s: Sweep, check: DriverCheck)
    requires IsBatch(conds, front, s)
    ensures IsBatch(conds, front + [last], Visit(s, last, check))
  {
    VisitWithKeepsBatch(conds, front, last, s, Explain(last, check));
  }

  lemma VisitWithKeepsBatch(conds: Conditions, front: seq<Pod>, last: Pod, s: Sweep, why: (string, string))
    requires IsBatch(conds, front, s)
    ensures IsBatch(conds, front + [last], VisitWith(s, last, why))
  {
    BatchStep(front, last);
  }

  lemma BatchStep(front: seq<Pod>, last: Pod)
    ensures Nodes(front + [last]) == Nodes(front) + if last.node != "" then {last.node} else {}
    ensures Degraded(front + [last]) == Degraded(front) + if last.node != "" && !last.ready then {last.node} else {}
  {
  }

  /** The last unready pod on a node. */
  predicate LastUnready(pods: seq<Pod>, n: string, i: int) {
    && 0 <= i < |pods| && pods[i].node == n && !pods[i].ready
    && forall j :: i < j < |pods| && pods[j].node == n ==> pods[j].ready
  }

  /** A condition gives what the driver check found on the node, or else why a pod is not ready. */
  predicate Tells(c: Condition, pod: Pod, check: DriverCheck) {
    match check(pod.node)
    case Some(driver) => (c.reason, c.message) == driver
    case None => c.reason == pod.failure && c.message == pod.component + " pod is not ready: " + pod.failure
  }

  /** A condition says that all daemons are ready on a node without unready pods, and otherwise what is
      wrong with the last unready one. */
  ghost predicate Explained(pods: seq<Pod>, n: string, c: Condition, check: DriverCheck) {
    if n in Degraded(pods) then exists i :: LastUnready(pods, n, i) && Tells(c, pods[i], check)
    else c.reason == "AllDaemonsReady" && c.message == "all gpu-fractioning daemons are running"
  }

  /** After a pass every node seen says so. */
  lemma {:induction false} SweepExplains(conds: Conditions, clock: nat, pods: seq<Pod>, check: DriverCheck, n: string)
    requires n in Nodes(pods)
    ensures var s := VisitAll(Sweep(conds, {}, {}, clock), pods, check);
            n in s.conds && Explained(pods, n, s.conds[n], check)
  {
    var front, last := pods[..|pods| - 1], pods[|pods| - 1];
    assert pods == front + [last];
    StreamingEqualsBatch(conds, clock, front, check);
    BatchStep(front, last);
    if n in Nodes(front) { SweepExplains(conds, clock, front, check, n); }
    VisitExplains(conds, front, last, VisitAll(Sweep(conds, {}, {}, clock), front, check), check, n);
  }

  lemma VisitExplains(conds: Conditions, front: seq<Pod>, last: Pod, s: Sweep, check: DriverCheck, n: string)
    requires IsBatch(conds, front, s) && n in Nodes(front + [last])
    requires n in Nodes(front) ==> n in s.conds && Explained(front, n, s.conds[n], check)
    ensures var s' := Visit(s, last, check); n in s'.conds && Explained(front + [last], n, s'.conds[n], check)
  {
    BatchStep(front, last);
    if last.node != n || (last.ready && n in Degraded(front)) {
      ExplanationStays(front, last, n, s.conds[n], check);
    } else {
      PatchExplains(front, last, s, check);
    }
  }

  lemma ExplanationStays(front: seq<Pod>, last: Pod, n: string, c: Condition, check: DriverCheck)
    requires last.node != n || (last.ready && n in Degraded(front))
    requires Explained(front, n, c, check)
    ensures Explained(front + [last], n, c, check)
  {
    var pods := front + [last];
    BatchStep(front, last);
    if n in Degraded(front) {
      var i :| LastUnready(front, n, i) && Tells(c, front[i], check);
      assert pods[i] == front[i] && LastUnready(pods, n, i);
    }
  }

  lemma PatchExplains(front: seq<Pod>, last: Pod, s: Sweep, check: DriverCheck)
    requires last.node != "" && !(last.ready && last.node in Degraded(front)) && s.unhealthy == Degraded(front)
    ensures var s' := Visit(s, last, check);
            last.node in s'.conds && Explained(front + [last], last.node, s'.conds[last.node], check)
  {
    var pods := front + [last];
    BatchStep(front, last);
    if !last.ready { assert LastUnready(pods, last.node, |front|) && pods[|front|] == last; }
  }

  /** How the pages were cut does not matter. */
  lemma {:induction false} PagesAreOneStream(s: Sweep, a: seq<Pod>, b: seq<Pod>, check: DriverCheck)
    ensures VisitAll(s, a + b, check) == VisitAll(VisitAll(s, a, check), b, check)
  {
    if b == [] {
      assert a + b == a;
    } else {
      PagesAreOneStream(s, a, b[..|b| - 1], check);
      assert (a + b)[..|a + b| - 1] == a + b[..|b| - 1];
    }
  }

  /** Over a whole pass the transition time of a node that had a condition is kept exactly when
      the very first pod seen on it agrees with the old status and no later pod changes it: an
      old True needs all pods ready; an old False only needs the first pod to be unready. So a
      node that stays False can still have its transition time reset by an early ready pod. */
  lemma {:induction false} PassKeepsTransitionIff(conds: Conditions, clock: nat, pods: seq<Pod>, check: DriverCheck,
      n: string)
    requires n in conds && conds[n].transition < clock && n in Nodes(pods)
    ensures var s := VisitAll(Sweep(conds, {}, {}, clock), pods, check);
            n in s.conds && (s.conds[n].transition == conds[n].transition <==> Agrees(conds[n].status, pods, n))
  {
    var front, last := pods[..|pods| - 1], pods[|pods| - 1];
    assert pods == front + [last];
    var start := Sweep(conds, {}, {}, clock);
    var s := VisitAll(start, front, check);
    StreamingEqualsBatch(conds, clock, front, check);
    ClockGrows(start, front, check);
    VisitTransition(s, last, check, n);
    if n in Nodes(front) {
      PassKeepsTransitionIff(conds, clock, front, check, n);
      AgreesStep(conds[n].status, front, last, n);
      if !FirstReady(front, n) { FirstUnreadyDegrades(front, n); }
    } else {
      assert At(s.conds, n) == At(conds, n);
    }
  }

  /** A node that was False and stays False, whose only change is a ready pod seen before an unready
      one, has its transition time reset. */
  lemma EarlyReadyPodResetsTransition(old_: Condition, clock: nat, node: string, component: string, failure: string,
      check: DriverCheck)
    requires node != "" && !old_.status && old_.transition < clock
    ensures var pods := [Pod(node, true, component, failure), Pod(node, false, component, failure)];
            var s := VisitAll(Sweep(map[node := old_], {}, {}, clock), pods, check);
            node in s.conds && s.conds[node].status == old_.status && s.conds[node].transition != old_.transition
  {
    var up, down := Pod(node, true, component, failure), Pod(node, false, component, failure);
    var pods, conds := [up, down], map[node := old_];
    assert pods[0] in pods && pods[1] in pods;
    assert pods[..1] == [up] && [up][..0] == [];
    StreamingEqualsBatch(conds, clock, pods, check);
    PassKeepsTransitionIff(conds, clock, pods, check, node);
    assert FirstReady([up], node);
  }

  /** The pods seen on a node never contradict the status it started with. */
  predicate Agrees(status: bool, pods: seq<Pod>, n: string) {
    if status then n !in Degraded(pods) else !FirstReady(pods, n)
  }

  lemma {:induction false} FirstUnreadyDegrades(pods: seq<Pod>, n: string)
    requires n in Nodes(pods) && !FirstReady(pods, n)
    ensures n in Degraded(pods)
  {
    var front, last := pods[..|pods| - 1], pods[|pods| - 1];
    assert pods == front + [last];
    if n in Nodes(front) { FirstUnreadyDegrades(front, n); }
  }

  lemma AgreesStep(status: bool, front: seq<Pod>, last: Pod, n: string)
    requires n in Nodes(front)
    ensures Agrees(status, front + [last], n) <==>
            Agrees(status, front, n) && !(status && last.node == n && !last.ready)
  {
    assert (front + [last])[..|front|] == front;
    if last.node == n { assert n != ""; }
  }

  /** What one more pod does to a node's transition time. */
  lemma VisitTransition(s: Sweep, pod: Pod, check: DriverCheck, n: string)
    requires n in s.conds && n != ""
    ensures var s' := Visit(s, pod, check);
            n in s'.conds && s'.conds[n].transition ==
              if pod.node == n && !(pod.ready && n in s.unhealthy) && s.conds[n].status != pod.ready then s.clock
              else s.conds[n].transition
  {
  }

  lemma {:induction false} ClockGrows(s: Sweep, pods: seq<Pod>, check: DriverCheck)
    ensures VisitAll(s, pods, check).clock >= s.clock
  {
    if pods != [] { ClockGrows(s, pods[..|pods| - 1], check); }
  }

  // ---------------------------------------------------------------- the code

  /** How many pages a sweep lists: it ends at the first listing that fails. */
  function PagesListed(listOk: seq<bool>): (k: nat)
    ensures k <= |listOk|
  {
    if listOk == [] || !listOk[0] then 0 else 1 + PagesListed(listOk[1..])
  }

  lemma {:induction false} PagesListedMeans(listOk: seq<bool>, k: nat)
    requires k <= |listOk| && forall i :: 0 <= i < k ==> listOk[i]
    ensures k == |listOk| || !listOk[k] ==> PagesListed(listOk) == k
  {
    if k > 0 { PagesListedMeans(listOk[1..], k - 1); }
  }

  /** The conditions without those of the named nodes whose deletion does not fail. */
  function Cleaned(conds: Conditions, names: seq<string>, deleteFails: string -> bool): Conditions {
    map n | n in conds && !(n in names && !deleteFails(n)) :: conds[n]
  }

  predicate AllCleaned(conds: Conditions, names: seq<string>, deleteFails: string -> bool) {
    forall n :: n in names && n in conds ==> !deleteFails(n)
  }

  lemma CleanedMore(conds: Conditions, a: seq<string>, b: seq<string>, deleteFails: string -> bool)
    ensures Cleaned(Cleaned(conds, a, deleteFails), b, deleteFails) == Cleaned(conds, a + b, deleteFails)
    ensures AllCleaned(conds, a + b, deleteFails) <==>
              AllCleaned(conds, a, deleteFails) && AllCleaned(Cleaned(conds, a, deleteFails), b, deleteFails)
  {
    assert forall n :: n in a + b <==> n in a || n in b;
  }

  /** Nothing to patch. */
  predicate UpToDate(read: Option<Condition>, status: bool, reason: string, message: string) {
    read.Some? && read.value.status == status && read.value.reason == reason && read.value.message == message
  }

  class Cluster {
    var conditions: Conditions
    var clock: nat

    constructor (conditions: Conditions, clock: nat)
      ensures this.conditions == conditions && this.clock == clock
    {
      this.conditions, this.clock := conditions, clock;
    }

    /** PatchNodeCondition. A failed read forgets the old transition time, a failed patch changes
        nothing. */
    method PatchNodeCondition(node: string, status: bool, reason: string, message: string, readOk: bool, patchOk: bool)
      returns (ok: bool)
      modifies this
      ensures clock == old(clock) + 1
      ensures var read := if readOk then At(old(conditions), node) else None;
              && (ok <==> patchOk || UpToDate(read, status, reason, message))
              && conditions
                 == (if ok then old(conditions)[node := Patched(read, status, reason, message, old(clock))]
                     else old(conditions))
    {
      var now := clock;
      clock := clock + 1;
      var transition := now;
      if readOk && node in conditions {
        var existing := conditions[node];
        if existing.status == status {
          if existing.reason == reason && existing.message == message {
            assert conditions[node := existing] == conditions;
            return true;
          }
          transition := existing.transition;
        }
      }
      if !patchOk { return false; }
      conditions := conditions[node := Condition(status, reason, message, now, transition)];
      ok := true;
    }

    /** patchNodeConditions without API errors: pods arrive in pages and nodes are patched as they
        stream by. */
    method PatchNodeConditions(pages: seq<seq<Pod>>, check: DriverCheck)
      returns (unhealthy: bool, readyNodes: int, degradedNodes: int)
      modifies this
      ensures var pods := Flatten(pages);
              && conditions == VisitAll(Sweep(old(conditions), {}, {}, old(clock)), pods, check).conds
              && (forall n :: n in Nodes(pods) ==> n in conditions && conditions[n].status == (n !in Degraded(pods)))
              && (forall n :: n in Nodes(pods) ==> Explained(pods, n, conditions[n], check))
              && (forall n :: n !in Nodes(pods) ==> At(conditions, n) == At(old(conditions), n))
              && (unhealthy <==> exists p :: p in pods && p.node != "" && !p.ready)
              && degradedNodes == |Degraded(pods)| && readyNodes + degradedNodes == |Nodes(pods)|
    {
      var unhealthyNodes: set<string> := {};
      var seenNodes: set<string> := {};
      ghost var start := Sweep(conditions, {}, {}, clock);
      for i := 0 to |pages|
        invariant Sweep(conditions, unhealthyNodes, seenNodes, clock) == VisitAll(start, Flatten(pages[..i]), check)
      {
        assert pages[..i + 1][..i] == pages[..i];
        PagesAreOneStream(start, Flatten(pages[..i]), pages[i], check);
        unhealthyNodes, seenNodes := PatchPage(pages[i], check, unhealthyNodes, seenNodes);
      }
      assert pages[..|pages|] == pages;
      StreamingEqualsBatch(old(conditions), old(clock), Flatten(pages), check);
      forall n | n in Nodes(Flatten(pages)) ensures Explained(Flatten(pages), n, conditions[n], check) {
        SweepExplains(old(conditions), old(clock), Flatten(pages), check, n);
      }
      degradedNodes := |unhealthyNodes|;
      readyNodes := |seenNodes| - degradedNodes;
      unhealthy := degradedNodes > 0;
      UnhealthyMeans(Flatten(pages));
    }

    method PatchPage(page: seq<Pod>, check: DriverCheck, unhealthy0: set<string>, seen0: set<string>)
      returns (unhealthy: set<string>, seen: set<string>)
      modifies this
      ensures Sweep(conditions, unhealthy, seen, clock)
              == VisitAll(Sweep(old(conditions), unhealthy0, seen0, old(clock)), page, check)
    {
      unhealthy, seen := unhealthy0, seen0;
      ghost var start := Sweep(conditions, unhealthy, seen, clock);
      for i := 0 to |page|
        invariant Sweep(conditions, unhealthy, seen, clock) == VisitAll(start, page[..i], check)
      {
        assert page[..i + 1][..i] == page[..i];
        var pod := page[i];
        if pod.node == "" { continue; }
        seen := seen + {pod.node};
        if !pod.ready {
          unhealthy := unhealthy + {pod.node};
        } else if pod.node in unhealthy {
          continue;
        }
        var why := Explain(pod, check);
        var ok := PatchNodeCondition(pod.node, pod.ready, why.0, why.1, true, true);
      }
      assert page[..|page|] == page;
    }

    /** RemoveNodeConditions: lists the targeted nodes page by page and deletes the condition from
        each that carries it. A list failure ends the sweep, a node failure does not: every node
        listed before such an end whose deletion does not fail is clean, and nothing else changes.
        Success means that every page was listed and no deletion failed. */
    method RemoveNodeConditions(pages: seq<seq<string>>, listOk: seq<bool>, deleteFails: string -> bool)
      returns (ok: bool)
      requires |listOk| == |pages|
      modifies this`conditions
      ensures conditions == Cleaned(old(conditions), Flatten(pages[..PagesListed(listOk)]), deleteFails)
      ensures ok <==>
              (forall i :: 0 <= i < |pages| ==> listOk[i]) && AllCleaned(old(conditions), Flatten(pages), deleteFails)
      ensures ok ==> forall n :: n in Flatten(pages) ==> n !in conditions
    {
      ok := true;
      for i := 0 to |pages|
        invariant forall k :: 0 <= k < i ==> listOk[k]
        invariant ok <==> AllCleaned(old(conditions), Flatten(pages[..i]), deleteFails)
        invariant conditions == Cleaned(old(conditions), Flatten(pages[..i]), deleteFails)
      {
        PagesListedMeans(listOk, i);
        if !listOk[i] { return false; }
        assert pages[..i + 1][..i] == pages[..i];
        CleanedMore(old(conditions), Flatten(pages[..i]), pages[i], deleteFails);
        var pageOk := RemoveFromPage(pages[i], deleteFails);
        ok := ok && pageOk;
      }
      PagesListedMeans(listOk, |pages|);
      assert pages[..|pages|] == pages;
    }

    method RemoveFromPage(page: seq<string>, deleteFails: string -> bool) returns (ok: bool)
      modifies this`conditions
      ensures ok <==> AllCleaned(old(conditions), page, deleteFails)
      ensures conditions == Cleaned(old(conditions), page, deleteFails)
    {
      ok := true;
      for i := 0 to |page|
        invariant ok <==> AllCleaned(old(conditions), page[..i], deleteFails)
        invariant conditions == Cleaned(old(conditions), page[..i], deleteFails)
      {
        assert page[..i + 1] == page[..i] + [page[i]];
        if page[i] !in conditions { continue; }
        if deleteFails(page[i]) { ok := false; } else { conditions := conditions - {page[i]}; }
      }
      assert page[..|page|] == page;
    }
  }

  lemma UnhealthyMeans(pods: seq<Pod>)
    ensures |Degraded(pods)| > 0 <==> exists p :: p in pods && p.node != "" && !p.ready
    ensures |Degraded(pods)| <= |Nodes(pods)|
  {
    Subset(Degraded(pods), Nodes(pods));
    if p :| p in pods && p.node != "" && !p.ready {
      assert p.node in Degraded(pods);
    }
    if |Degraded(pods)| > 0 {
      var n :| n in Degraded(pods);
    }
  }

  lemma {:induction false} Subset(a: set<string>, b: set<string>)
    requires a <= b
    ensures |a| <= |b|
  {
    if a != {} {
      var x :| x in a;
      Subset(a - {x}, b - {x});
    }
  }
}
