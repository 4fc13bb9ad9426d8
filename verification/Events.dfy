/** The bounded, non-blocking event queue between the runtime hooks and the mapping writer
    (fractioning-manager/fractiond/internal/events/events.go). */
module Events {
  import opened Text
  import opened ContainerStores
  import opened FsStores
  import opened FsRefinement

  const QUEUE_DEPTH := 10 * 1024

  /** What running a queued adapter on the worker turns out to do. */
  datatype Adapted = Yields(info: ContainerInfo) | Skips | Panics
  datatype SyncAdapted = SyncYields(infos: seq<ContainerInfo>) | SyncPanics

  datatype Event = UpsertEvent(adapt: Adapted) | RemoveEvent(id: string) | SyncEvent(sync: SyncAdapted)

  /** A queued event, or a flush barrier named by its done channel. */
  datatype Item = Ev(event: Event) | Barrier(done: nat)

  /** The queue and the writer calls made so far, with what the proofs refer to: every
      accepted event, those of them the worker has taken, and for each barrier how many
      events had been accepted when it was sent. */
  datatype State = State(
    queue: seq<Item>,
    calls: seq<Op>,
    closed: set<nat>,
    accepted: seq<Event>,
    taken: seq<Event>,
    sentAt: map<nat, nat>)

  datatype Action = Offer(event: Event) | SendBarrier(done: nat) | Work

  const EMPTY := State([], [], {}, [], [], map[])

  /** apply: the writer call an event leads to, if any. An empty sync from a reconnect is
      skipped, and a panicking adapter makes no call. */
  function CallOf(ev: Event): seq<Op> {
    match ev
    case UpsertEvent(Yields(info)) => [Upsert(info)]
    case UpsertEvent(_) => []
    case RemoveEvent(id) => [Delete(id)]
    case SyncEvent(SyncYields(infos)) => if |infos| == 0 then [] else [Replace(infos)]
    case SyncEvent(SyncPanics) => []
  }

  function CallsOf(evs: seq<Event>): seq<Op> {
    if evs == [] then [] else CallsOf(evs[..|evs| - 1]) + CallOf(evs[|evs| - 1])
  }

  function Step(s: State, a: Action): State {
    match a
    case Offer(ev) =>
      if |s.queue| < QUEUE_DEPTH then s.(queue := s.queue + [Ev(ev)], accepted := s.accepted + [ev]) else s
    case SendBarrier(done) =>
      // a send on a full channel blocks, and every flush makes its own channel
      if |s.queue| < QUEUE_DEPTH && done !in s.sentAt
      then s.(queue := s.queue + [Barrier(done)], sentAt := s.sentAt[done := |s.accepted|]) else s
    case Work =>
      if s.queue == [] then s
      else match s.queue[0]
        case Barrier(done) => s.(queue := s.queue[1..], closed := s.closed + {done})
        case Ev(ev) => s.(queue := s.queue[1..], calls := s.calls + CallOf(ev), taken := s.taken + [ev])
  }

  function Run(s: State, schedule: seq<Action>): State {
    if schedule == [] then s else Step(Run(s, schedule[..|schedule| - 1]), schedule[|schedule| - 1])
  }

  function EventsIn(queue: seq<Item>): seq<Event> {
    if queue == [] then []
    else
      var last := queue[|queue| - 1];
      EventsIn(queue[..|queue| - 1]) + (if last.Ev? then [last.event] else [])
  }

  function Offered(schedule: seq<Action>): seq<Event> {
    if schedule == [] then []
    else
      var last := schedule[|schedule| - 1];
      Offered(schedule[..|schedule| - 1]) + (if last.Offer? then [last.event] else [])
  }

  predicate Subsequence<T(==)>(a: seq<T>, b: seq<T>) {
    if a == [] then true
    else if b == [] then false
    else Subsequence(a, b[..|b| - 1]) || (a[|a| - 1] == b[|b| - 1] && Subsequence(a[..|a| - 1], b[..|b| - 1]))
  }

  // ---------------------------------------------------------------- the invariant

  ghost predicate Inv(s: State) {
    && |s.queue| <= QUEUE_DEPTH
    && s.accepted == s.taken + EventsIn(s.queue)
    && s.calls == CallsOf(s.taken)
    && BarriersPlaced(s.queue, s.sentAt, |s.taken|)
    && (forall done :: done in s.closed ==> done in s.sentAt && s.sentAt[done] <= |s.taken|)
  }

  /** Each queued barrier stands behind exactly the events accepted before it was sent. */
  ghost predicate BarriersPlaced(queue: seq<Item>, sentAt: map<nat, nat>, n: nat) {
    forall i :: 0 <= i < |queue| && queue[i].Barrier? ==>
      queue[i].done in sentAt && sentAt[queue[i].done] == n + |EventsIn(queue[..i])|
  }

  lemma EventsInCons(it: Item, q: seq<Item>)
    ensures EventsIn([it] + q) == (if it.Ev? then [it.event] else []) + EventsIn(q)
  {
    if q == [] {
      assert [it] + q == [it] && [it][..0] == [];
    } else {
      var w := [it] + q;
      EventsInCons(it, q[..|q| - 1]);
      assert w[..|w| - 1] == [it] + q[..|q| - 1];
    }
  }

  lemma InvStep(s: State, a: Action)
    requires Inv(s)
    ensures Inv(Step(s, a))
  {
    match a
    case Work => if s.queue != [] { WorkKeepsInv(s); }
    case Offer(ev) => OfferKeepsInv(s, ev);
    case SendBarrier(done) => SendKeepsInv(s, done);
  }

  lemma OfferKeepsInv(s: State, ev: Event)
    requires Inv(s)
    ensures Inv(Step(s, Offer(ev)))
  {
    AppendPlaced(s.queue, Ev(ev), s.sentAt, s.sentAt, |s.taken|);
    SeqAssoc(s.taken, EventsIn(s.queue), [ev]);
  }

  lemma SendKeepsInv(s: State, done: nat)
    requires Inv(s)
    ensures Inv(Step(s, SendBarrier(done)))
  {
    if |s.queue| < QUEUE_DEPTH && done !in s.sentAt {
      assert |s.accepted| == |s.taken| + |EventsIn(s.queue)|;
      AppendPlaced(s.queue, Barrier(done), s.sentAt, s.sentAt[done := |s.accepted|], |s.taken|);
      assert EventsIn(s.queue) + [] == EventsIn(s.queue);
    }
  }

  lemma AppendPlaced(queue: seq<Item>, it: Item, sentAt: map<nat, nat>, sentAt': map<nat, nat>, n: nat)
    requires BarriersPlaced(queue, sentAt, n)
    requires it.Barrier? ==> it.done !in sentAt && sentAt' == sentAt[it.done := n + |EventsIn(queue)|]
    requires it.Ev? ==> sentAt' == sentAt
    ensures BarriersPlaced(queue + [it], sentAt', n)
    ensures EventsIn(queue + [it]) == EventsIn(queue) + (if it.Ev? then [it.event] else [])
  {
    var q := queue + [it];
    assert q[..|queue|] == queue;
    assert forall i :: 0 <= i < |queue| ==> q[..i] == queue[..i];
  }

  lemma WorkKeepsInv(s: State)
    requires Inv(s) && s.queue != []
    ensures Inv(Step(s, Work))
  {
    if s.queue[0].Ev? { EventKeepsInv(s); } else { BarrierKeepsInv(s); }
  }

  lemma EventKeepsInv(s: State)
    requires Inv(s) && s.queue != [] && s.queue[0].Ev?
    ensures Inv(Step(s, Work))
  {
    var q, it := s.queue[1..], s.queue[0];
    assert s.queue == [it] + q;
    EventsInCons(it, q);
    RestPlaced(it, q, s.sentAt, |s.taken|);
    CallsOfSnoc(s.taken, it.event);
    SeqAssoc(s.taken, [it.event], EventsIn(q));
  }

  lemma BarrierKeepsInv(s: State)
    requires Inv(s) && s.queue != [] && s.queue[0].Barrier?
    ensures Inv(Step(s, Work))
  {
    var q, it := s.queue[1..], s.queue[0];
    assert s.queue == [it] + q;
    EventsInCons(it, q);
    RestPlaced(it, q, s.sentAt, |s.taken|);
    assert s.queue[..0] == [];
    assert [] + EventsIn(q) == EventsIn(q);
  }

  ghost predicate BarriersClosed(items: seq<Item>, closed: set<nat>) {
    items != [] ==>
      var last := items[|items| - 1];
      BarriersClosed(items[..|items| - 1], closed) && (last.Barrier? ==> last.done in closed)
  }

  lemma {:induction false} BarriersClosedMeans(items: seq<Item>, closed: set<nat>)
    ensures BarriersClosed(items, closed) <==> forall i :: 0 <= i < |items| && items[i].Barrier? ==>
            items[i].done in closed
  {
    if items != [] { BarriersClosedMeans(items[..|items| - 1], closed); }
  }

  /** One step of a drain that started with the queue before. */
  lemma WorkTakesHead(s: State, before: seq<Item>, n: nat)
    requires Inv(s) && n < |before| && s.queue == before[n..] && BarriersClosed(before[..n], s.closed)
    ensures var s' := Step(s, Work);
            Inv(s') && s'.accepted == s.accepted && s'.queue == before[n + 1..]
                && BarriersClosed(before[..n + 1], s'.closed)
  {
    WorkKeepsInv(s);
    var s' := Step(s, Work);
    BarriersClosedMeans(before[..n], s.closed);
    BarriersClosedMeans(before[..n], s'.closed);
    assert before[..n + 1][..n] == before[..n];
  }

  lemma SeqAssoc<T>(a: seq<T>, b: seq<T>, c: seq<T>)
    ensures (a + b) + c == a + (b + c)
  {
  }

  lemma CallsOfSnoc(evs: seq<Event>, ev: Event)
    ensures CallsOf(evs + [ev]) == CallsOf(evs) + CallOf(ev)
  {
    assert (evs + [ev])[..|evs|] == evs;
  }

  lemma RestPlaced(it: Item, q: seq<Item>, sentAt: map<nat, nat>, n: nat)
    requires BarriersPlaced([it] + q, sentAt, n)
    ensures BarriersPlaced(q, sentAt, if it.Ev? then n + 1 else n)
  {
    forall i | 0 <= i < |q| && q[i].Barrier?
      ensures q[i].done in sentAt && sentAt[q[i].done] == (if it.Ev? then n + 1 else n) + |EventsIn(q[..i])|
    {
      assert ([it] + q)[i + 1] == q[i];
      assert ([it] + q)[..i + 1] == [it] + q[..i];
      EventsInCons(it, q[..i]);
    }
  }

  lemma {:induction false} RunInv(s: State, schedule: seq<Action>)
    requires Inv(s)
    ensures Inv(Run(s, schedule))
  {
    if schedule != [] {
      RunInv(s, schedule[..|schedule| - 1]);
      InvStep(Run(s, schedule[..|schedule| - 1]), schedule[|schedule| - 1]);
    }
  }

  // ---------------------------------------------------------------- main results

  /** In every run the writer calls are those of the accepted events taken so far, in the
      order of acceptance; what is accepted is a subsequence of what was offered; nothing
      accepted is lost, and the queue never outgrows its depth. */
  lemma QueueIsFifo(schedule: seq<Action>)
    ensures var s := Run(EMPTY, schedule);
            && s.accepted == s.taken + EventsIn(s.queue) && s.calls == CallsOf(s.taken)
            && |s.queue| <= QUEUE_DEPTH && Subsequence(s.accepted, Offered(schedule))
  {
    assert Inv(EMPTY);
    RunInv(EMPTY, schedule);
    AcceptedWasOffered(schedule);
  }

  lemma {:induction false} AcceptedWasOffered(schedule: seq<Action>)
    ensures Subsequence(Run(EMPTY, schedule).accepted, Offered(schedule))
  {
    if schedule != [] {
      AcceptedWasOffered(schedule[..|schedule| - 1]);
      var s, a := Run(EMPTY, schedule[..|schedule| - 1]), schedule[|schedule| - 1];
      if a.Offer? {
        var off := Offered(schedule[..|schedule| - 1]);
        SubsequenceSnoc(s.accepted, off, a.event);
      } else {
        assert Offered(schedule) == Offered(schedule[..|schedule| - 1]);
      }
    }
  }

  lemma SubsequenceSnoc<T>(a: seq<T>, b: seq<T>, x: T)
    requires Subsequence(a, b)
    ensures Subsequence(a, b + [x]) && Subsequence(a + [x], b + [x])
  {
    assert (b + [x])[..|b|] == b && (a + [x])[..|a|] == a;
  }

  /** When a flush returns, everything accepted before it was sent has been applied: the
      writer calls of that whole prefix have been made, first and in order. */
  lemma FlushDrainsEarlierEvents(before: seq<Action>, done: nat, after: seq<Action>)
    ensures var s0 := Run(EMPTY, before);
            var s1 := Run(EMPTY, before + [SendBarrier(done)] + after);
            |s0.queue| < QUEUE_DEPTH && done !in s0.sentAt && done in s1.closed ==>
              s0.accepted <= s1.taken && CallsOf(s0.accepted) <= s1.calls
  {
    var s0, sent := Run(EMPTY, before), before + [SendBarrier(done)];
    assert sent[..|before|] == before;
    assert Inv(EMPTY);
    RunInv(EMPTY, sent + after);
    RunConcat(EMPTY, sent, after);
    BarrierIsRemembered(s0, done, after);
    var s1 := Run(EMPTY, sent + after);
    if |s0.queue| < QUEUE_DEPTH && done !in s0.sentAt && done in s1.closed {
      AppliedPrefix(s0.accepted, s1);
    }
  }

  lemma BarrierIsRemembered(s0: State, done: nat, after: seq<Action>)
    ensures var s1 := Run(Step(s0, SendBarrier(done)), after);
            |s0.queue| < QUEUE_DEPTH && done !in s0.sentAt ==>
              s0.accepted <= s1.accepted && done in s1.sentAt && s1.sentAt[done] == |s0.accepted|
  {
    HistoryGrows(Step(s0, SendBarrier(done)), after);
  }

  lemma AppliedPrefix(evs: seq<Event>, s: State)
    requires Inv(s) && evs <= s.accepted && |evs| <= |s.taken|
    ensures evs <= s.taken && CallsOf(evs) <= s.calls
  {
    PrefixesNest(evs, s.taken, s.accepted);
    CallsOfConcat(evs, s.taken[|evs|..]);
    assert s.taken == evs + s.taken[|evs|..];
  }

  lemma PrefixesNest<T>(a: seq<T>, b: seq<T>, whole: seq<T>)
    requires a <= whole && b <= whole && |a| <= |b|
    ensures a <= b
  {
  }

  lemma {:induction false} RunConcat(s: State, a: seq<Action>, b: seq<Action>)
    ensures Run(s, a + b) == Run(Run(s, a), b)
  {
    if b == [] {
      assert a + b == a;
    } else {
      RunConcat(s, a, b[..|b| - 1]);
      assert (a + b)[..|a + b| - 1] == a + b[..|b| - 1];
    }
  }

  lemma {:induction false} HistoryGrows(s: State, schedule: seq<Action>)
    ensures var s' := Run(s, schedule);
            s.accepted <= s'.accepted
            && forall d :: d in s.sentAt ==> d in s'.sentAt && s'.sentAt[d] == s.sentAt[d]
  {
    if schedule != [] { HistoryGrows(s, schedule[..|schedule| - 1]); }
  }

  lemma {:induction false} CallsOfConcat(a: seq<Event>, b: seq<Event>)
    ensures CallsOf(a + b) == CallsOf(a) + CallsOf(b)
  {
    if b == [] {
      assert a + b == a;
    } else {
      var front, last := b[..|b| - 1], b[|b| - 1];
      assert b == front + [last];
      calc {
        CallsOf(a + b);
        { SeqAssoc(a, front, [last]); CallsOfSnoc(a + front, last); }
        CallsOf(a + front) + CallOf(last);
        { CallsOfConcat(a, front); }
        (CallsOf(a) + CallsOf(front)) + CallOf(last);
        { SeqAssoc(CallsOf(a), CallsOf(front), CallOf(last)); }
        CallsOf(a) + (CallsOf(front) + CallOf(last));
        { CallsOfSnoc(front, last); }
        CallsOf(a) + CallsOf(b);
      }
    }
  }

  /** Once a non-empty resync has been taken from the queue, the mapping is its container set
      followed by the later events only: nothing that was applied, dropped or panicked
      before it matters. The directory is the resync's result on whatever was there. */
  lemma SyncOverridesThePast(schedule: seq<Action>, past: seq<Event>, infos: seq<ContainerInfo>, later: seq<Event>,
      m0: Mapping, d0: Dir)
    requires Run(EMPTY, schedule).taken == past + [SyncEvent(SyncYields(infos))] + later && infos != []
    ensures var s := Run(EMPTY, schedule);
            && StoreRun(m0, s.calls) == StoreRun(MappingOf(infos), CallsOf(later))
            && DirRun(d0, s.calls) == DirRun(ReplaceDir(DirRun(d0, CallsOf(past)), infos), CallsOf(later))
  {
    QueueIsFifo(schedule);
    SyncCalls(past, infos, later);
    ReplaceOverrides(m0, d0, CallsOf(past), infos, CallsOf(later));
  }

  lemma SyncCalls(past: seq<Event>, infos: seq<ContainerInfo>, later: seq<Event>)
    requires infos != []
    ensures CallsOf(past + [SyncEvent(SyncYields(infos))] + later) == CallsOf(past) + [Replace(infos)] + CallsOf(later)
  {
    CallsOfConcat(past + [SyncEvent(SyncYields(infos))], later);
    CallsOfSnoc(past, SyncEvent(SyncYields(infos)));
  }

  lemma ReplaceOverrides(m0: Mapping, d0: Dir, past: seq<Op>, infos: seq<ContainerInfo>, later: seq<Op>)
    ensures StoreRun(m0, past + [Replace(infos)] + later) == StoreRun(MappingOf(infos), later)
    ensures DirRun(d0, past + [Replace(infos)] + later) == DirRun(ReplaceDir(DirRun(d0, past), infos), later)
  {
    var ops := past + [Replace(infos)];
    OpsConcat(m0, d0, ops, later);
    assert ops[..|ops| - 1] == past;
  }

  /** Right after such a resync a reader of the directory sees exactly its container set,
      from any directory whatsoever. */
  lemma SyncMakesDirectoryExact(d: Dir, infos: seq<ContainerInfo>)
    requires forall i :: 0 <= i < |infos| ==> Bare(infos[i].containerID)
    ensures ScanOf(ReplaceDir(d, infos)) == Erased(MappingOf(infos))
  {
    forall id ensures ScanAt(ReplaceDir(d, infos), id) == At(Erased(MappingOf(infos)), id) { ReplaceAt(d, infos, id); }
    ScanIsPointwise(ReplaceDir(d, infos), Erased(MappingOf(infos)));
  }

  /** An empty resync, a skipped container and a panicking adapter leave mapping and
      directory exactly as they were. */
  lemma SilentEventsChangeNothing(s: State, d: Dir, m: Mapping)
    requires s.queue != [] && s.queue[0].Ev?
    requires s.queue[0].event in {SyncEvent(SyncYields([])), SyncEvent(SyncPanics), UpsertEvent(Skips),
             UpsertEvent(Panics)}
    ensures var s' := Step(s, Work);
            DirRun(d, s'.calls) == DirRun(d, s.calls) && StoreRun(m, s'.calls) == StoreRun(m, s.calls)
  {
    assert s.calls + [] == s.calls;
  }

  /** Every container an event names has a bare ID. */
  predicate BareEvent(ev: Event) {
    match ev
    case UpsertEvent(adapt) => adapt.Yields? ==> Bare(adapt.info.containerID)
    case RemoveEvent(id) => Bare(id)
    case SyncEvent(sync) =>
      sync.SyncYields? ==> forall i :: 0 <= i < |sync.infos| ==> Bare(sync.infos[i].containerID)
  }

  /** Queue, writer and reader end to end: once everything accepted has been taken, scanning
      the directory gives the mapping that the accepted events describe. */
  lemma DrainedQueueReadsBack(schedule: seq<Action>)
    requires forall i :: 0 <= i < |Run(EMPTY, schedule).accepted| ==> BareEvent(Run(EMPTY, schedule).accepted[i])
    ensures var s := Run(EMPTY, schedule);
            s.taken == s.accepted ==>
              ScanOf(DirRun(map[], s.calls)) == Erased(StoreRun(map[], CallsOf(s.accepted)))
  {
    var s := Run(EMPTY, schedule);
    QueueIsFifo(schedule);
    if s.taken == s.accepted {
      CallsAreBare(s.accepted);
      EmptyRefines();
      DirectoryRefinesStore(map[], map[], s.calls);
    }
  }

  lemma {:induction false} CallsAreBare(evs: seq<Event>)
    requires forall i :: 0 <= i < |evs| ==> BareEvent(evs[i])
    ensures forall i :: 0 <= i < |CallsOf(evs)| ==> BareOp(CallsOf(evs)[i])
  {
    if evs != [] {
      CallsAreBare(evs[..|evs| - 1]);
      assert BareEvent(evs[|evs| - 1]);
    }
  }

  lemma {:induction false} OpsConcat(m: Mapping, d: Dir, a: seq<Op>, b: seq<Op>)
    ensures StoreRun(m, a + b) == StoreRun(StoreRun(m, a), b)
    ensures DirRun(d, a + b) == DirRun(DirRun(d, a), b)
  {
    if b == [] {
      assert a + b == a;
    } else {
      OpsConcat(m, d, a, b[..|b| - 1]);
      assert (a + b)[..|a + b| - 1] == a + b[..|b| - 1];
    }
  }

  // ---------------------------------------------------------------- the code

  /** The processor object. The writer is represented by the calls it has received. */
  class Processor {
    var queue: seq<Item>
    var calls: seq<Op>
    var closed: set<nat>
    ghost var accepted: seq<Event>
    ghost var taken: seq<Event>
    ghost var sentAt: map<nat, nat>

    ghost function View(): State
      reads this
    {
      State(queue, calls, closed, accepted, taken, sentAt)
    }

    constructor ()
      ensures View() == EMPTY
    {
      queue, calls, closed := [], [], {};
      accepted, taken, sentAt := [], [], map[];
    }

    /** Upsert, Delete and Synchronize: a full queue drops the event instead of blocking. */
    method Enqueue(ev: Event)
      modifies this
      ensures View() == Step(old(View()), Offer(ev))
    {
      if |queue| < QUEUE_DEPTH {
        queue := queue + [Ev(ev)];
        accepted := accepted + [ev];
      }
    }

    /** The send half of Flush; blocks (here: is not called) while the queue is full. */
    method SendFlush(done: nat)
      requires |queue| < QUEUE_DEPTH && done !in sentAt
      modifies this
      ensures View() == Step(old(View()), SendBarrier(done))
    {
      queue := queue + [Barrier(done)];
      sentAt := sentAt[done := |accepted|];
    }

    /** One iteration of the worker loop. */
    method WorkOne()
      requires queue != []
      modifies this
      ensures View() == Step(old(View()), Work)
    {
      var it := queue[0];
      queue := queue[1..];
      match it {
        case Barrier(done) => closed := closed + {done};
        case Ev(ev) =>
          SafeApply(ev);
          taken := taken + [ev];
      }
    }

    /** safeApply and apply: a panicking adapter is recovered and its event dropped. */
    method SafeApply(ev: Event)
      modifies this`calls
      ensures calls == old(calls) + CallOf(ev)
    {
      match ev {
        case UpsertEvent(adapt) =>
          if adapt.Yields? { calls := calls + [Upsert(adapt.info)]; }
        case RemoveEvent(id) =>
          calls := calls + [Delete(id)];
        case SyncEvent(sync) =>
          if sync.SyncYields? && |sync.infos| > 0 { calls := calls + [Replace(sync.infos)]; }
      }
    }

    /** The worker left alone until the queue is empty: every accepted event has been
        applied in order, and every flush sent so far has returned. */
    method Drain()
      requires Inv(View())
      modifies this
      ensures Inv(View()) && queue == []
      ensures accepted == old(accepted) && calls == CallsOf(accepted)
      ensures forall i :: 0 <= i < |old(queue)| && old(queue)[i].Barrier? ==> old(queue)[i].done in closed
    {
      ghost var before := queue;
      ghost var n := 0;
      while queue != []
        invariant Inv(View()) && accepted == old(accepted)
        invariant n <= |before| && queue == before[n..]
        invariant BarriersClosed(before[..n], closed)
        decreases |queue|
      {
        WorkTakesHead(View(), before, n);
        WorkOne();
        n := n + 1;
      }
      BarriersClosedMeans(before[..n], closed);
      assert before[..n] == before;
      assert taken + [] == taken;
    }
  }
}
