/** What the accepted events mean for a reader of the mapping directory, said about the events alone
    (fractioning-manager/fractiond/internal/events/events.go): per container, the last event that
    concerns it decides. */
module EventLaws {
  import opened Text
  import opened ContainerStores
  import opened FsStores
  import opened FsRefinement
  import opened Events
  import Handoff
  import HandoffProgress

  /** An event that decides about a container: a record of it, its removal, or a resync, which
      decides about every container. A resync without containers decides nothing. */
  predicate Concerns(ev: Event, id: string) {
    match ev
    case UpsertEvent(adapt) => adapt.Yields? && adapt.info.containerID == id
    case RemoveEvent(removed) => removed == id
    case SyncEvent(sync) => sync.SyncYields? && sync.infos != []
  }

  /** The record an event leaves of a container, without the two fields that are not persisted; of
      several entries in a resync, the last. */
  ghost predicate Leaves(ev: Event, id: string, c: ContainerInfo) {
    match ev
    case UpsertEvent(adapt) => adapt.Yields? && adapt.info.containerID == id && Persisted(adapt.info, c)
    case RemoveEvent(_) => false
    case SyncEvent(sync) =>
      sync.SyncYields? && exists k :: LastEntry(sync.infos, id, k) && Persisted(sync.infos[k], c)
  }

  predicate Persisted(info: ContainerInfo, c: ContainerInfo) { c == info.(container := "", cgroupPath := "") }

  predicate LastEntry(infos: seq<ContainerInfo>, id: string, k: int) {
    && 0 <= k < |infos| && infos[k].containerID == id
    && forall j :: k < j < |infos| ==> infos[j].containerID != id
  }

  predicate LastConcerning(evs: seq<Event>, id: string, i: int) {
    0 <= i < |evs| && Concerns(evs[i], id) && forall j :: i < j < |evs| ==> !Concerns(evs[j], id)
  }

  /** The directory holds exactly this record of a container. */
  predicate Reads(scan: Mapping, id: string, c: ContainerInfo) { id in scan && scan[id] == c }

  /** For every container, a mapping has the record the last event about it leaves. */
  ghost predicate FollowsLastEvents(scan: Mapping, evs: seq<Event>) {
    forall id, c :: Reads(scan, id, c) <==> id != "" && exists i :: LastConcerning(evs, id, i) && Leaves(evs[i], id, c)
  }

  // ---------------------------------------------------------------- main results

  /** Once the queue is drained, the directory reads as the last events say: a container is there if
      and only if the last accepted event about it left a record of it, and then that record is the
      one read. */
  lemma LastEventDecides(schedule: seq<Action>)
    requires forall i :: 0 <= i < |Run(EMPTY, schedule).accepted| ==> BareEvent(Run(EMPTY, schedule).accepted[i])
    ensures var s := Run(EMPTY, schedule);
            s.queue == [] ==> FollowsLastEvents(ScanOf(DirRun(map[], s.calls)), s.accepted)
  {
    var s := Run(EMPTY, schedule);
    QueueIsFifo(schedule);
    if s.queue == [] {
      assert s.taken + [] == s.taken;
      DrainedQueueReadsBack(schedule);
      StoreFollows(s.accepted);
    }
  }

  /** The same through every interleaving of the worker's file operations with the reader's: when no
      file operation fails and all calls are over, the directory reads as the last accepted events
      say. */
  lemma EventsReachDirectory(arrivals: seq<Action>, schedule: seq<Handoff.Action>)
    requires var q := Run(EMPTY, arrivals); forall i :: 0 <= i < |q.accepted| ==> BareEvent(q.accepted[i])
    requires HandoffProgress.NoFailure(schedule)
    ensures var q := Run(EMPTY, arrivals);
            var s := Handoff.Run(q.calls, Handoff.Start(map[]), schedule);
            q.queue == [] && s.done == |q.calls| ==> FollowsLastEvents(ScanOf(s.dir), q.accepted)
  {
    var q := Run(EMPTY, arrivals);
    var s := Handoff.Run(q.calls, Handoff.Start(map[]), schedule);
    if q.queue == [] && s.done == |q.calls| {
      HandoffProgress.NoDirectoryIsClear(map[], q.calls);
      HandoffProgress.FaultsComeFromDirectories(map[], q.calls, schedule);
      HandoffProgress.DoneIsRest(map[], q.calls, schedule);
      Handoff.FaultFreeWorkRefinesStore(map[], map[], q.calls, schedule);
      assert q.calls[..|q.calls|] == q.calls;
      LastEventDecides(arrivals);
    }
  }

  /** And it gets there: whatever has arrived, the worker can empty the queue and make its calls, and
      a scan then collects what the last accepted events say. */
  lemma EventsReachReader(arrivals: seq<Action>) returns (work: seq<Action>, schedule: seq<Handoff.Action>)
    requires var q := Run(EMPTY, arrivals); forall i :: 0 <= i < |q.accepted| ==> BareEvent(q.accepted[i])
    ensures forall i :: 0 <= i < |work| ==> work[i] == Work
    ensures HandoffProgress.NoFailure(schedule)
    ensures var q := Run(EMPTY, arrivals + work);
            var r := Handoff.Run(q.calls, Handoff.Start(map[]), schedule).reader;
            && q.queue == [] && q.accepted == Run(EMPTY, arrivals).accepted
            && r.Scanned? && FollowsLastEvents(MappingOf(r.got), q.accepted)
  {
    work := DrainsQueue(Run(EMPTY, arrivals));
    RunConcat(EMPTY, arrivals, work);
    var q := Run(EMPTY, arrivals + work);
    QueueIsFifo(arrivals + work);
    assert q.taken + [] == q.taken;
    CallsAreBare(q.accepted);
    HandoffProgress.NoDirectoryIsClear(map[], q.calls);
    EmptyRefines();
    schedule := HandoffProgress.WorkReachesReader(map[], map[], q.calls);
    StoreFollows(q.accepted);
  }

  /** A flush that could be sent returns once the worker has emptied the queue. */
  lemma FlushReturns(arrivals: seq<Action>, done: nat) returns (work: seq<Action>)
    requires var q := Run(EMPTY, arrivals); |q.queue| < QUEUE_DEPTH && done !in q.sentAt
    ensures forall i :: 0 <= i < |work| ==> work[i] == Work
    ensures done in Run(EMPTY, arrivals + [SendBarrier(done)] + work).closed
  {
    var q, sent := Run(EMPTY, arrivals), arrivals + [SendBarrier(done)];
    assert sent[..|arrivals|] == arrivals;
    var q' := Run(EMPTY, sent);
    assert q'.queue[|q.queue|] == Barrier(done);
    work := DrainsQueue(q');
    RunConcat(EMPTY, sent, work);
    DrainClosesBarriers(q', work, |q.queue|);
  }

  /** While no more than the depth of the queue has been sent, nothing offered is dropped. */
  lemma {:induction false} NothingDroppedWithinDepth(schedule: seq<Action>)
    requires Sent(schedule) <= QUEUE_DEPTH
    ensures Run(EMPTY, schedule).accepted == Offered(schedule) && |Run(EMPTY, schedule).queue| <= Sent(schedule)
  {
    if schedule != [] { NothingDroppedWithinDepth(schedule[..|schedule| - 1]); }
  }

  /** The events and flush markers sent. */
  function Sent(schedule: seq<Action>): nat {
    if schedule == [] then 0
    else Sent(schedule[..|schedule| - 1]) + if schedule[|schedule| - 1].Work? then 0 else 1
  }

  // ---------------------------------------------------------------- supporting lemmas

  lemma {:induction false} DrainsQueue(s: State) returns (work: seq<Action>)
    ensures forall i :: 0 <= i < |work| ==> work[i] == Work
    ensures Run(s, work).queue == [] && Run(s, work).accepted == s.accepted
    decreases |s.queue|
  {
    work := [];
    if s.queue != [] {
      var rest := DrainsQueue(Step(s, Work));
      work := [Work] + rest;
      RunConcat(s, [Work], rest);
      assert [Work][..0] == [];
      assert Run(s, [Work]) == Step(Run(s, []), Work);
    }
  }

  /** Work keeps a barrier in the queue or closes it. */
  lemma {:induction false} DrainClosesBarriers(s: State, work: seq<Action>, i: nat)
    requires i < |s.queue| && s.queue[i].Barrier? && forall j :: 0 <= j < |work| ==> work[j] == Work
    ensures var s' := Run(s, work); s.queue[i].done in s'.closed || s.queue[i] in s'.queue
  {
    if work != [] {
      DrainClosesBarriers(s, work[..|work| - 1], i);
      var before := Run(s, work[..|work| - 1]);
      if s.queue[i] in before.queue { assert before.queue == [before.queue[0]] + before.queue[1..]; }
    }
  }

  /** The record of a container after one more event. */
  function Next(before: Option<ContainerInfo>, ev: Event, id: string): Option<ContainerInfo> {
    if !Concerns(ev, id) then before
    else match ev
      case UpsertEvent(adapt) => Some(Erase(adapt.info))
      case RemoveEvent(_) => None
      case SyncEvent(sync) => At(Erased(MappingOf(sync.infos)), id)
  }

  function After(evs: seq<Event>, id: string): Option<ContainerInfo> {
    if evs == [] then None else Next(After(evs[..|evs| - 1], id), evs[|evs| - 1], id)
  }

  lemma StoreFollows(evs: seq<Event>)
    requires forall i :: 0 <= i < |evs| ==> BareEvent(evs[i])
    ensures FollowsLastEvents(Erased(StoreRun(map[], CallsOf(evs))), evs)
  {
    var m := Erased(StoreRun(map[], CallsOf(evs)));
    forall id, c
      ensures Reads(m, id, c) <==> id != "" && exists i :: LastConcerning(evs, id, i) && Leaves(evs[i], id, c)
    {
      StoreIsAfter(evs, id);
      if id != "" { AfterMeans(evs, id, c); }
    }
  }

  predicate BareKeys(m: Mapping) { forall k :: k in m ==> k != "" && Bare(k) }

  lemma {:induction false} StoreIsAfter(evs: seq<Event>, id: string)
    requires forall i :: 0 <= i < |evs| ==> BareEvent(evs[i])
    ensures var m := StoreRun(map[], CallsOf(evs));
            BareKeys(m) && (id != "" ==> At(Erased(m), id) == After(evs, id))
  {
    if evs != [] {
      var front, last := evs[..|evs| - 1], evs[|evs| - 1];
      StoreIsAfter(front, id);
      CallApplies(CallsOf(front), last);
      assert BareEvent(last);
      EventApplies(StoreRun(map[], CallsOf(front)), last, id);
    }
  }

  /** The mapping after one more event. */
  function Applied(m: Mapping, ev: Event): Mapping {
    match ev
    case UpsertEvent(adapt) => if adapt.Yields? then StoreApply(m, Upsert(adapt.info)) else m
    case RemoveEvent(id) => WithoutContainer(m, id)
    case SyncEvent(sync) => if sync.SyncYields? && sync.infos != [] then MappingOf(sync.infos) else m
  }

  lemma CallApplies(ops: seq<Op>, ev: Event)
    ensures StoreRun(map[], ops + CallOf(ev)) == Applied(StoreRun(map[], ops), ev)
  {
    if CallOf(ev) == [] {
      assert ops + [] == ops;
    } else {
      assert (ops + CallOf(ev))[..|ops|] == ops;
    }
  }

  lemma EventApplies(m: Mapping, ev: Event, id: string)
    requires BareEvent(ev) && BareKeys(m)
    ensures BareKeys(Applied(m, ev))
    ensures id != "" ==> At(Erased(Applied(m, ev)), id) == Next(At(Erased(m), id), ev, id)
  {
    match ev
    case UpsertEvent(adapt) =>
    case RemoveEvent(removed) => if id in m { BareAlike(removed, id); }
    case SyncEvent(sync) => if sync.SyncYields? { MappingOfMeans(sync.infos); }
  }

  lemma {:induction false} AfterMeans(evs: seq<Event>, id: string, c: ContainerInfo)
    requires id != ""
    ensures After(evs, id) == Some(c) <==> exists i :: LastConcerning(evs, id, i) && Leaves(evs[i], id, c)
  {
    if evs != [] {
      var n := |evs| - 1;
      if Concerns(evs[n], id) {
        assert forall i :: LastConcerning(evs, id, i) <==> i == n;
        if evs[n].SyncEvent? { SyncLeaves(evs[n].sync.infos, id, c); }
      } else {
        AfterMeans(evs[..n], id, c);
        assert forall i :: LastConcerning(evs, id, i) <==> LastConcerning(evs[..n], id, i);
      }
    }
  }

  lemma SyncLeaves(infos: seq<ContainerInfo>, id: string, c: ContainerInfo)
    requires id != ""
    ensures At(Erased(MappingOf(infos)), id) == Some(c) <==>
            exists k :: LastEntry(infos, id, k) && Persisted(infos[k], c)
  {
    if id in MappingOf(infos) {
      var k := FindLast(infos, id);
      LastEntryWins(infos, k);
      assert forall j :: LastEntry(infos, id, j) ==> j == k;
    } else {
      forall k | LastEntry(infos, id, k) ensures false { LastEntryWins(infos, k); }
    }
  }

  lemma {:induction false} FindLast(infos: seq<ContainerInfo>, id: string) returns (k: nat)
    requires id in MappingOf(infos)
    ensures LastEntry(infos, id, k)
  {
    var n := |infos| - 1;
    if infos[n].containerID == id { k := n; } else { k := FindLast(infos[..n], id); }
  }
}
