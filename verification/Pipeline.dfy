/** The handoff end to end: what the queue accepts, the file operations the worker makes of it, and
    the reader that scans meanwhile (fractioning-manager/fractiond/internal/events/events.go,
    fractioning-manager/common/mapping/fsstore). */
module Pipeline {
  import opened Text
  import opened ContainerStores
  import opened FsStores
  import opened FsRefinement
  import EventLaws
  import Events
  import Handoff

  /** The record of some container that an accepted event told of. */
  ghost predicate ToldOf(evs: seq<Events.Event>, c: ContainerInfo) { exists i :: 0 <= i < |evs| && Tells(evs[i], c) }

  ghost predicate Tells(ev: Events.Event, c: ContainerInfo) {
    match ev
    case UpsertEvent(adapt) => adapt.Yields? && EventLaws.Persisted(adapt.info, c)
    case RemoveEvent(_) => false
    case SyncEvent(sync) =>
      sync.SyncYields? && exists k :: 0 <= k < |sync.infos| && EventLaws.Persisted(sync.infos[k], c)
  }

  /** Every run of the queue, and every interleaving of the file operations of its writer calls with a
      scan: whatever the scan has is a record an accepted event told of, and was current during the
      scan; and once all accepted events have been taken and their calls made without a failure, the
      directory holds of every container exactly what the last accepted event about it left. */
  lemma QueueReachesReader(arrivals: seq<Events.Action>, schedule: seq<Handoff.Action>)
    requires var s := Events.Run(Events.EMPTY, arrivals);
             forall i :: 0 <= i < |s.accepted| ==> Events.BareEvent(s.accepted[i])
    ensures var q := Events.Run(Events.EMPTY, arrivals);
            var s := Handoff.Run(q.calls, Handoff.Start(map[]), schedule);
            && (forall c :: c in Handoff.Got(s.reader) ==>
                  ToldOf(q.accepted, c) && Handoff.CurrentInScan(map[], q.calls, schedule, c))
            && (q.queue == [] && s.writer.Resting? && s.done == |q.calls| && !s.faulted ==>
                  EventLaws.FollowsLastEvents(ScanOf(s.dir), q.accepted))
  {
    var q := Events.Run(Events.EMPTY, arrivals);
    var s := Handoff.Run(q.calls, Handoff.Start(map[]), schedule);
    CallsComeFromAccepted(arrivals);
    WorkFromEmpty(q.calls, Events.CallsOf(q.accepted), schedule);
    forall c | c in Handoff.Got(s.reader) ensures ToldOf(q.accepted, c) { AmongCallsIsTold(q.accepted, c); }
    EventLaws.StoreFollows(q.accepted);
  }

  lemma {:induction false} AmongCallsIsTold(evs: seq<Events.Event>, c: ContainerInfo)
    requires Handoff.IsAmong(Events.CallsOf(evs), c)
    ensures ToldOf(evs, c)
  {
    var front, last := evs[..|evs| - 1], evs[|evs| - 1];
    var before, call := Events.CallsOf(front), Events.CallOf(last);
    var j, k :| 0 <= j < |before + call| && 0 <= k < |Handoff.Infos((before + call)[j])|
                && Handoff.Infos((before + call)[j])[k].containerID == c.containerID
                && c == Erase(Handoff.Infos((before + call)[j])[k]);
    if j < |before| {
      assert Handoff.IsAmong(before, c);
      AmongCallsIsTold(front, c);
      var i :| 0 <= i < |front| && Tells(front[i], c);
      assert evs[i] == front[i];
    } else {
      assert (before + call)[j] == call[0];
      assert Tells(last, c);
    }
  }

  lemma CallsComeFromAccepted(arrivals: seq<Events.Action>)
    requires var s := Events.Run(Events.EMPTY, arrivals);
             forall i :: 0 <= i < |s.accepted| ==> Events.BareEvent(s.accepted[i])
    ensures var q := Events.Run(Events.EMPTY, arrivals);
            && q.calls <= Events.CallsOf(q.accepted)
            && (q.queue == [] ==> q.calls == Events.CallsOf(q.accepted))
            && forall j :: 0 <= j < |q.calls| ==> BareOp(q.calls[j])
  {
    var q := Events.Run(Events.EMPTY, arrivals);
    Events.QueueIsFifo(arrivals);
    Events.CallsAreBare(q.accepted);
    Events.CallsOfConcat(q.taken, Events.EventsIn(q.queue));
    var all := Events.CallsOf(q.accepted);
    forall j | 0 <= j < |q.calls| ensures BareOp(q.calls[j]) { assert all[j] == q.calls[j]; }
  }

  lemma WorkFromEmpty(ops: seq<Op>, all: seq<Op>, schedule: seq<Handoff.Action>)
    requires ops <= all && forall j :: 0 <= j < |ops| ==> BareOp(ops[j])
    ensures var s := Handoff.Run(ops, Handoff.Start(map[]), schedule);
            && (forall c :: c in Handoff.Got(s.reader) ==>
                  Handoff.IsAmong(all, c) && Handoff.CurrentInScan(map[], ops, schedule, c))
            && (s.writer.Resting? && s.done == |ops| && !s.faulted ==> ScanOf(s.dir) == Erased(StoreRun(map[], ops)))
  {
    var s := Handoff.Run(ops, Handoff.Start(map[]), schedule);
    Handoff.ScanDuringWorkIsSafe(map[], ops, schedule);
    EmptyScan();
    forall c | c in Handoff.Got(s.reader) ensures Handoff.IsAmong(all, c) {
      AmongMore(ops, all[|ops|..], c);
      assert all == ops + all[|ops|..];
    }
    EmptyRefines();
    Handoff.FaultFreeWorkRefinesStore(map[], map[], ops, schedule);
    assert ops[..|ops|] == ops;
  }

  lemma EmptyScan()
    ensures ScanOf(map[]) == map[]
  {
    ScanIsPointwise(map[], map[]);
  }

  lemma AmongMore(ops: seq<Op>, more: seq<Op>, c: ContainerInfo)
    requires Handoff.IsAmong(ops, c)
    ensures Handoff.IsAmong(ops + more, c)
  {
    var j, k :| 0 <= j < |ops| && 0 <= k < |Handoff.Infos(ops[j])|
                && Handoff.Infos(ops[j])[k].containerID == c.containerID && c == Erase(Handoff.Infos(ops[j])[k]);
    assert (ops + more)[j] == ops[j];
  }

  /** Whatever directory failures and crashes have left behind: once a resync and what follows it go
      through without a failure, the directory reads as the in-memory store that started from the
      resync's containers. */
  lemma ResyncHeals(d: Dir, infos: seq<ContainerInfo>, later: seq<Op>, schedule: seq<Handoff.Action>)
    requires BareOp(Replace(infos)) && forall j :: 0 <= j < |later| ==> BareOp(later[j])
    ensures var s := Handoff.Run([Replace(infos)] + later, Handoff.Start(d), schedule);
            s.writer.Resting? && s.done > 0 && !s.faulted ==>
              s.done <= |later| + 1 && ScanOf(s.dir) == Erased(StoreRun(MappingOf(infos), later[..s.done - 1]))
  {
    var ops := [Replace(infos)] + later;
    var s := Handoff.Run(ops, Handoff.Start(d), schedule);
    Handoff.FaultFreeWorkRefinesStore(d, map[], ops, schedule);
    if s.writer.Resting? && s.done > 0 && !s.faulted {
      var done := later[..s.done - 1];
      assert ops[..s.done] == [Replace(infos)] + done;
      RunAfterReplace(d, infos, done);
      ReplacedRefines(d, infos);
      DirectoryRefinesStore(ReplaceDir(d, infos), MappingOf(infos), done);
    }
  }

  lemma RunAfterReplace(d: Dir, infos: seq<ContainerInfo>, later: seq<Op>)
    ensures DirRun(d, [Replace(infos)] + later) == DirRun(ReplaceDir(d, infos), later)
  {
    Events.OpsConcat(map[], d, [Replace(infos)], later);
    assert [Replace(infos)][..0] == [];
    assert DirRun(d, [Replace(infos)]) == DirApply(DirRun(d, []), Replace(infos));
  }

  lemma ReplacedRefines(d: Dir, infos: seq<ContainerInfo>)
    requires BareOp(Replace(infos))
    ensures Refines(ReplaceDir(d, infos), MappingOf(infos))
  {
    MappingOfMeans(infos);
    forall id ensures ScanAt(ReplaceDir(d, infos), id) == At(Erased(MappingOf(infos)), id) { ReplaceAt(d, infos, id); }
  }
}
