/** Progress of the handoff: the worker is never stuck, nothing fails unless a file operation does,
    and so every sequence of operations can reach the directory and the reader
    (fractioning-manager/common/mapping/fsstore/writer.go and reader.go). */
module HandoffProgress {
  import opened Text
  import opened ContainerStores
  import opened FsStores
  import opened FsRefinement
  import opened Handoff

  /** Only writer steps that succeed. */
  predicate AllSucceed(schedule: seq<Action>) {
    forall i :: 0 <= i < |schedule| ==> schedule[i].WriterStep? && schedule[i].ok
  }

  predicate OnlyReads(schedule: seq<Action>) { forall i :: 0 <= i < |schedule| ==> schedule[i].ReaderStep? }

  /** No file operation fails and the worker does not crash; the reader may do anything. */
  predicate NoFailure(schedule: seq<Action>) {
    forall i :: 0 <= i < |schedule| ==> !schedule[i].Crash? && (schedule[i].WriterStep? ==> schedule[i].ok)
  }

  /** There is a directory under the name this container's record gets. */
  predicate Obstructs(d: Dir, info: ContainerInfo) {
    info.containerID != "" && !NoDirectoryAt(d, FileName(info.containerID))
  }

  predicate NoDirectoryAt(d: Dir, n: string) { !(n in d && d[n].Subdirectory?) }

  /** When its operation begins, no record finds a directory under its name. */
  predicate Clear(d0: Dir, ops: seq<Op>) {
    forall j, k :: 0 <= j < |ops| && 0 <= k < |Infos(ops[j])| ==> ClearAt(d0, ops, j, k)
  }

  predicate ClearAt(d0: Dir, ops: seq<Op>, j: nat, k: nat)
    requires j < |ops| && k < |Infos(ops[j])|
  {
    !Obstructs(DirRun(d0, ops[..j]), Infos(ops[j])[k])
  }

  // ---------------------------------------------------------------- main results

  /** While no file operation fails and the worker does not crash, a fault comes from a directory in
      the way of a record and from nothing else: work that reaches its end was without fault if and
      only if no record found one. */
  lemma FaultsComeFromDirectories(d0: Dir, ops: seq<Op>, schedule: seq<Action>)
    requires NoFailure(schedule)
    ensures var s := Run(ops, Start(d0), schedule);
            (Clear(d0, ops) ==> !s.faulted) && (s.done == |ops| ==> (!s.faulted <==> Clear(d0, ops)))
  {
    if Clear(d0, ops) { ClearRunIsFaultFree(d0, ops, schedule); }
    if !Run(ops, Start(d0), schedule).faulted { FaultFreeIsPassed(d0, ops, schedule); }
    OpsClearMeans(d0, ops, |ops|);
  }

  /** Nothing is in the way if the directory at first has no directories under the names written. */
  lemma NoDirectoryIsClear(d0: Dir, ops: seq<Op>)
    requires forall j, k :: 0 <= j < |ops| && 0 <= k < |Infos(ops[j])| ==> !Obstructs(d0, Infos(ops[j])[k])
    ensures Clear(d0, ops)
  {
    forall j: nat, k: nat | j < |ops| && k < |Infos(ops[j])| ensures ClearAt(d0, ops, j, k) {
      assert !Obstructs(d0, Infos(ops[j])[k]);
      if Infos(ops[j])[k].containerID != "" {
        NoNewDirectories(d0, ops[..j], FileName(Infos(ops[j])[k].containerID));
      }
    }
  }

  /** From every state of every run, whatever has failed so far: succeeding writer steps alone bring
      all remaining operations to an end. */
  lemma WorkerIsNeverStuck(d0: Dir, ops: seq<Op>, schedule: seq<Action>) returns (more: seq<Action>)
    ensures AllSucceed(more)
    ensures var s := Run(ops, Start(d0), schedule + more); s.done == |ops| && s.writer.Resting?
    ensures Run(ops, Start(d0), schedule + more).reader == Run(ops, Start(d0), schedule).reader
  {
    DoneIsRest(d0, ops, schedule);
    more := Finish(ops, Run(ops, Start(d0), schedule));
    RunConcat(ops, Start(d0), schedule, more);
  }

  /** From every state the reader's own steps finish its scan, and they leave the directory alone. */
  lemma ReaderIsNeverStuck(d0: Dir, ops: seq<Op>, schedule: seq<Action>) returns (more: seq<Action>)
    ensures OnlyReads(more)
    ensures Run(ops, Start(d0), schedule + more).reader.Scanned?
    ensures Run(ops, Start(d0), schedule + more).dir == Run(ops, Start(d0), schedule).dir
  {
    more := FinishScan(ops, Run(ops, Start(d0), schedule));
    RunConcat(ops, Start(d0), schedule, more);
  }

  /** Every sequence of operations can be carried out step by step, and then the directory is exactly
      what the operations make of it. */
  lemma WorkGetsDone(d0: Dir, ops: seq<Op>) returns (schedule: seq<Action>)
    requires Clear(d0, ops)
    ensures AllSucceed(schedule)
    ensures var s := Run(ops, Start(d0), schedule);
            s.done == |ops| && s.writer.Resting? && !s.faulted && s.reader.Idle? && s.dir == DirRun(d0, ops)
  {
    schedule := WorkerIsNeverStuck(d0, ops, []);
    assert [] + schedule == schedule;
    FaultsComeFromDirectories(d0, ops, schedule);
    FaultFreeWorkRefinesStore(d0, map[], ops, schedule);
    assert ops[..|ops|] == ops;
  }

  /** And a scan then collects exactly the in-memory store after the same operations. */
  lemma WorkReachesReader(d0: Dir, m: Mapping, ops: seq<Op>) returns (schedule: seq<Action>)
    requires Clear(d0, ops) && Refines(d0, m) && forall j :: 0 <= j < |ops| ==> BareOp(ops[j])
    ensures NoFailure(schedule)
    ensures var s := Run(ops, Start(d0), schedule);
            s.reader.Scanned? && MappingOf(s.reader.got) == Erased(StoreRun(m, ops))
  {
    var work := WorkGetsDone(d0, ops);
    var scan := ReaderIsNeverStuck(d0, ops, work);
    schedule := work + scan;
    var s := Run(ops, Start(d0), work);
    RunConcat(ops, Start(d0), work, scan);
    var names := UndisturbedRun(ops, s, scan);
    ScanListIsScan(s.dir, names);
    DirectoryRefinesStore(d0, m, ops);
  }

  // ---------------------------------------------------------------- nothing fails by itself

  lemma {:induction false} ClearRunIsFaultFree(d0: Dir, ops: seq<Op>, schedule: seq<Action>)
    requires Clear(d0, ops) && NoFailure(schedule)
    ensures !Run(ops, Start(d0), schedule).faulted
  {
    if schedule != [] {
      var front, a := schedule[..|schedule| - 1], schedule[|schedule| - 1];
      assert forall i :: 0 <= i < |front| ==> front[i] == schedule[i];
      ClearRunIsFaultFree(d0, ops, front);
      var s := Run(ops, Start(d0), front);
      RunStaysOnTrack(d0, ops, front);
      if a.WriterStep? && s.done < |ops| && s.writer.Writing? && s.writer.k < |Infos(ops[s.done])| {
        RecordSucceeds(d0, ops, s, a.name);
      }
    }
  }

  lemma RecordSucceeds(d0: Dir, ops: seq<Op>, s: System, name: string)
    requires OnTrack(d0, ops, s) && !s.faulted && s.done < |ops|
    requires s.writer.Writing? && s.writer.k < |Infos(ops[s.done])| && ClearAt(d0, ops, s.done, s.writer.k)
    ensures !RecordMove(Infos(ops[s.done])[s.writer.k], s, s.writer.k, s.writer.phase, true, name).faulted
  {
    var infos, k := Infos(ops[s.done]), s.writer.k;
    if s.writer.phase.Filled? {
      PutAllNoDirectories(DirRun(d0, ops[..s.done]), infos[..k], FileName(infos[k].containerID));
      FileNameNotTemp(infos[k].containerID);
    }
  }

  /** The first n records of an operation find no directory under their names. */
  predicate OpClear(d0: Dir, ops: seq<Op>, j: nat, n: nat)
    requires j < |ops| && n <= |Infos(ops[j])|
  {
    n > 0 ==> OpClear(d0, ops, j, n - 1) && ClearAt(d0, ops, j, n - 1)
  }

  /** Nor do the records of the first j operations. */
  predicate OpsClear(d0: Dir, ops: seq<Op>, j: nat)
    requires j <= |ops|
  {
    j > 0 ==> OpsClear(d0, ops, j - 1) && OpClear(d0, ops, j - 1, |Infos(ops[j - 1])|)
  }

  lemma {:induction false} OpClearMeans(d0: Dir, ops: seq<Op>, j: nat, n: nat)
    requires j < |ops| && n <= |Infos(ops[j])|
    ensures OpClear(d0, ops, j, n) <==> forall k :: 0 <= k < n ==> ClearAt(d0, ops, j, k)
  {
    if n > 0 { OpClearMeans(d0, ops, j, n - 1); }
  }

  lemma {:induction false} OpsClearMeans(d0: Dir, ops: seq<Op>, j: nat)
    requires j <= |ops|
    ensures OpsClear(d0, ops, j) <==> forall i, k :: 0 <= i < j && 0 <= k < |Infos(ops[i])| ==> ClearAt(d0, ops, i, k)
  {
    if j > 0 {
      OpsClearMeans(d0, ops, j - 1);
      OpClearMeans(d0, ops, j - 1, |Infos(ops[j - 1])|);
    }
  }

  lemma {:induction false} OpClearLess(d0: Dir, ops: seq<Op>, j: nat, m: nat, n: nat)
    requires j < |ops| && m <= n <= |Infos(ops[j])| && OpClear(d0, ops, j, n)
    ensures OpClear(d0, ops, j, m)
  {
    if m < n { OpClearLess(d0, ops, j, m, n - 1); }
  }

  /** The records written so far found none. */
  predicate Passed(d0: Dir, ops: seq<Op>, s: System) {
    && s.done <= |ops| && OpsClear(d0, ops, s.done)
    && (s.done < |ops| ==> OpClear(d0, ops, s.done, WrittenSoFar(ops[s.done], s.writer)))
  }

  /** The number of records the current operation has written. */
  function WrittenSoFar(op: Op, w: WriterState): (n: nat)
    ensures n <= |Infos(op)|
  {
    match w
    case Writing(k, _) => if k < |Infos(op)| then k else |Infos(op)|
    case ListDir => |Infos(op)|
    case Unlinking(_) => |Infos(op)|
    case _ => 0
  }

  lemma {:induction false} FaultFreeIsPassed(d0: Dir, ops: seq<Op>, schedule: seq<Action>)
    requires !Run(ops, Start(d0), schedule).faulted
    ensures Passed(d0, ops, Run(ops, Start(d0), schedule))
  {
    if schedule != [] {
      var s, a := Run(ops, Start(d0), schedule[..|schedule| - 1]), schedule[|schedule| - 1];
      FaultsStay(ops, s, a);
      FaultFreeIsPassed(d0, ops, schedule[..|schedule| - 1]);
      RunStaysOnTrack(d0, ops, schedule[..|schedule| - 1]);
      if a.WriterStep? && s.done < |ops| {
        MoveWrites(DirRun(d0, ops[..s.done]), ops[s.done], s, a.ok, a.name, a.listing);
        if GoesInPlace(ops[s.done], s) { RecordPasses(d0, ops, s); }
        MovePasses(d0, ops, s, WriterMove(ops[s.done], s, a.ok, a.name, a.listing));
      }
    }
  }

  lemma FaultsStay(ops: seq<Op>, s: System, a: Action)
    ensures s.faulted ==> Step(ops, s, a).faulted
  {
  }

  lemma MovePasses(d0: Dir, ops: seq<Op>, s: System, s': System)
    requires Passed(d0, ops, s) && s.done < |ops| && WritesNext(ops[s.done], s, s')
    requires GoesInPlace(ops[s.done], s) ==> ClearAt(d0, ops, s.done, s.writer.k)
    ensures Passed(d0, ops, s')
  {
    var op, n := ops[s.done], WrittenSoFar(ops[s.done], s.writer);
    if s'.done == s.done && WrittenSoFar(op, s'.writer) <= n {
      OpClearLess(d0, ops, s.done, WrittenSoFar(op, s'.writer), n);
    }
  }

  /** The record that is being written goes into place. */
  predicate GoesInPlace(op: Op, s: System) {
    && s.writer.Writing? && s.writer.k < |Infos(op)|
    && var info := Infos(op)[s.writer.k];
       info.containerID == "" || (s.writer.phase.Filled? && NoDirectoryAt(s.dir, FileName(info.containerID)))
  }

  /** At most the next record is written, and the operation ends only after all. */
  predicate WritesNext(op: Op, s: System, s': System) {
    || (s'.done == s.done + 1 && s'.writer.Resting? && WrittenSoFar(op, s.writer) == |Infos(op)|)
    || (s'.done == s.done && WrittenSoFar(op, s'.writer) <= WrittenSoFar(op, s.writer))
    || (s'.done == s.done && WrittenSoFar(op, s'.writer) == WrittenSoFar(op, s.writer) + 1 && GoesInPlace(op, s))
  }

  lemma MoveWrites(before: Dir, op: Op, s: System, ok: bool, name: string, listing: seq<string>)
    requires !s.faulted && (s.writer.Resting? || OpOnTrack(before, op, s.writer, s.dir))
    requires !WriterMove(op, s, ok, name, listing).faulted
    ensures WritesNext(op, s, WriterMove(op, s, ok, name, listing))
  {
  }

  lemma RecordPasses(d0: Dir, ops: seq<Op>, s: System)
    requires OnTrack(d0, ops, s) && Passed(d0, ops, s) && s.done < |ops| && !s.faulted && GoesInPlace(ops[s.done], s)
    ensures ClearAt(d0, ops, s.done, s.writer.k)
  {
    var before, infos, k := DirRun(d0, ops[..s.done]), Infos(ops[s.done]), s.writer.k;
    if infos[k].containerID != "" {
      OpClearMeans(d0, ops, s.done, k);
      forall i | 0 <= i < k ensures !Obstructs(before, infos[i]) { assert ClearAt(d0, ops, s.done, i); }
      RenamedIsClear(before, infos, k, s.writer.phase.tmp, s.dir);
    }
  }

  /** A record that could be renamed into place found no directory there. */
  lemma RenamedIsClear(before: Dir, infos: seq<ContainerInfo>, k: nat, tmp: string, dir: Dir)
    requires k < |infos| && RecordOnTrack(PutAll(before, infos[..k]), infos, k, Filled(tmp), dir)
    requires NoDirectoryAt(dir, FileName(infos[k].containerID))
    requires forall i :: 0 <= i < k ==> !Obstructs(before, infos[i])
    ensures !Obstructs(before, infos[k])
  {
    var n := FileName(infos[k].containerID);
    FileNameNotTemp(infos[k].containerID);
    if !NoDirectoryAt(before, n) { DirectoryStays(before, infos[..k], n); }
  }

  lemma {:induction false} DirectoryStays(d: Dir, infos: seq<ContainerInfo>, n: string)
    requires !NoDirectoryAt(d, n) && forall i :: 0 <= i < |infos| ==> !Obstructs(d, infos[i])
    ensures n in PutAll(d, infos) && PutAll(d, infos)[n].Subdirectory?
  {
    if infos != [] {
      var front := infos[..|infos| - 1];
      assert forall i :: 0 <= i < |front| ==> front[i] == infos[i];
      DirectoryStays(d, front, n);
      assert !Obstructs(d, infos[|infos| - 1]);
    }
  }

  lemma {:induction false} PutAllNoDirectories(d: Dir, infos: seq<ContainerInfo>, n: string)
    requires NoDirectoryAt(d, n)
    ensures NoDirectoryAt(PutAll(d, infos), n)
  {
    if infos != [] { PutAllNoDirectories(d, infos[..|infos| - 1], n); }
  }

  lemma {:induction false} NoNewDirectories(d: Dir, ops: seq<Op>, n: string)
    requires NoDirectoryAt(d, n)
    ensures NoDirectoryAt(DirRun(d, ops), n)
  {
    if ops != [] {
      var before, op := DirRun(d, ops[..|ops| - 1]), ops[|ops| - 1];
      NoNewDirectories(d, ops[..|ops| - 1], n);
      if op.Replace? { PutAllNoDirectories(before, op.infos, n); }
    }
  }

  // ---------------------------------------------------------------- the worker finishes

  lemma {:induction false} RunConcat(ops: seq<Op>, s: System, a: seq<Action>, b: seq<Action>)
    ensures Run(ops, s, a + b) == Run(ops, Run(ops, s, a), b)
  {
    if b == [] {
      assert a + b == a;
    } else {
      RunConcat(ops, s, a, b[..|b| - 1]);
      assert (a + b)[..|a + b| - 1] == a + b[..|b| - 1];
    }
  }

  /** When all operations are over, the worker rests. */
  lemma {:induction false} DoneIsRest(d0: Dir, ops: seq<Op>, schedule: seq<Action>)
    ensures var s := Run(ops, Start(d0), schedule); s.done <= |ops| && (s.done == |ops| ==> s.writer.Resting?)
  {
    if schedule != [] { DoneIsRest(d0, ops, schedule[..|schedule| - 1]); }
  }

  /** How far the current operation still has to go. */
  function Stage(w: WriterState): nat {
    match w
    case Resting => 4
    case Mkdir => 3
    case Writing(_, _) => 2
    case ListDir => 1
    case Unlinking(_) => 0
    case Removing => 0
  }

  function PhasesLeft(p: Phase): nat {
    match p
    case Begin => 3
    case Staged(_) => 2
    case Filled(_) => 1
    case Failed(_) => 0
  }

  /** The records or files left in the current stage. */
  function ItemsLeft(op: Op, w: WriterState): nat {
    match w
    case Writing(k, _) => if k < |Infos(op)| then |Infos(op)| - k else 0
    case Unlinking(todo) => |todo|
    case _ => 0
  }

  function PhaseLeft(w: WriterState): nat { if w.Writing? then PhasesLeft(w.phase) else 0 }

  /** A step that succeeds: a staging name not in use, and the listing the directory gives. */
  lemma GoodStep(d: Dir) returns (a: Action)
    ensures a.WriterStep? && a.ok && IsTempName(a.name) && a.name !in d && IsListing(d, a.listing)
  {
    a := WriterStep(true, FreshName(d), AnyListing(d.Keys));
  }

  /** A succeeding step ends the current operation or brings it nearer to its end. */
  lemma StepAdvances(op: Op, s: System, a: Action)
    requires a.WriterStep? && a.ok && IsTempName(a.name) && a.name !in s.dir && IsListing(s.dir, a.listing)
    ensures Advances(op, s, WriterMove(op, s, true, a.name, a.listing))
  {
    if s.writer.Writing? && s.writer.k < |Infos(op)| { RecordAdvances(op, s, a.name); }
  }

  lemma RecordAdvances(op: Op, s: System, name: string)
    requires s.writer.Writing? && s.writer.k < |Infos(op)| && IsTempName(name) && name !in s.dir
    ensures Advances(op, s, RecordMove(Infos(op)[s.writer.k], s, s.writer.k, s.writer.phase, true, name))
  {
  }

  predicate Advances(op: Op, s: System, s': System) {
    && s'.reader == s.reader
    && (|| (s'.done == s.done + 1 && s'.writer.Resting?)
        || (s'.done == s.done && !s'.writer.Resting? && Nearer(op, s, s')))
  }

  predicate Nearer(op: Op, s: System, s': System) {
    || Stage(s'.writer) < Stage(s.writer)
    || (Stage(s'.writer) == Stage(s.writer) &&
        (|| ItemsLeft(op, s'.writer) < ItemsLeft(op, s.writer)
         || (ItemsLeft(op, s'.writer) == ItemsLeft(op, s.writer) && PhaseLeft(s'.writer) < PhaseLeft(s.writer))))
  }

  lemma {:induction false} Finish(ops: seq<Op>, s: System) returns (more: seq<Action>)
    requires s.done <= |ops| && (s.done == |ops| ==> s.writer.Resting?)
    ensures AllSucceed(more)
    ensures var e := Run(ops, s, more); e.done == |ops| && e.writer.Resting? && e.reader == s.reader
    decreases |ops| - s.done, Stage(s.writer), if s.done < |ops| then ItemsLeft(ops[s.done], s.writer) else 0,
              PhaseLeft(s.writer)
  {
    more := [];
    if s.done < |ops| {
      var a := GoodStep(s.dir);
      StepAdvances(ops[s.done], s, a);
      var rest := Finish(ops, Step(ops, s, a));
      more := [a] + rest;
      RunConcat(ops, s, [a], rest);
      OneStep(ops, s, a);
    }
  }

  lemma OneStep(ops: seq<Op>, s: System, a: Action)
    ensures Run(ops, s, [a]) == Step(ops, s, a)
  {
    assert [a][..0] == [];
    assert Run(ops, s, []) == s;
  }

  /** A directory lists its entries in some order. */
  ghost function AnyListing(names: set<string>): (listing: seq<string>)
    ensures forall n :: n in listing <==> n in names
  {
    if names == {} then []
    else
      var n :| n in names;
      [n] + AnyListing(names - {n})
  }

  /** There is always a staging name not in use: one longer than every name in the directory. */
  ghost function FreshName(d: Dir): (name: string)
    ensures IsTempName(name) && name !in d
  {
    var n := Longest(d.Keys) + 1;
    var name := TEMP_PREFIX + seq(n, _ => '0') + TEMP_SUFFIX;
    assert name[|name| - 4..] == TEMP_SUFFIX;
    assert |name| > Longest(d.Keys);
    name
  }

  ghost function Longest(names: set<string>): (n: nat)
    ensures forall s :: s in names ==> |s| <= n
  {
    if names == {} then 0
    else
      var s :| s in names;
      var rest := Longest(names - {s});
      if |s| > rest then |s| else rest
  }

  // ---------------------------------------------------------------- the reader finishes

  lemma {:induction false} FinishScan(ops: seq<Op>, s: System) returns (more: seq<Action>)
    ensures OnlyReads(more) && Run(ops, s, more).reader.Scanned? && Run(ops, s, more).dir == s.dir
    decreases if s.reader.Idle? then 1 else 0, if s.reader.Reading? then |s.reader.todo| + 1 else 0
  {
    more := [];
    if !s.reader.Scanned? {
      var a := ReaderStep(AnyListing(s.dir.Keys));
      assert IsListing(s.dir, a.listing);
      var rest := FinishScan(ops, Step(ops, s, a));
      more := [a] + rest;
      RunConcat(ops, s, [a], rest);
      OneStep(ops, s, a);
    }
  }
}
