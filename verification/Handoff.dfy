/** A reader scanning the mapping directory while the worker's operations change it, one file-system
    operation at a time, in every order, with every operation of the writer allowed to fail and the
    writer allowed to crash anywhere. Renaming onto a name is the only operation assumed atomic with
    respect to readers. */
module Handoff {
  import opened Text
  import opened ContainerStores
  import opened FsStores
  import opened FsRefinement

  datatype Phase = Begin | Staged(tmp: string) | Filled(tmp: string) | Failed(tmp: string)

  /** Where the current operation stands; Resting is between two operations. */
  datatype WriterState =
    | Resting
    | Mkdir
    | Writing(k: nat, phase: Phase)
    | ListDir
    | Unlinking(todo: seq<string>)
    | Removing

  datatype ReaderState = Idle | Reading(todo: seq<string>, got: seq<ContainerInfo>) | Scanned(got: seq<ContainerInfo>)

  /** done counts the operations that are over; faulted records that some file operation of the
      writer has failed so far, or that it crashed. */
  datatype System = System(dir: Dir, done: nat, writer: WriterState, reader: ReaderState, faulted: bool)

  /** Who moves next, whether a file operation of the writer succeeds, the staging name it would get,
      and the order in which a directory listing comes back. After a crash the worker goes on with
      the next operation. */
  datatype Action =
    | WriterStep(ok: bool, name: string, listing: seq<string>)
    | Crash
    | ReaderStep(listing: seq<string>)

  predicate IsListing(d: Dir, listing: seq<string>) {
    (forall n | n in listing :: n in d) && (forall n | n in d :: n in listing)
  }

  function Start(d: Dir): System { System(d, 0, Resting, Idle, false) }

  /** The containers an operation writes. */
  function Infos(op: Op): seq<ContainerInfo> {
    match op
    case Upsert(info) => [info]
    case Delete(_) => []
    case Replace(infos) => infos
  }

  function Begun(op: Op): WriterState {
    match op
    case Upsert(_) => Writing(0, Begin)
    case Delete(_) => Removing
    case Replace(_) => Mkdir
  }

  /** The current operation is over. */
  function Over(s: System, failed: bool): System {
    s.(writer := Resting, done := s.done + 1, faulted := s.faulted || failed)
  }

  function Step(ops: seq<Op>, s: System, a: Action): System {
    match a
    case WriterStep(ok, name, listing) => if s.done < |ops| then WriterMove(ops[s.done], s, ok, name, listing) else s
    case Crash => if s.writer.Resting? then s else Over(s, true)
    case ReaderStep(listing) => s.(reader := ReaderMove(s.dir, s.reader, listing))
  }

  /** One file operation of the current operation. */
  function WriterMove(op: Op, s: System, ok: bool, name: string, listing: seq<string>): System {
    match s.writer
    case Resting => s.(writer := Begun(op))
    case Mkdir => if ok then s.(writer := Writing(0, Begin)) else Over(s, true)
    case Writing(k, phase) =>
      if k < |Infos(op)| then RecordMove(Infos(op)[k], s, k, phase, ok, name)
      else if op.Replace? then s.(writer := ListDir)
      else Over(s, false)
    case ListDir =>
      if !ok then Over(s, true)
      else if IsListing(s.dir, listing) then s.(writer := Unlinking(listing)) else s
    case Unlinking(todo) =>
      if todo == [] then Over(s, false)
      else
        var n, rest := todo[0], Unlinking(todo[1..]);
        if !(n in s.dir && Stale(s.dir, Desired(Infos(op)), n)) then s.(writer := rest)
        else if ok then s.(dir := s.dir - {n}, writer := rest)
        else s.(writer := rest, faulted := true)
    case Removing =>
      if op.Delete? && op.id != "" && FileName(op.id) in s.dir then
        if ok then Over(s.(dir := s.dir - {FileName(op.id)}), false) else Over(s, true)
      else Over(s, false)
  }

  /** One file operation of writeRecord for the k-th container of an operation. */
  function RecordMove(info: ContainerInfo, s: System, k: nat, phase: Phase, ok: bool, name: string): System {
    match phase
    case Begin =>
      if info.containerID == "" then s.(writer := Writing(k + 1, Begin))
      else if !ok then s.(writer := Writing(k + 1, Begin), faulted := true)
      else if !IsTempName(name) || name in s.dir then s
      else s.(dir := s.dir[name := File(Unparseable)], writer := Writing(k, Staged(name)))
    case Staged(tmp) =>
      if ok then s.(dir := s.dir[tmp := File(Encoded(NewRecord(info)))], writer := Writing(k, Filled(tmp)))
      else s.(writer := Writing(k, Failed(tmp)), faulted := true)
    case Filled(tmp) =>
      var target := FileName(info.containerID);
      if ok && tmp in s.dir && !(target in s.dir && s.dir[target].Subdirectory?)
      then s.(dir := (s.dir - {tmp})[target := s.dir[tmp]], writer := Writing(k + 1, Begin))
      else s.(writer := Writing(k, Failed(tmp)), faulted := true)
    case Failed(tmp) =>
      s.(dir := if ok then s.dir - {tmp} else s.dir, writer := Writing(k + 1, Begin))
  }

  function ReaderMove(d: Dir, r: ReaderState, listing: seq<string>): ReaderState {
    match r
    case Idle => if IsListing(d, listing) then Reading(listing, []) else r
    case Reading(todo, got) =>
      if todo == [] then Scanned(got)
      else
        var n := todo[0];
        if Readable(d, n) then Reading(todo[1..], got + [ReadEntry(n, d[n]).value])
        else Reading(todo[1..], got)
    case Scanned(_) => r
  }

  function Run(ops: seq<Op>, s: System, schedule: seq<Action>): System {
    if schedule == [] then s else Step(ops, Run(ops, s, schedule[..|schedule| - 1]), schedule[|schedule| - 1])
  }

  /** The state after the first i actions. */
  function StateAt(d0: Dir, ops: seq<Op>, schedule: seq<Action>, i: nat): System
    requires i <= |schedule|
  {
    Run(ops, Start(d0), schedule[..i])
  }

  function Got(r: ReaderState): seq<ContainerInfo> { if r.Idle? then [] else r.got }

  // ---------------------------------------------------------------- main results

  /** At some moment of the scan the directory stood for this record. */
  ghost predicate CurrentInScan(d0: Dir, ops: seq<Op>, schedule: seq<Action>, c: ContainerInfo) {
    exists i :: 0 <= i <= |schedule| && ShownTo(StateAt(d0, ops, schedule, i), c)
  }

  predicate ShownTo(s: System, c: ContainerInfo) { s.reader.Reading? && ScanAt(s.dir, c.containerID) == Some(c) }

  /** At every moment of the scan the directory stood for some record of this container. */
  ghost predicate PresentInScan(d0: Dir, ops: seq<Op>, schedule: seq<Action>, id: string) {
    forall i :: 0 <= i <= |schedule| ==> !Hidden(StateAt(d0, ops, schedule, i), id)
  }

  predicate Hidden(s: System, id: string) { s.reader.Reading? && !Readable(s.dir, JsonFile(id)) }

  /** A record some operation was to write. */
  predicate IsAmong(ops: seq<Op>, c: ContainerInfo) {
    exists j, k :: 0 <= j < |ops| && 0 <= k < |Infos(ops[j])|
                   && Infos(ops[j])[k].containerID == c.containerID && c == Erase(Infos(ops[j])[k])
  }

  /** An operation that never takes a container away. */
  predicate Keeps(op: Op, id: string) {
    match op
    case Upsert(_) => true
    case Delete(other) => other == "" || FileName(other) != JsonFile(id)
    case Replace(infos) => JsonFile(id) in Desired(infos)
  }

  /** At every moment of every schedule of the worker's operations and a scan, with any file operation
      failing and the worker crashing anywhere: no mapping file is half-written; every record the
      reader has collected was current at some moment of the scan and is the old one of its container
      or one an operation was to write; a finished scan has every container that was there throughout,
      so every old one that all operations keep. */
  lemma ScanDuringWorkIsSafe(d0: Dir, ops: seq<Op>, schedule: seq<Action>)
    requires forall j :: 0 <= j < |ops| ==> BareOp(ops[j])
    ensures var s := Run(ops, Start(d0), schedule);
            && (forall n :: n in s.dir && Visible(n) && s.dir[n] == File(Unparseable) ==> n in d0 && d0[n] == s.dir[n])
            && (forall c :: c in Got(s.reader) ==>
                  CurrentInScan(d0, ops, schedule, c) && (At(ScanOf(d0), c.containerID) == Some(c) || IsAmong(ops, c)))
            && (s.reader.Scanned? ==>
                  && (forall id :: PresentInScan(d0, ops, schedule, id) ==> id in MappingOf(s.reader.got))
                  && (forall id :: id in ScanOf(d0) && (forall j :: 0 <= j < |ops| ==> Keeps(ops[j], id)) ==>
                        id in MappingOf(s.reader.got)))
  {
    var s := Run(ops, Start(d0), schedule);
    RunKeepsInvariant(d0, ops, schedule);
    ScanFollowsDirectory(d0, ops, schedule);
    forall n | n in s.dir && Visible(n) && s.dir[n] == File(Unparseable) ensures n in d0 && d0[n] == s.dir[n] {
      JsonIsNotTemp(n);
    }
    forall c | c in Got(s.reader) ensures At(ScanOf(d0), c.containerID) == Some(c) || IsAmong(ops, c) {
      LegitimateMeans(d0, ops, c);
    }
    if s.reader.Scanned? {
      forall id | PresentInScan(d0, ops, schedule, id) ensures id in MappingOf(s.reader.got) {
        FoundIsMapped(d0, ops, schedule, id);
      }
      forall id | id in ScanOf(d0) && forall j :: 0 <= j < |ops| ==> Keeps(ops[j], id)
        ensures id in MappingOf(s.reader.got)
      {
        KeptIsPresent(d0, ops, schedule, id);
        FoundIsMapped(d0, ops, schedule, id);
      }
    }
  }

  /** One Replace in particular: what the reader has is old or new, and what is in both is there. */
  lemma ScanDuringReplaceIsSafe(d0: Dir, infos: seq<ContainerInfo>, schedule: seq<Action>)
    requires forall i :: 0 <= i < |infos| ==> Bare(infos[i].containerID)
    ensures var s := Run([Replace(infos)], Start(d0), schedule);
            && (forall c :: c in Got(s.reader) ==>
                  At(ScanOf(d0), c.containerID) == Some(c)
                  || exists k :: 0 <= k < |infos| && infos[k].containerID == c.containerID && c == Erase(infos[k]))
            && (s.reader.Scanned? ==>
                  forall id :: id in ScanOf(d0) && id in MappingOf(infos) ==> id in MappingOf(s.reader.got))
  {
    var ops := [Replace(infos)];
    ScanDuringWorkIsSafe(d0, ops, schedule);
    forall id ensures id in MappingOf(infos) <==> Keeps(ops[0], id) { DesiredIffMapped(infos, id); }
  }

  /** Whenever the worker rests and nothing has failed, the directory is what the operations so far
      leave when they run alone, whatever the reader did meanwhile; on bare IDs it reads as the
      in-memory store after the same operations. */
  lemma FaultFreeWorkRefinesStore(d0: Dir, m: Mapping, ops: seq<Op>, schedule: seq<Action>)
    ensures var s := Run(ops, Start(d0), schedule);
            s.writer.Resting? && !s.faulted ==>
              && s.done <= |ops| && s.dir == DirRun(d0, ops[..s.done])
              && (Refines(d0, m) && (forall j :: 0 <= j < |ops| ==> BareOp(ops[j])) ==>
                    ScanOf(s.dir) == Erased(StoreRun(m, ops[..s.done])))
  {
    RunStaysOnTrack(d0, ops, schedule);
    var s := Run(ops, Start(d0), schedule);
    if s.writer.Resting? && !s.faulted && Refines(d0, m) && forall j :: 0 <= j < |ops| ==> BareOp(ops[j]) {
      DirectoryRefinesStore(d0, m, ops[..s.done]);
    }
  }

  /** A scan that no writer step interrupts returns exactly what the directory stands for. */
  lemma UndisturbedScanIsExact(d: Dir, ops: seq<Op>, schedule: seq<Action>)
    requires forall i :: 0 <= i < |schedule| ==> schedule[i].ReaderStep?
    ensures var s := Run(ops, Start(d), schedule);
            s.dir == d && (s.reader.Scanned? ==> MappingOf(s.reader.got) == ScanOf(d))
  {
    var names := UndisturbedRun(ops, Start(d), schedule);
    if Run(ops, Start(d), schedule).reader.Scanned? { ScanListIsScan(d, names); }
  }

  // ---------------------------------------------------------------- where records come from

  predicate Written(ops: seq<Op>, n: string, e: Entry) {
    exists j :: 0 <= j < |ops| && Writes(Infos(ops[j]), n, e)
  }

  ghost predicate Legitimate(d0: Dir, ops: seq<Op>, c: ContainerInfo) {
    exists n, e :: Visible(n) && ReadEntry(n, e) == Some(c) && ((n in d0 && d0[n] == e) || Written(ops, n, e))
  }

  /** Outside staging files an entry is untouched or a complete record of some operation. */
  ghost predicate FromOps(d0: Dir, ops: seq<Op>, d: Dir) {
    forall n :: n in d && !IsTempName(n) ==> (n in d0 && d[n] == d0[n]) || Written(ops, n, d[n])
  }

  ghost predicate WriterOk(ops: seq<Op>, s: System) {
    && ((s.writer.Mkdir? || s.writer.ListDir? || s.writer.Unlinking?) && s.done < |ops| ==> ops[s.done].Replace?)
    && (s.writer.Writing? && s.writer.phase != Begin ==> RecordOk(ops, s))
  }

  ghost predicate RecordOk(ops: seq<Op>, s: System)
    requires s.writer.Writing? && s.writer.phase != Begin
  {
    && s.done < |ops| && s.writer.k < |Infos(ops[s.done])| && IsTempName(s.writer.phase.tmp)
    && Infos(ops[s.done])[s.writer.k].containerID != ""
    && (s.writer.phase.Filled? && s.writer.phase.tmp in s.dir ==>
          s.dir[s.writer.phase.tmp] == File(Encoded(NewRecord(Infos(ops[s.done])[s.writer.k]))))
  }

  ghost predicate Safe(d0: Dir, ops: seq<Op>, s: System) {
    FromOps(d0, ops, s.dir) && WriterOk(ops, s) && forall c :: c in Got(s.reader) ==> Legitimate(d0, ops, c)
  }

  lemma {:induction false} RunKeepsInvariant(d0: Dir, ops: seq<Op>, schedule: seq<Action>)
    ensures Safe(d0, ops, Run(ops, Start(d0), schedule))
  {
    if schedule != [] {
      RunKeepsInvariant(d0, ops, schedule[..|schedule| - 1]);
      StepKeepsInvariant(d0, ops, Run(ops, Start(d0), schedule[..|schedule| - 1]), schedule[|schedule| - 1]);
    }
  }

  lemma StepKeepsInvariant(d0: Dir, ops: seq<Op>, s: System, a: Action)
    requires Safe(d0, ops, s)
    ensures Safe(d0, ops, Step(ops, s, a))
  {
    match a
    case WriterStep(ok, name, listing) =>
      if s.done < |ops| && s.writer.Writing? && s.writer.k < |Infos(ops[s.done])| {
        RecordKeepsInvariant(d0, ops, s, ok, name);
      }
    case Crash =>
    case ReaderStep(listing) => ReaderKeepsInvariant(d0, ops, s, listing);
  }

  lemma RecordKeepsInvariant(d0: Dir, ops: seq<Op>, s: System, ok: bool, name: string)
    requires Safe(d0, ops, s) && s.done < |ops| && s.writer.Writing? && s.writer.k < |Infos(ops[s.done])|
    ensures Safe(d0, ops, RecordMove(Infos(ops[s.done])[s.writer.k], s, s.writer.k, s.writer.phase, ok, name))
  {
    var infos, k := Infos(ops[s.done]), s.writer.k;
    if infos[k].containerID != "" { RecordIsWritten(ops, s.done, k); }
    FileNameNotTemp(infos[k].containerID);
    RecordKeepsFromOps(d0, ops, s, ok, name);
    RecordKeepsWriter(ops, s, ok, name);
  }

  lemma RecordIsWritten(ops: seq<Op>, j: nat, k: nat)
    requires j < |ops| && k < |Infos(ops[j])| && Infos(ops[j])[k].containerID != ""
    ensures var info := Infos(ops[j])[k]; Written(ops, FileName(info.containerID), File(Encoded(NewRecord(info))))
  {
    var info := Infos(ops[j])[k];
    assert Writes(Infos(ops[j]), FileName(info.containerID), File(Encoded(NewRecord(info))));
  }

  lemma RecordKeepsWriter(ops: seq<Op>, s: System, ok: bool, name: string)
    requires WriterOk(ops, s) && s.done < |ops| && s.writer.Writing? && s.writer.k < |Infos(ops[s.done])|
    ensures var s' := RecordMove(Infos(ops[s.done])[s.writer.k], s, s.writer.k, s.writer.phase, ok, name);
            WriterOk(ops, s') && s'.reader == s.reader && s'.done == s.done
  {
  }

  lemma RecordKeepsFromOps(d0: Dir, ops: seq<Op>, s: System, ok: bool, name: string)
    requires FromOps(d0, ops, s.dir) && WriterOk(ops, s)
    requires s.done < |ops| && s.writer.Writing? && s.writer.k < |Infos(ops[s.done])|
    requires var info := Infos(ops[s.done])[s.writer.k];
             info.containerID != "" ==> Written(ops, FileName(info.containerID), File(Encoded(NewRecord(info))))
    ensures FromOps(d0, ops, RecordMove(Infos(ops[s.done])[s.writer.k], s, s.writer.k, s.writer.phase, ok, name).dir)
  {
    EntriesMove(Infos(ops[s.done])[s.writer.k], s, ok, name);
  }

  /** Writing one record changes no entry but staging files and its own target, and that only to the
      staged content. */
  lemma EntriesMove(info: ContainerInfo, s: System, ok: bool, name: string)
    requires s.writer.Writing? && (s.writer.phase != Begin ==> IsTempName(s.writer.phase.tmp))
    ensures var s' := RecordMove(info, s, s.writer.k, s.writer.phase, ok, name);
            && (forall n :: !IsTempName(n) && n != FileName(info.containerID) ==> (n in s.dir <==> n in s'.dir))
            && (forall n :: n in s'.dir && !IsTempName(n) ==>
                  || (n in s.dir && s'.dir[n] == s.dir[n])
                  || (n == FileName(info.containerID) && s.writer.phase.Filled? && s.writer.phase.tmp in s.dir
                      && s'.dir[n] == s.dir[s.writer.phase.tmp]))
            && (FileName(info.containerID) in s.dir && !IsTempName(FileName(info.containerID)) ==>
                  FileName(info.containerID) in s'.dir)
  {
  }

  lemma ReaderKeepsInvariant(d0: Dir, ops: seq<Op>, s: System, listing: seq<string>)
    requires Safe(d0, ops, s)
    ensures Safe(d0, ops, Step(ops, s, ReaderStep(listing)))
  {
    var r := s.reader;
    if r.Reading? && r.todo != [] && Readable(s.dir, r.todo[0]) {
      var n := r.todo[0];
      var c := ReadEntry(n, s.dir[n]).value;
      JsonIsNotTemp(n);
      assert Legitimate(d0, ops, c);
      assert forall x :: x in r.got + [c] <==> x in r.got || x == c;
    }
  }

  lemma LegitimateMeans(d0: Dir, ops: seq<Op>, c: ContainerInfo)
    requires forall j :: 0 <= j < |ops| ==> BareOp(ops[j])
    requires Legitimate(d0, ops, c)
    ensures At(ScanOf(d0), c.containerID) == Some(c) || IsAmong(ops, c)
  {
    var n, e :| Visible(n) && ReadEntry(n, e) == Some(c) && ((n in d0 && d0[n] == e) || Written(ops, n, e));
    if n in d0 && d0[n] == e {
      assert JsonFile(c.containerID) == n;
    } else {
      WrittenIsAmong(ops, n, e, c);
    }
  }

  lemma WrittenIsAmong(ops: seq<Op>, n: string, e: Entry, c: ContainerInfo)
    requires forall j :: 0 <= j < |ops| ==> BareOp(ops[j])
    requires Visible(n) && ReadEntry(n, e) == Some(c) && Written(ops, n, e)
    ensures IsAmong(ops, c)
  {
    var j :| 0 <= j < |ops| && Writes(Infos(ops[j]), n, e);
    var infos := Infos(ops[j]);
    var k :| 0 <= k < |infos| && infos[k].containerID != "" && FileName(infos[k].containerID) == n
             && e == File(Encoded(NewRecord(infos[k])));
    assert BareOp(ops[j]) && Bare(infos[k].containerID);
    BareFile(infos[k].containerID);
    assert infos[k].containerID == c.containerID && c == Erase(infos[k]);
  }

  // ---------------------------------------------------------------- what the reader sees

  ghost predicate Collected(got: seq<ContainerInfo>, n: string) {
    exists i :: 0 <= i < |got| && got[i].containerID == ContainerIDFromFile(n)
  }

  /** Whatever the writer does: what the reader has was there when it looked, and what was there all
      the time it has or is still to read. */
  ghost predicate Following(d0: Dir, ops: seq<Op>, schedule: seq<Action>, r: ReaderState) {
    && (forall c :: c in Got(r) ==> CurrentInScan(d0, ops, schedule, c))
    && (!r.Idle? ==> forall id :: PresentInScan(d0, ops, schedule, id) ==> Found(r, id))
  }

  ghost predicate Found(r: ReaderState, id: string) {
    (r.Reading? && JsonFile(id) in r.todo) || Collected(Got(r), JsonFile(id))
  }

  lemma {:induction false} ScanFollowsDirectory(d0: Dir, ops: seq<Op>, schedule: seq<Action>)
    ensures Following(d0, ops, schedule, Run(ops, Start(d0), schedule).reader)
  {
    if schedule != [] {
      var front, a := schedule[..|schedule| - 1], schedule[|schedule| - 1];
      ScanFollowsDirectory(d0, ops, front);
      assert schedule == front + [a];
      MomentsExtend(d0, ops, front, a);
      LastMoments(d0, ops, front, a);
      RunSnoc(ops, Start(d0), front, a);
      StepFollows(d0, ops, front, a, Run(ops, Start(d0), front), Run(ops, Start(d0), front + [a]));
    }
  }

  /** What an action does to the reader. */
  function ReaderAfter(d: Dir, r: ReaderState, a: Action): ReaderState {
    if a.ReaderStep? then ReaderMove(d, r, a.listing) else r
  }

  lemma StepReads(ops: seq<Op>, s: System, a: Action)
    ensures Step(ops, s, a).reader == ReaderAfter(s.dir, s.reader, a)
  {
  }

  lemma RunSnoc(ops: seq<Op>, s: System, front: seq<Action>, a: Action)
    ensures Run(ops, s, front + [a]) == Step(ops, Run(ops, s, front), a)
    ensures Run(ops, s, front + [a]).reader == ReaderAfter(Run(ops, s, front).dir, Run(ops, s, front).reader, a)
    ensures a.ReaderStep? ==> Run(ops, s, front + [a]).dir == Run(ops, s, front).dir
  {
    assert (front + [a])[..|front|] == front;
    StepReads(ops, Run(ops, s, front), a);
  }

  /** One more action leaves the earlier moments as they were. */
  lemma MomentsExtend(d0: Dir, ops: seq<Op>, front: seq<Action>, a: Action)
    ensures forall c :: CurrentInScan(d0, ops, front, c) ==> CurrentInScan(d0, ops, front + [a], c)
    ensures forall id :: PresentInScan(d0, ops, front + [a], id) ==> PresentInScan(d0, ops, front, id)
  {
    forall i | 0 <= i <= |front| ensures StateAt(d0, ops, front + [a], i) == StateAt(d0, ops, front, i) {
      assert (front + [a])[..i] == front[..i];
    }
    forall c | CurrentInScan(d0, ops, front, c) ensures CurrentInScan(d0, ops, front + [a], c) {
      var i :| 0 <= i <= |front| && ShownTo(StateAt(d0, ops, front, i), c);
      assert ShownTo(StateAt(d0, ops, front + [a], i), c);
    }
    forall id | PresentInScan(d0, ops, front + [a], id) ensures PresentInScan(d0, ops, front, id) {
      forall i | 0 <= i <= |front| ensures !Hidden(StateAt(d0, ops, front, i), id) {
        assert !Hidden(StateAt(d0, ops, front + [a], i), id);
      }
    }
  }

  /** The last two moments of a run. */
  lemma LastMoments(d0: Dir, ops: seq<Op>, front: seq<Action>, a: Action)
    ensures StateAt(d0, ops, front + [a], |front|) == Run(ops, Start(d0), front)
    ensures StateAt(d0, ops, front + [a], |front| + 1) == Run(ops, Start(d0), front + [a])
  {
    assert (front + [a])[..|front|] == front && (front + [a])[..|front| + 1] == front + [a];
  }

  lemma StepFollows(d0: Dir, ops: seq<Op>, front: seq<Action>, a: Action, s: System, s': System)
    requires Following(d0, ops, front, s.reader) && s'.reader == ReaderAfter(s.dir, s.reader, a)
    requires a.ReaderStep? ==> s'.dir == s.dir
    requires forall c :: CurrentInScan(d0, ops, front, c) ==> CurrentInScan(d0, ops, front + [a], c)
    requires forall id :: PresentInScan(d0, ops, front + [a], id) ==> PresentInScan(d0, ops, front, id)
    requires StateAt(d0, ops, front + [a], |front|) == s && StateAt(d0, ops, front + [a], |front| + 1) == s'
    ensures Following(d0, ops, front + [a], s'.reader)
  {
    forall c | c in Got(s'.reader) ensures CurrentInScan(d0, ops, front + [a], c) {
      if c !in Got(s.reader) {
        ReadIsCurrent(s.dir, s.reader, a, c);
        assert ShownTo(StateAt(d0, ops, front + [a], |front|), c);
      }
    }
    if !s'.reader.Idle? {
      forall id | PresentInScan(d0, ops, front + [a], id) ensures Found(s'.reader, id) {
        assert !Hidden(StateAt(d0, ops, front + [a], |front|), id);
        assert !Hidden(StateAt(d0, ops, front + [a], |front| + 1), id);
        StepFinds(s, s', a, id);
      }
    }
  }

  /** A record the reader has just collected is what the directory stands for. */
  lemma ReadIsCurrent(d: Dir, r: ReaderState, a: Action, c: ContainerInfo)
    requires c !in Got(r) && c in Got(ReaderAfter(d, r, a))
    ensures r.Reading? && ScanAt(d, c.containerID) == Some(c)
  {
    var n := r.todo[0];
    assert c == ReadEntry(n, d[n]).value;
    assert JsonFile(c.containerID) == n;
  }

  lemma StepFinds(s: System, s': System, a: Action, id: string)
    requires s'.reader == ReaderAfter(s.dir, s.reader, a) && !s'.reader.Idle?
    requires !s.reader.Idle? ==> Found(s.reader, id)
    requires !Hidden(s, id) && (s.reader.Idle? ==> Readable(s.dir, JsonFile(id)))
    ensures Found(s'.reader, id)
  {
    if a.ReaderStep? && s.reader.Reading? && s.reader.todo != [] { ReadFinds(s.dir, s.reader, id); }
  }

  lemma ReadFinds(d: Dir, r: ReaderState, id: string)
    requires r.Reading? && r.todo != [] && Found(r, id) && Readable(d, JsonFile(id))
    ensures Found(ReaderMove(d, r, []), id)
  {
    var n, r' := r.todo[0], ReaderMove(d, r, []);
    assert forall m :: m in r.todo ==> m == n || m in r.todo[1..];
    if Collected(r.got, JsonFile(id)) {
      var i :| 0 <= i < |r.got| && r.got[i].containerID == ContainerIDFromFile(JsonFile(id));
      assert r'.got[i] == r.got[i];
    } else if n == JsonFile(id) {
      assert r'.got[|r.got|].containerID == ContainerIDFromFile(n);
    }
  }

  lemma FoundIsMapped(d0: Dir, ops: seq<Op>, schedule: seq<Action>, id: string)
    requires Following(d0, ops, schedule, Run(ops, Start(d0), schedule).reader)
    requires PresentInScan(d0, ops, schedule, id) && Run(ops, Start(d0), schedule).reader.Scanned?
    ensures id in MappingOf(Run(ops, Start(d0), schedule).reader.got)
  {
    var i := ListedAt(d0, ops, schedule);
    assert !Hidden(StateAt(d0, ops, schedule, i), id);
    StemOfFile(id);
    VisibleStem(JsonFile(id));
    CollectedIsMapped(Run(ops, Start(d0), schedule).reader.got, JsonFile(id));
  }

  /** A scan that is over was under way at some moment. */
  lemma {:induction false} ListedAt(d0: Dir, ops: seq<Op>, schedule: seq<Action>) returns (i: nat)
    requires !Run(ops, Start(d0), schedule).reader.Idle?
    ensures i <= |schedule| && StateAt(d0, ops, schedule, i).reader.Reading?
  {
    var front, a := schedule[..|schedule| - 1], schedule[|schedule| - 1];
    assert schedule == front + [a];
    RunSnoc(ops, Start(d0), front, a);
    if Run(ops, Start(d0), front).reader.Idle? {
      i := |schedule|;
      assert schedule[..i] == schedule;
    } else {
      i := ListedAt(d0, ops, front);
      assert front[..i] == schedule[..i];
    }
  }

  lemma CollectedIsMapped(got: seq<ContainerInfo>, n: string)
    requires Collected(got, n) && ContainerIDFromFile(n) != ""
    ensures ContainerIDFromFile(n) in MappingOf(got)
  {
    MappingOfMeans(got);
  }

  // ---------------------------------------------------------------- what operations keep

  /** A container that all operations keep is readable at every moment. */
  lemma {:induction false} KeptIsReadable(d0: Dir, ops: seq<Op>, schedule: seq<Action>, id: string)
    requires id in ScanOf(d0) && forall j :: 0 <= j < |ops| ==> Keeps(ops[j], id)
    ensures Readable(Run(ops, Start(d0), schedule).dir, JsonFile(id))
  {
    if schedule != [] {
      var front := schedule[..|schedule| - 1];
      KeptIsReadable(d0, ops, front, id);
      RunKeepsInvariant(d0, ops, front);
      StepKeeps(d0, ops, Run(ops, Start(d0), front), schedule[|schedule| - 1], id);
    }
  }

  lemma StepKeeps(d0: Dir, ops: seq<Op>, s: System, a: Action, id: string)
    requires Safe(d0, ops, s) && Readable(s.dir, JsonFile(id))
    requires forall j :: 0 <= j < |ops| ==> Keeps(ops[j], id)
    ensures Readable(Step(ops, s, a).dir, JsonFile(id))
  {
    JsonIsNotTemp(JsonFile(id));
    if a.WriterStep? && s.done < |ops| {
      assert Keeps(ops[s.done], id);
      if s.writer.Writing? && s.writer.k < |Infos(ops[s.done])| {
        RecordKeeps(ops, s, a.ok, a.name, JsonFile(id));
      } else {
        MoveKeeps(ops[s.done], s, a.ok, a.name, a.listing, id);
      }
    }
  }

  lemma RecordKeeps(ops: seq<Op>, s: System, ok: bool, name: string, n: string)
    requires WriterOk(ops, s) && s.done < |ops| && s.writer.Writing? && s.writer.k < |Infos(ops[s.done])|
    requires Readable(s.dir, n) && !IsTempName(n)
    ensures Readable(RecordMove(Infos(ops[s.done])[s.writer.k], s, s.writer.k, s.writer.phase, ok, name).dir, n)
  {
    EntriesMove(Infos(ops[s.done])[s.writer.k], s, ok, name);
  }

  lemma MoveKeeps(op: Op, s: System, ok: bool, name: string, listing: seq<string>, id: string)
    requires Keeps(op, id) && Readable(s.dir, JsonFile(id)) && !(s.writer.Writing? && s.writer.k < |Infos(op)|)
    requires !(s.writer.Unlinking? && !op.Replace?)
    ensures Readable(WriterMove(op, s, ok, name, listing).dir, JsonFile(id))
  {
  }

  lemma KeptIsPresent(d0: Dir, ops: seq<Op>, schedule: seq<Action>, id: string)
    requires id in ScanOf(d0) && forall j :: 0 <= j < |ops| ==> Keeps(ops[j], id)
    ensures PresentInScan(d0, ops, schedule, id)
  {
    forall i | 0 <= i <= |schedule| ensures !Hidden(StateAt(d0, ops, schedule, i), id) {
      KeptIsReadable(d0, ops, schedule[..i], id);
    }
  }

  // ---------------------------------------------------------------- fault-free runs

  /** How far work without failures has come. */
  ghost predicate OnTrack(d0: Dir, ops: seq<Op>, s: System) {
    !s.faulted ==>
      && s.done <= |ops|
      && (s.writer.Resting? ==> s.dir == DirRun(d0, ops[..s.done]))
      && (!s.writer.Resting? ==> s.done < |ops| && OpOnTrack(DirRun(d0, ops[..s.done]), ops[s.done], s.writer, s.dir))
  }

  /** How far one operation on the directory before has come. */
  ghost predicate OpOnTrack(before: Dir, op: Op, w: WriterState, dir: Dir) {
    match w
    case Resting => false
    case Mkdir => op.Replace? && dir == before
    case Writing(k, phase) =>
      !op.Delete? && k <= |Infos(op)| && RecordOnTrack(PutAll(before, Infos(op)[..k]), Infos(op), k, phase, dir)
    case ListDir => op.Replace? && dir == PutAll(before, op.infos)
    case Unlinking(todo) => op.Replace? && Unlinked(PutAll(before, op.infos), Desired(op.infos), todo, dir)
    case Removing => op.Delete? && dir == before
  }

  /** How far the record at position k has come on top of the records before it. */
  ghost predicate RecordOnTrack(done: Dir, infos: seq<ContainerInfo>, k: nat, phase: Phase, dir: Dir) {
    match phase
    case Begin => dir == done
    case Staged(t) =>
      && k < |infos| && infos[k].containerID != "" && IsTempName(t) && t !in done
      && dir == done[t := File(Unparseable)]
    case Filled(t) =>
      && k < |infos| && infos[k].containerID != "" && IsTempName(t) && t !in done
      && dir == done[t := File(Encoded(NewRecord(infos[k])))]
    case Failed(_) => false
  }

  ghost predicate Unlinked(full: Dir, desired: set<string>, todo: seq<string>, d: Dir) {
    && (forall n :: n in d ==> n in full && d[n] == full[n])
    && (forall n :: n in full && n !in d ==> Stale(full, desired, n))
    && (forall n :: n in d && Stale(full, desired, n) ==> n in todo)
  }

  lemma {:induction false} RunStaysOnTrack(d0: Dir, ops: seq<Op>, schedule: seq<Action>)
    ensures OnTrack(d0, ops, Run(ops, Start(d0), schedule))
  {
    if schedule != [] {
      RunStaysOnTrack(d0, ops, schedule[..|schedule| - 1]);
      var s, a := Run(ops, Start(d0), schedule[..|schedule| - 1]), schedule[|schedule| - 1];
      if a.WriterStep? && s.done < |ops| && !s.faulted { WriterStaysOnTrack(d0, ops, s, a.ok, a.name, a.listing); }
    }
  }

  lemma WriterStaysOnTrack(d0: Dir, ops: seq<Op>, s: System, ok: bool, name: string, listing: seq<string>)
    requires OnTrack(d0, ops, s) && s.done < |ops| && !s.faulted
    ensures OnTrack(d0, ops, WriterMove(ops[s.done], s, ok, name, listing))
  {
    var before, op := DirRun(d0, ops[..s.done]), ops[s.done];
    var s' := WriterMove(op, s, ok, name, listing);
    assert ops[..s.done + 1][..s.done] == ops[..s.done];
    assert DirRun(d0, ops[..s.done + 1]) == DirApply(before, op);
    if s.writer.Resting? {
      assert Infos(op)[..0] == [];
    } else {
      OpStaysOnTrack(before, op, s, ok, name, listing);
    }
  }

  /** One move of an operation fails, brings it further or completes it. */
  ghost predicate Advances(before: Dir, op: Op, s: System, s': System) {
    || s'.faulted
    || (s'.done == s.done && !s'.writer.Resting? && OpOnTrack(before, op, s'.writer, s'.dir))
    || (s'.done == s.done + 1 && s'.writer.Resting? && s'.dir == DirApply(before, op))
  }

  lemma OpStaysOnTrack(before: Dir, op: Op, s: System, ok: bool, name: string, listing: seq<string>)
    requires OpOnTrack(before, op, s.writer, s.dir) && !s.faulted
    ensures Advances(before, op, s, WriterMove(op, s, ok, name, listing))
  {
    match s.writer
    case Mkdir => assert Infos(op)[..0] == [];
    case Writing(k, phase) =>
      if k < |Infos(op)| {
        RecordStaysOnTrack(before, op, s, ok, name);
      } else {
        RecordsAreWritten(before, op, s, ok, name, listing);
      }
    case ListDir =>
    case Unlinking(todo) => SweepStaysOnTrack(before, op, s, ok, name, listing);
    case Removing => if op.id != "" && FileName(op.id) !in s.dir { assert before - {FileName(op.id)} == before; }
  }

  lemma RecordsAreWritten(before: Dir, op: Op, s: System, ok: bool, name: string, listing: seq<string>)
    requires OpOnTrack(before, op, s.writer, s.dir) && !s.faulted && s.writer.Writing? && s.writer.k >= |Infos(op)|
    ensures Advances(before, op, s, WriterMove(op, s, ok, name, listing))
  {
    assert Infos(op)[..s.writer.k] == Infos(op);
    assert s.dir == PutAll(before, Infos(op));
    if op.Upsert? {
      assert [op.info][..0] == [];
      assert PutAll(before, [op.info]) == Put(PutAll(before, []), op.info);
    }
  }

  lemma SweepStaysOnTrack(before: Dir, op: Op, s: System, ok: bool, name: string, listing: seq<string>)
    requires OpOnTrack(before, op, s.writer, s.dir) && !s.faulted && s.writer.Unlinking?
    ensures Advances(before, op, s, WriterMove(op, s, ok, name, listing))
  {
    var todo := s.writer.todo;
    if todo == [] {
      assert s.dir == ReplaceDir(before, op.infos);
    } else {
      UnlinkStep(PutAll(before, op.infos), Desired(op.infos), todo, s.dir);
    }
  }

  lemma UnlinkStep(full: Dir, desired: set<string>, todo: seq<string>, d: Dir)
    requires Unlinked(full, desired, todo, d) && todo != []
    ensures var n := todo[0];
            if n in d && Stale(d, desired, n) then Unlinked(full, desired, todo[1..], d - {n})
            else Unlinked(full, desired, todo[1..], d)
  {
    assert forall m :: m in todo ==> m == todo[0] || m in todo[1..];
  }

  lemma RecordStaysOnTrack(before: Dir, op: Op, s: System, ok: bool, name: string)
    requires OpOnTrack(before, op, s.writer, s.dir) && !s.faulted && s.writer.Writing? && s.writer.k < |Infos(op)|
    ensures var s' := RecordMove(Infos(op)[s.writer.k], s, s.writer.k, s.writer.phase, ok, name);
            Advances(before, op, s, s')
  {
    var infos, k, phase := Infos(op), s.writer.k, s.writer.phase;
    var s' := RecordMove(infos[k], s, k, phase, ok, name);
    PhaseStaysOnTrack(PutAll(before, infos[..k]), infos, s, ok, name);
    if !s'.faulted { PutAllStep(before, infos, k); }
  }

  /** The next file operation for record k fails, stages or fills it, or completes it. */
  lemma PhaseStaysOnTrack(done: Dir, infos: seq<ContainerInfo>, s: System, ok: bool, name: string)
    requires !s.faulted && s.writer.Writing? && s.writer.k < |infos|
    requires RecordOnTrack(done, infos, s.writer.k, s.writer.phase, s.dir)
    ensures var k := s.writer.k;
            var s' := RecordMove(infos[k], s, k, s.writer.phase, ok, name);
            && s'.done == s.done && s'.writer.Writing?
            && (|| s'.faulted
                || (s'.writer.k == k && RecordOnTrack(done, infos, k, s'.writer.phase, s'.dir))
                || (s'.writer == Writing(k + 1, Begin) && s'.dir == Put(done, infos[k])))
  {
    if s.writer.phase.Filled? { RenamedOnTrack(done, infos, s.writer.k, s.writer.phase.tmp, s.dir); }
  }

  lemma PutAllStep(d0: Dir, infos: seq<ContainerInfo>, k: nat)
    requires k < |infos|
    ensures PutAll(d0, infos[..k + 1]) == Put(PutAll(d0, infos[..k]), infos[k])
  {
    assert infos[..k + 1][..k] == infos[..k] && infos[..k + 1][k] == infos[k];
  }

  lemma RenamedOnTrack(done: Dir, infos: seq<ContainerInfo>, k: nat, t: string, dir: Dir)
    requires k < |infos| && RecordOnTrack(done, infos, k, Filled(t), dir)
    ensures t in dir && (dir - {t})[FileName(infos[k].containerID) := dir[t]] == Put(done, infos[k])
  {
    FileNameNotTemp(infos[k].containerID);
    assert dir - {t} == done;
  }

  // ---------------------------------------------------------------- a scan on its own

  lemma {:induction false} UndisturbedRun(ops: seq<Op>, s0: System, schedule: seq<Action>) returns (names: seq<string>)
    requires s0.reader.Idle? && forall i :: 0 <= i < |schedule| ==> schedule[i].ReaderStep?
    ensures var d, s := s0.dir, Run(ops, s0, schedule);
            && s.dir == d
            && (s.reader.Reading? ==>
                  IsListing(d, names + s.reader.todo) && (forall n | n in names :: n in d)
                  && MappingOf(s.reader.got) == ScanList(d, names))
            && (s.reader.Scanned? ==> IsListing(d, names) && MappingOf(s.reader.got) == ScanList(d, names))
  {
    names := [];
    var d := s0.dir;
    if schedule != [] {
      names := UndisturbedRun(ops, s0, schedule[..|schedule| - 1]);
      var s := Run(ops, s0, schedule[..|schedule| - 1]);
      var r := s.reader;
      if r.Idle? {
        names := [];
        assert [] + schedule[|schedule| - 1].listing == schedule[|schedule| - 1].listing;
      } else if r.Reading? && r.todo == [] {
        assert names + r.todo == names;
      } else if r.Reading? {
        var n := r.todo[0];
        assert names + r.todo == names + [n] + r.todo[1..];
        assert n in names + r.todo;
        assert (names + [n])[..|names|] == names;
        if Readable(d, n) {
          VisibleStem(n);
          MappingAppend(r.got, ReadEntry(n, d[n]).value);
        }
        names := names + [n];
      }
    }
  }
}
