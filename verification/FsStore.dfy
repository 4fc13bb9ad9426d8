/** The filesystem handoff of the container-to-pod mapping: on-disk records, the writer
    that stages and renames, and the reader that lists and decodes
    (fractioning-manager/common/mapping/fsstore). */
module FsStores {
  import opened Text
  import opened CgroupPaths
  import opened ContainerStores

  const SCHEMA_VERSION := 1
  const FILE_EXTENSION := ".json"
  const TEMP_PREFIX := ".gpu-fractioning-"
  const TEMP_SUFFIX := ".tmp"

  datatype Record = Record(
    schemaVersion: int,
    pod: string,
    namespace: string,
    podUID: string,
    gpuDevices: seq<GPUDevice>,
    requestedMemoryMiB: int)

  /** File contents as the JSON decoder sees them. */
  datatype Content = Encoded(rec: Record) | Unparseable

  datatype Entry = File(content: Content) | Subdirectory

  type Dir = map<string, Entry>

  // ---------------------------------------------------------------- records and names

  function NewRecord(info: ContainerInfo): Record {
    Record(SCHEMA_VERSION, info.pod, info.namespace, info.podUID, info.gpuDevices, info.requestedMemoryMiB)
  }

  function ToContainer(rec: Record, id: string): ContainerInfo {
    ContainerInfo(id, "", rec.pod, rec.namespace, rec.podUID, "", rec.gpuDevices, rec.requestedMemoryMiB)
  }

  function SanitizeContainerID(id: string): string {
    var t := TrimSpace(id);
    var i := LastIndex(t, "://");
    var u := if i >= 0 then t[i + 3..] else t;
    ReplaceAll(ReplaceAll(u, "/", "_"), "\\", "_")
  }

  function FileName(id: string): string { JsonFile(SanitizeContainerID(id)) }

  function JsonFile(stem: string): string { stem + FILE_EXTENSION }

  function ContainerIDFromFile(name: string): string { TrimSuffix(name, FILE_EXTENSION) }

  /** IDs that become a visible file of their own name. */
  predicate Bare(id: string) { SanitizeContainerID(id) == id && !HasPrefix(id, ".") }

  /** What the schema does not persist. */
  function Erase(info: ContainerInfo): ContainerInfo { info.(container := "", cgroupPath := "") }

  function Erased(m: Mapping): Mapping { map k | k in m :: Erase(m[k]) }

  predicate IsTempName(name: string) { HasPrefix(name, TEMP_PREFIX) && HasSuffix(name, TEMP_SUFFIX) }

  predicate Visible(name: string) { !HasPrefix(name, ".") && HasSuffix(name, FILE_EXTENSION) }

  /** readFile: what one listed entry contributes. */
  function ReadEntry(name: string, e: Entry): Option<ContainerInfo> {
    if e.File? && e.content.Encoded? && e.content.rec.schemaVersion == SCHEMA_VERSION
    then Some(ToContainer(e.content.rec, ContainerIDFromFile(name))) else None
  }

  predicate Readable(d: Dir, name: string) {
    name in d && Visible(name) && ReadEntry(name, d[name]).Some?
  }

  /** The mapping a directory stands for. */
  function ScanOf(d: Dir): Mapping {
    map id | id in ScanIDs(d) :: ReadEntry(JsonFile(id), d[JsonFile(id)]).value
  }

  function ScanIDs(d: Dir): (ids: set<string>)
    ensures forall id :: id in ids <==> Readable(d, JsonFile(id))
  {
    var ids := set n | n in d && Readable(d, n) :: ContainerIDFromFile(n);
    assert forall id :: id in ids <==> Readable(d, JsonFile(id)) by {
      forall id ensures id in ids <==> Readable(d, JsonFile(id)) {
        StemOfFile(id);
        if id in ids {
          var n :| n in d && Readable(d, n) && ContainerIDFromFile(n) == id;
          assert n == JsonFile(id);
        }
      }
    }
    ids
  }

  lemma StemOfFile(id: string)
    ensures HasSuffix(JsonFile(id), FILE_EXTENSION) && ContainerIDFromFile(JsonFile(id)) == id
  {
  }

  /** What a directory holds under an ID: a file of that name with the JSON extension, not hidden,
      decodable and of schema version 1; its record is read under the ID, without container name and
      cgroup path. */
  lemma ScanMeans(d: Dir, id: string, c: ContainerInfo)
    ensures id in ScanOf(d) && ScanOf(d)[id] == c <==>
            exists rec :: && id + ".json" in d && d[id + ".json"] == File(Encoded(rec)) && rec.schemaVersion == 1
                          && !HasPrefix(id + ".json", ".")
                          && c == ContainerInfo(id, "", rec.pod, rec.namespace, rec.podUID, "", rec.gpuDevices,
                                                rec.requestedMemoryMiB)
  {
    StemOfFile(id);
  }

  /** Sanitising changes an ID exactly when it has surrounding space or a path separator. */
  lemma SanitizeFixed(id: string)
    ensures SanitizeContainerID(id) == id <==> TrimSpace(id) == id && '/' !in id && '\\' !in id
  {
    var t := TrimSpace(id);
    TrimLeftShrinks(id, IsSpace);
    TrimRightShrinks(TrimLeftBy(id, IsSpace), IsSpace);
    var i := LastIndex(t, "://");
    var u := if i >= 0 then t[i + 3..] else t;
    var v := ReplaceAll(u, "/", "_");
    ReplaceCharPointwise(u, '/', '_');
    ReplaceCharPointwise(v, '\\', '_');
    if i >= 0 { FoundMeansContained(t, "://", 1); }
    if SanitizeContainerID(id) == id {
      assert u == t == id;
    }
  }

  /** The file-name round trip is exact for an ID exactly when sanitising leaves it alone. */
  lemma FileNameRoundTrip(id: string)
    ensures ContainerIDFromFile(FileName(id)) == id <==> SanitizeContainerID(id) == id
  {
    StemOfFile(SanitizeContainerID(id));
  }

  // ---------------------------------------------------------------- effects without failure

  function Put(d: Dir, info: ContainerInfo): Dir {
    if info.containerID == "" then d
    else d[FileName(info.containerID) := File(Encoded(NewRecord(info)))]
  }

  function PutAll(d: Dir, infos: seq<ContainerInfo>): Dir {
    if infos == [] then d else Put(PutAll(d, infos[..|infos| - 1]), infos[|infos| - 1])
  }

  function Desired(infos: seq<ContainerInfo>): set<string> {
    set i | 0 <= i < |infos| && infos[i].containerID != "" :: FileName(infos[i].containerID)
  }

  predicate Stale(d: Dir, desired: set<string>, name: string)
    requires name in d
  {
    d[name].File? && HasSuffix(name, FILE_EXTENSION) && name !in desired
  }

  function ReplaceDir(d: Dir, infos: seq<ContainerInfo>): Dir {
    var full := PutAll(d, infos);
    map n | n in full && !Stale(full, Desired(infos), n) :: full[n]
  }

  function RemoveID(d: Dir, id: string): Dir {
    if id == "" then d else d - {FileName(id)}
  }

  // ---------------------------------------------------------------- effects with failure

  predicate Writes(infos: seq<ContainerInfo>, name: string, e: Entry) {
    exists k :: 0 <= k < |infos| && infos[k].containerID != "" && FileName(infos[k].containerID) == name
                && e == File(Encoded(NewRecord(infos[k])))
  }

  /** What a directory may look like at any moment of a Replace of d0 by infos, whatever
      failed so far: outside staging files, an entry is untouched or a complete new
      record, and only a stale mapping file can be gone. */
  ghost predicate Between(d0: Dir, infos: seq<ContainerInfo>, d: Dir) {
    && (forall n :: n in d && !IsTempName(n) ==> (n in d0 && d[n] == d0[n]) || Writes(infos, n, d[n]))
    && (forall n :: n in d0 && n !in d && !IsTempName(n) ==> HasSuffix(n, FILE_EXTENSION) && n !in Desired(infos))
  }

  /** Agreement on everything but staging files. */
  ghost predicate SameButTemps(d: Dir, d': Dir) {
    forall n :: !IsTempName(n) ==> (n in d <==> n in d') && (n in d ==> d[n] == d'[n])
  }

  lemma FileNameNotTemp(id: string)
    ensures !IsTempName(FileName(id)) && HasSuffix(FileName(id), FILE_EXTENSION)
  {
    JsonIsNotTemp(FileName(id));
  }

  lemma JsonIsNotTemp(name: string)
    requires HasSuffix(name, FILE_EXTENSION)
    ensures !IsTempName(name)
  {
    assert name[|name| - 5..][4] == name[|name| - 1] == 'n';
    assert |name| >= 4 ==> name[|name| - 4..][3] == name[|name| - 1];
  }

  /** The step of writeRecord that fails, if any. */
  datatype WriteFault = NoFault | MkdirFails | CreateFails | WriteFails(partial: bool) | RenameFails

  datatype WritePlan = WritePlan(fault: WriteFault, cleanupFails: bool, tmp: string)

  predicate WriteSucceeds(d: Dir, info: ContainerInfo, plan: WritePlan) {
    && plan.fault == NoFault && IsTempName(plan.tmp) && plan.tmp !in d
    && !(FileName(info.containerID) in d && d[FileName(info.containerID)].Subdirectory?)
  }

  /** The first k records are written, each onto the directory the ones before it left. */
  predicate WritesSucceed(d: Dir, infos: seq<ContainerInfo>, plans: seq<WritePlan>, k: nat)
    requires k <= |infos| == |plans|
  {
    k > 0 ==>
      && WritesSucceed(d, infos, plans, k - 1)
      && (infos[k - 1].containerID != "" ==> WriteSucceeds(PutAll(d, infos[..k - 1]), infos[k - 1], plans[k - 1]))
  }

  predicate RemovalsSucceed(d: Dir, desired: set<string>, removeFails: string -> bool) {
    forall n :: n in d && Stale(d, desired, n) ==> !removeFails(n)
  }

  /** No step of a Replace fails. */
  predicate NothingFails(d: Dir, infos: seq<ContainerInfo>, mkdirFails: bool, plans: seq<WritePlan>, listFails: bool,
                         removeFails: string -> bool)
    requires |plans| == |infos|
  {
    && !mkdirFails && !listFails
    && WritesSucceed(d, infos, plans, |infos|)
    && RemovalsSucceed(PutAll(d, infos), Desired(infos), removeFails)
  }

  class MappingDirectory {
    var entries: Dir
    constructor () ensures entries == map[] { entries := map[]; }
  }

  class Writer {
    const dir: MappingDirectory

    constructor (dir: MappingDirectory)
      ensures this.dir == dir
    {
      this.dir := dir;
    }

    /** writeRecord: stage under a fresh name, fill it, rename it onto the final name.
        Creating the staging file under a name in use fails; any step may fail. */
    method WriteRecord(info: ContainerInfo, plan: WritePlan) returns (ok: bool)
      requires info.containerID != ""
      modifies dir
      ensures ok <==> WriteSucceeds(old(dir.entries), info, plan)
      ensures ok ==> dir.entries == Put(old(dir.entries), info)
      ensures !ok ==> SameButTemps(old(dir.entries), dir.entries)
    {
      ghost var target := FileName(info.containerID);
      FileNameNotTemp(info.containerID);
      if plan.fault == MkdirFails || plan.fault == CreateFails || !IsTempName(plan.tmp) || plan.tmp in dir.entries {
        return false;
      }
      dir.entries := dir.entries[plan.tmp := File(Unparseable)];
      if plan.fault.WriteFails? {
        if !plan.fault.partial { dir.entries := dir.entries[plan.tmp := File(Encoded(NewRecord(info)))]; }
        CleanUp(plan);
        return false;
      }
      dir.entries := dir.entries[plan.tmp := File(Encoded(NewRecord(info)))];
      ok := Rename(plan.tmp, FileName(info.containerID), plan.fault == RenameFails);
      if !ok { CleanUp(plan); }
    }

    method Rename(from: string, to: string, fails: bool) returns (ok: bool)
      requires from in dir.entries && from != to
      modifies dir
      ensures ok <==> !fails && !(to in old(dir.entries) && old(dir.entries)[to].Subdirectory?)
      ensures dir.entries == if ok then (old(dir.entries) - {from})[to := old(dir.entries)[from]] else old(dir.entries)
    {
      if fails || (to in dir.entries && dir.entries[to].Subdirectory?) { return false; }
      dir.entries := (dir.entries - {from})[to := dir.entries[from]];
      ok := true;
    }

    method CleanUp(plan: WritePlan)
      modifies dir
      ensures dir.entries == if plan.cleanupFails then old(dir.entries) else old(dir.entries) - {plan.tmp}
    {
      if !plan.cleanupFails { dir.entries := dir.entries - {plan.tmp}; }
    }

    method Upsert(info: ContainerInfo, plan: WritePlan) returns (ok: bool)
      modifies dir
      ensures ok <==> info.containerID == "" || WriteSucceeds(old(dir.entries), info, plan)
      ensures ok ==> dir.entries == Put(old(dir.entries), info)
      ensures !ok ==> SameButTemps(old(dir.entries), dir.entries)
    {
      if info.containerID == "" { return true; }
      ok := WriteRecord(info, plan);
    }

    /** A missing file is not an error. */
    method Delete(containerID: string, fails: bool) returns (ok: bool)
      modifies dir
      ensures ok <==> !fails || containerID == "" || FileName(containerID) !in old(dir.entries)
      ensures dir.entries == if ok then RemoveID(old(dir.entries), containerID) else old(dir.entries)
    {
      if containerID == "" { return true; }
      if fails { return FileName(containerID) !in dir.entries; }
      dir.entries := dir.entries - {FileName(containerID)};
      ok := true;
    }

    /** Writes every record, then lists and removes stale mapping files. clean reports that
        nothing failed on the way. Whatever failed, an entry other than a staging file ends
        untouched, completely rewritten, or removed because it was stale. */
    method Replace(infos: seq<ContainerInfo>, mkdirFails: bool, plans: seq<WritePlan>, listFails: bool,
        removeFails: string -> bool)
      returns (clean: bool)
      requires |plans| == |infos|
      modifies dir
      ensures clean <==> NothingFails(old(dir.entries), infos, mkdirFails, plans, listFails, removeFails)
      ensures clean ==> dir.entries == ReplaceDir(old(dir.entries), infos)
      ensures Between(old(dir.entries), infos, dir.entries)
    {
      if mkdirFails { return false; }
      var desired;
      clean, desired := WriteAll(infos, plans);
      if listFails { return false; }
      var swept := Sweep(desired, removeFails);
      clean := clean && swept;
    }

    /** The writing loop of Replace; a record that cannot be written does not stop it. */
    method WriteAll(infos: seq<ContainerInfo>, plans: seq<WritePlan>) returns (clean: bool, desired: set<string>)
      requires |plans| == |infos|
      modifies dir
      ensures clean <==> WritesSucceed(old(dir.entries), infos, plans, |infos|)
      ensures clean ==> dir.entries == PutAll(old(dir.entries), infos)
      ensures Between(old(dir.entries), infos, dir.entries) && desired == Desired(infos)
    {
      clean, desired := true, {};
      for i := 0 to |infos|
        invariant desired == Desired(infos[..i])
        invariant clean <==> WritesSucceed(old(dir.entries), infos, plans, i)
        invariant clean ==> dir.entries == PutAll(old(dir.entries), infos[..i])
        invariant Between(old(dir.entries), infos, dir.entries)
      {
        assert infos[..i + 1][..i] == infos[..i];
        DesiredStep(infos, i);
        if infos[i].containerID == "" { continue; }
        desired := desired + {FileName(infos[i].containerID)};
        ghost var before := dir.entries;
        var ok := WriteRecord(infos[i], plans[i]);
        clean := clean && ok;
        if ok {
          PutBetween(old(dir.entries), infos, before, i);
        } else {
          TempsBetween(old(dir.entries), infos, before, dir.entries);
        }
      }
      assert infos[..|infos|] == infos;
    }

    /** The removal loop of Replace over the listed entries: a removal that fails does not stop it. */
    method Sweep(desired: set<string>, removeFails: string -> bool) returns (clean: bool)
      modifies dir
      ensures clean <==> RemovalsSucceed(old(dir.entries), desired, removeFails)
      ensures dir.entries == Swept(old(dir.entries), desired, removeFails)
    {
      clean := true;
      ghost var full := dir.entries;
      var pending := dir.entries.Keys;
      while pending != {}
        invariant pending <= dir.entries.Keys <= full.Keys
        invariant forall n :: n in dir.entries ==> dir.entries[n] == full[n]
        invariant forall n :: n in full && n !in dir.entries ==> Stale(full, desired, n) && !removeFails(n)
        invariant forall n :: n in dir.entries && n !in pending && Stale(full, desired, n) ==> removeFails(n)
        invariant clean <==> forall n :: n in full && n !in pending && Stale(full, desired, n) ==> !removeFails(n)
        decreases pending
      {
        var n :| n in pending;
        pending := pending - {n};
        if dir.entries[n].Subdirectory? || !HasSuffix(n, FILE_EXTENSION) { continue; }
        if n in desired { continue; }
        if removeFails(n) { clean := false; } else { dir.entries := dir.entries - {n}; }
      }
    }
  }

  /** A directory without the stale files that could be removed. */
  function Swept(d: Dir, desired: set<string>, removeFails: string -> bool): Dir {
    map n | n in d && !(Stale(d, desired, n) && !removeFails(n)) :: d[n]
  }

  class Reader {
    const dir: MappingDirectory

    constructor (dir: MappingDirectory)
      ensures this.dir == dir
    {
      this.dir := dir;
    }

    /** scan: a fresh store holding exactly what the directory stands for; entries that are
        hidden, not mapping files, undecodable or of another schema version are skipped. */
    method Scan() returns (s: ContainerStore)
      ensures fresh(s) && s.containers == ScanOf(dir.entries)
    {
      var infos := ScanEntries(dir.entries);
      s := new ContainerStore();
      s.Replace(infos);
    }

    static method ScanEntries(d: Dir) returns (infos: seq<ContainerInfo>)
      ensures MappingOf(infos) == ScanOf(d)
    {
      infos := [];
      var pending := d.Keys;
      ghost var order: seq<string> := [];
      while pending != {}
        invariant pending <= d.Keys && forall n :: n in d.Keys <==> n in pending || n in order
        invariant MappingOf(infos) == ScanList(d, order)
        decreases pending
      {
        var name :| name in pending;
        pending := pending - {name};
        assert (order + [name])[..|order|] == order;
        infos := ScanEntry(infos, name, d[name]);
        order := order + [name];
      }
      ScanListIsScan(d, order);
    }

    /** One turn of the scan loop. */
    static method ScanEntry(infos: seq<ContainerInfo>, name: string, e: Entry) returns (out: seq<ContainerInfo>)
      ensures MappingOf(out) == ScanWith(MappingOf(infos), name, e)
    {
      if e.Subdirectory? || HasPrefix(name, ".") || !HasSuffix(name, FILE_EXTENSION) { return infos; }
      var read := ReadEntry(name, e);
      if read == None { return infos; }
      VisibleStem(name);
      MappingAppend(infos, read.value);
      out := infos + [read.value];
    }
  }

  /** What the directory says about one container. */
  function ScanAt(d: Dir, id: string): Option<ContainerInfo> {
    if Readable(d, JsonFile(id)) then ReadEntry(JsonFile(id), d[JsonFile(id)]) else None
  }

  function At(m: Mapping, id: string): Option<ContainerInfo> { if id in m then Some(m[id]) else None }

  lemma ScanIsPointwise(d: Dir, m: Mapping)
    requires forall id :: ScanAt(d, id) == At(m, id)
    ensures ScanOf(d) == m
  {
    forall id ensures (id in ScanOf(d) <==> id in m) && (id in m ==> ScanOf(d)[id] == m[id]) {
      assert ScanAt(d, id) == At(m, id);
    }
  }

  /** Reading one more entry adds at most its own container. */
  function ScanWith(m: Mapping, name: string, e: Entry): Mapping {
    if Visible(name) && ReadEntry(name, e).Some? then m[ContainerIDFromFile(name) := ReadEntry(name, e).value] else m
  }

  /** Reading the listed names one after the other. */
  function ScanList(d: Dir, names: seq<string>): Mapping
    requires forall n :: n in names ==> n in d
  {
    if names == [] then map[]
    else
      var last := names[|names| - 1];
      ScanWith(ScanList(d, names[..|names| - 1]), last, d[last])
  }

  /** The order of the listing, and repetitions in it, do not matter. */
  lemma ScanListIsScan(d: Dir, names: seq<string>)
    requires forall n :: n in names <==> n in d
    ensures ScanList(d, names) == ScanOf(d)
  {
    forall id ensures ScanAt(d, id) == At(ScanList(d, names), id) { ScanListAt(d, names, id); }
    ScanIsPointwise(d, ScanList(d, names));
  }

  lemma {:induction false} ScanListAt(d: Dir, names: seq<string>, id: string)
    requires forall n :: n in names ==> n in d
    ensures At(ScanList(d, names), id) == if JsonFile(id) in names then ScanAt(d, id) else None
  {
    if names != [] {
      var last := names[|names| - 1];
      assert names == names[..|names| - 1] + [last];
      ScanListAt(d, names[..|names| - 1], id);
      StemOfFile(id);
      if HasSuffix(last, FILE_EXTENSION) { assert JsonFile(ContainerIDFromFile(last)) == last; }
    }
  }

  lemma VisibleStem(name: string)
    requires Visible(name)
    ensures ContainerIDFromFile(name) != ""
  {
    assert name[0] != '.';
  }

  lemma DesiredStep(infos: seq<ContainerInfo>, i: nat)
    requires i < |infos|
    ensures Desired(infos[..i + 1]) == Desired(infos[..i]) +
            (if infos[i].containerID == "" then {} else {FileName(infos[i].containerID)})
  {
    DesiredGrows(infos, i);
    forall n | n in Desired(infos[..i + 1])
      ensures n in Desired(infos[..i]) || (infos[i].containerID != "" && n == FileName(infos[i].containerID))
    {
      var b := infos[..i + 1];
      var k :| 0 <= k < |b| && b[k].containerID != "" && FileName(b[k].containerID) == n;
      if k < i { assert infos[..i][k] == b[k]; }
    }
  }

  lemma DesiredGrows(infos: seq<ContainerInfo>, i: nat)
    requires i < |infos|
    ensures Desired(infos[..i]) <= Desired(infos[..i + 1])
    ensures infos[i].containerID != "" ==> FileName(infos[i].containerID) in Desired(infos[..i + 1])
  {
    var a, b := infos[..i], infos[..i + 1];
    forall n | n in Desired(a) ensures n in Desired(b) {
      var k :| 0 <= k < |a| && a[k].containerID != "" && FileName(a[k].containerID) == n;
      assert b[k] == a[k];
    }
    assert b[i] == infos[i];
  }

  lemma PutBetween(d0: Dir, infos: seq<ContainerInfo>, d: Dir, k: nat)
    requires Between(d0, infos, d) && k < |infos|
    ensures Between(d0, infos, Put(d, infos[k]))
  {
    if infos[k].containerID != "" {
      var n, e := FileName(infos[k].containerID), File(Encoded(NewRecord(infos[k])));
      assert Writes(infos, n, e);
    }
  }

  lemma TempsBetween(d0: Dir, infos: seq<ContainerInfo>, d: Dir, d': Dir)
    requires Between(d0, infos, d) && SameButTemps(d, d')
    ensures Between(d0, infos, d')
  {
  }
}
