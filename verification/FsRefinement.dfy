/** The directory written by the filesystem store refines the in-memory container store:
    on bare container IDs the two agree after every sequence of operations, up to the two
    fields the on-disk schema leaves out. */
module FsRefinement {
  import opened Text
  import opened CgroupPaths
  import opened ContainerStores
  import opened FsStores

  datatype Op = Upsert(info: ContainerInfo) | Delete(id: string) | Replace(infos: seq<ContainerInfo>)

  predicate BareOp(op: Op) {
    match op
    case Upsert(info) => Bare(info.containerID)
    case Delete(id) => Bare(id)
    case Replace(infos) => forall i :: 0 <= i < |infos| ==> Bare(infos[i].containerID)
  }

  /** An operation of the filesystem writer when nothing fails. */
  function DirApply(d: Dir, op: Op): Dir {
    match op
    case Upsert(info) => Put(d, info)
    case Delete(id) => RemoveID(d, id)
    case Replace(infos) => ReplaceDir(d, infos)
  }

  /** The same operation of the in-memory store. */
  function StoreApply(m: Mapping, op: Op): Mapping {
    match op
    case Upsert(info) => if info.containerID == "" then m else m[info.containerID := info]
    case Delete(id) => WithoutContainer(m, id)
    case Replace(infos) => MappingOf(infos)
  }

  function DirRun(d: Dir, ops: seq<Op>): Dir {
    if ops == [] then d else DirApply(DirRun(d, ops[..|ops| - 1]), ops[|ops| - 1])
  }

  function StoreRun(m: Mapping, ops: seq<Op>): Mapping {
    if ops == [] then m else StoreApply(StoreRun(m, ops[..|ops| - 1]), ops[|ops| - 1])
  }

  /** The directory reads back as the mapping with the unpersisted fields erased. */
  ghost predicate Refines(d: Dir, m: Mapping) {
    && (forall k :: k in m ==> Bare(k))
    && (forall id :: ScanAt(d, id) == At(Erased(m), id))
  }

  /** After any sequence of operations on bare IDs without I/O failure, scanning the
      directory gives exactly the in-memory mapping, names and cgroup paths erased. */
  lemma {:induction false} DirectoryRefinesStore(d: Dir, m: Mapping, ops: seq<Op>)
    requires Refines(d, m)
    requires forall i :: 0 <= i < |ops| ==> BareOp(ops[i])
    ensures Refines(DirRun(d, ops), StoreRun(m, ops))
    ensures ScanOf(DirRun(d, ops)) == Erased(StoreRun(m, ops))
  {
    if ops != [] {
      var before := ops[..|ops| - 1];
      DirectoryRefinesStore(d, m, before);
      StepRefines(DirRun(d, before), StoreRun(m, before), ops[|ops| - 1]);
    }
    ScanIsPointwise(DirRun(d, ops), Erased(StoreRun(m, ops)));
  }

  lemma EmptyRefines()
    ensures Refines(map[], map[])
  {
  }

  lemma StepRefines(d: Dir, m: Mapping, op: Op)
    requires Refines(d, m) && BareOp(op)
    ensures Refines(DirApply(d, op), StoreApply(m, op))
  {
    match op
    case Upsert(info) =>
      forall id ensures ScanAt(Put(d, info), id) == At(Erased(StoreApply(m, op)), id) {
        PutAt(d, info, id);
        assert ScanAt(d, id) == At(Erased(m), id);
      }
    case Delete(target) =>
      forall id ensures ScanAt(RemoveID(d, target), id) == At(Erased(StoreApply(m, op)), id) {
        RemoveAt(d, target, id);
        assert ScanAt(d, id) == At(Erased(m), id);
        if id in m { BareAlike(target, id); }
      }
    case Replace(infos) =>
      MappingOfMeans(infos);
      forall id ensures ScanAt(ReplaceDir(d, infos), id) == At(Erased(MappingOf(infos)), id) {
        ReplaceAt(d, infos, id);
      }
  }

  /** One container written into an empty directory is read back under its ID, up to the
      erased fields, exactly when its ID is bare. */
  lemma ReadBackExactIffBare(info: ContainerInfo)
    requires info.containerID != ""
    ensures ScanOf(Put(map[], info)) == map[info.containerID := Erase(info)] <==> Bare(info.containerID)
  {
    var id := info.containerID;
    var d := Put(map[], info);
    if Bare(id) {
      forall k ensures ScanAt(d, k) == At(map[id := Erase(info)], k) { PutAt(map[], info, k); }
      ScanIsPointwise(d, map[id := Erase(info)]);
    } else {
      assert d.Keys == {FileName(id)};
      DistinctFiles(id, SanitizeContainerID(id));
      assert HasPrefix(id, ".") ==> HasPrefix(JsonFile(id), ".");
      assert id !in ScanOf(d);
    }
  }

  /** Two different containers whose IDs sanitise alike share one file: the in-memory store
      keeps both, the directory only the later one. */
  lemma SeparatorsCollide(a: ContainerInfo, b: ContainerInfo)
    requires a.containerID == "x/y" && b.containerID == "x_y"
    ensures StoreRun(map[], [Upsert(a), Upsert(b)]) == map["x/y" := a, "x_y" := b]
    ensures |ScanOf(DirRun(map[], [Upsert(a), Upsert(b)]))| <= 1
  {
    var ops := [Upsert(a), Upsert(b)];
    assert ops[..1] == [Upsert(a)] && ops[..1][..0] == [];
    assert DirRun(map[], ops[..1]) == Put(map[], a);
    assert StoreRun(map[], ops[..1]) == map["x/y" := a];
    SanitizeSlash();
    var d := Put(Put(map[], a), b);
    assert d.Keys == {FileName("x_y")};
    forall id | id in ScanOf(d) ensures id == "x_y" { StemOfFile(id); StemOfFile("x_y"); }
    assert ScanOf(d).Keys <= {"x_y"};
    CardinalityAtMostOne(ScanOf(d).Keys, "x_y");
  }

  lemma CardinalityAtMostOne(s: set<string>, x: string)
    requires s <= {x}
    ensures |s| <= 1
  {
    assert s == {} || s == {x};
  }

  lemma SanitizeSlash()
    ensures SanitizeContainerID("x/y") == SanitizeContainerID("x_y") == "x_y"
  {
    SanitizeFixed("x_y");
    TrimSpaceFixed("x_y");
    TrimSpaceFixed("x/y");
    assert LastIndex("x/y", "://") == -1;
    ReplaceCharPointwise("x/y", '/', '_');
    assert ReplaceAll("x/y", "/", "_") == "x_y";
    ReplaceCharPointwise("x_y", '\\', '_');
  }

  // ---------------------------------------------------------------- per-container effects

  lemma BareFile(id: string)
    requires Bare(id)
    ensures FileName(id) == JsonFile(id)
    ensures id != "" ==> Visible(JsonFile(id))
    ensures ContainerIDFromFile(JsonFile(id)) == id
  {
    StemOfFile(id);
    if id != "" { assert JsonFile(id)[0] == id[0]; }
  }

  lemma DistinctFiles(a: string, b: string)
    ensures JsonFile(a) == JsonFile(b) <==> a == b
  {
    StemOfFile(a);
    StemOfFile(b);
  }

  lemma PutAt(d: Dir, info: ContainerInfo, id: string)
    requires Bare(info.containerID)
    ensures ScanAt(Put(d, info), id) ==
            if info.containerID != "" && id == info.containerID then Some(Erase(info)) else ScanAt(d, id)
  {
    BareFile(info.containerID);
    DistinctFiles(info.containerID, id);
  }

  lemma RemoveAt(d: Dir, target: string, id: string)
    requires Bare(target)
    ensures ScanAt(RemoveID(d, target), id) == if target != "" && id == target then None else ScanAt(d, id)
  {
    BareFile(target);
    DistinctFiles(target, id);
  }

  lemma {:induction false} PutAllAt(d: Dir, infos: seq<ContainerInfo>, id: string)
    requires forall i :: 0 <= i < |infos| ==> Bare(infos[i].containerID)
    ensures ScanAt(PutAll(d, infos), id) ==
            if id in MappingOf(infos) then Some(Erase(MappingOf(infos)[id])) else ScanAt(d, id)
  {
    if infos != [] {
      PutAllAt(d, infos[..|infos| - 1], id);
      PutAt(PutAll(d, infos[..|infos| - 1]), infos[|infos| - 1], id);
    }
  }

  lemma ReplaceAt(d: Dir, infos: seq<ContainerInfo>, id: string)
    requires forall i :: 0 <= i < |infos| ==> Bare(infos[i].containerID)
    ensures ScanAt(ReplaceDir(d, infos), id) == At(Erased(MappingOf(infos)), id)
  {
    PutAllAt(d, infos, id);
    DesiredIffMapped(infos, id);
  }

  lemma DesiredIffMapped(infos: seq<ContainerInfo>, id: string)
    requires forall i :: 0 <= i < |infos| ==> Bare(infos[i].containerID)
    ensures JsonFile(id) in Desired(infos) <==> id in MappingOf(infos)
  {
    MappingOfMeans(infos);
    if JsonFile(id) in Desired(infos) {
      var k :| 0 <= k < |infos| && infos[k].containerID != "" && FileName(infos[k].containerID) == JsonFile(id);
      BareFile(infos[k].containerID);
      DistinctFiles(infos[k].containerID, id);
    }
    if id in MappingOf(infos) {
      var k :| 0 <= k < |infos| && infos[k].containerID == id;
      BareFile(id);
      assert infos[k].containerID != "" && FileName(infos[k].containerID) == JsonFile(id);
    }
  }

  lemma BareNormalizes(id: string)
    requires Bare(id)
    ensures NormalizeContainerID(id) == id
  {
    SanitizeFixed(id);
    if id != "" {
      if LastIndex(id, "://") >= 0 { FoundMeansContained(id, "://", 1); }
      assert id[0] in id && id[|id| - 1] in id;
    }
  }

  lemma BareAlike(a: string, b: string)
    requires Bare(a) && Bare(b)
    ensures SameContainer(a, b) <==> a == b
  {
    BareNormalizes(a);
    BareNormalizes(b);
  }
}
