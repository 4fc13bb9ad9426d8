/** The in-memory container-to-pod mapping
    (fractioning-manager/common/mapping/store/container_store.go). */
module ContainerStores {
  import opened Text
  import opened CgroupPaths

  datatype GPUDevice = GPUDevice(index: int, minorNumber: int, uuid: string)

  datatype ContainerInfo = ContainerInfo(
    containerID: string,
    container: string,
    pod: string,
    namespace: string,
    podUID: string,
    cgroupPath: string,
    gpuDevices: seq<GPUDevice>,
    requestedMemoryMiB: int)

  type Mapping = map<string, ContainerInfo>

  /** The mapping a full container list describes: a later entry for an ID wins, and
      entries without an ID are ignored. */
  function MappingOf(infos: seq<ContainerInfo>): Mapping {
    if infos == [] then map[]
    else
      var last := infos[|infos| - 1];
      var before := MappingOf(infos[..|infos| - 1]);
      if last.containerID == "" then before else before[last.containerID := last]
  }

  predicate SameContainer(a: string, b: string) {
    a == b || (NormalizeContainerID(a) != "" && NormalizeContainerID(a) == NormalizeContainerID(b))
  }

  function WithoutContainer(m: Mapping, id: string): Mapping {
    if id == "" then m else map k | k in m && !SameContainer(id, k) :: m[k]
  }

  predicate PathMatches(path: string, info: ContainerInfo) {
    CgroupPathContains(path, info.cgroupPath) || CgroupPathContainsContainerID(path, info.containerID)
  }

  predicate SomeMatch(m: Mapping, path: string, matches: (string, ContainerInfo) -> bool) {
    exists k | k in m :: matches(path, m[k])
  }

  predicate FirstMatch(m: Mapping, paths: seq<string>, i: int, matches: (string, ContainerInfo) -> bool) {
    0 <= i < |paths| && SomeMatch(m, paths[i], matches) && forall j :: 0 <= j < i ==> !SomeMatch(m, paths[j], matches)
  }

  /** What a lookup answers: nothing exactly when no path matches any container, otherwise
      a container matching the first path that any container matches. Which of several
      such containers it is depends on map iteration order. */
  ghost predicate IsLookup(m: Mapping, paths: seq<string>, r: Option<ContainerInfo>,
      matches: (string, ContainerInfo) -> bool)
  {
    match r
    case None => forall i :: 0 <= i < |paths| ==> !SomeMatch(m, paths[i], matches)
    case Some(info) => info in m.Values && exists i :: FirstMatch(m, paths, i, matches) && matches(paths[i], info)
  }

  /** The mapping of a list holds, per ID, the last entry with that ID. */
  lemma MappingOfMeans(infos: seq<ContainerInfo>)
    ensures forall k :: k in MappingOf(infos) <==> k != "" && exists i :: 0 <= i < |infos| && infos[i].containerID == k
    ensures forall i :: 0 <= i < |infos| && infos[i].containerID != ""
              && (forall j :: i < j < |infos| ==> infos[j].containerID != infos[i].containerID)
              ==> infos[i].containerID in MappingOf(infos) && MappingOf(infos)[infos[i].containerID] == infos[i]
    ensures forall k | k in MappingOf(infos) :: MappingOf(infos)[k].containerID == k && MappingOf(infos)[k] in infos
  {
    forall k ensures k in MappingOf(infos) <==> k != "" && HasEntry(infos, k) { MappedIffListed(infos, k); }
    forall i | 0 <= i < |infos| && infos[i].containerID != ""
              && (forall j :: i < j < |infos| ==> infos[j].containerID != infos[i].containerID)
      ensures infos[i].containerID in MappingOf(infos) && MappingOf(infos)[infos[i].containerID] == infos[i]
    {
      LastEntryWins(infos, i);
    }
    forall k | k in MappingOf(infos)
      ensures MappingOf(infos)[k].containerID == k && MappingOf(infos)[k] in infos
    {
      MappedEntry(infos, k);
    }
  }

  predicate HasEntry(infos: seq<ContainerInfo>, k: string) { exists i :: 0 <= i < |infos| && infos[i].containerID == k }

  lemma {:induction false} MappedIffListed(infos: seq<ContainerInfo>, k: string)
    ensures k in MappingOf(infos) <==> k != "" && HasEntry(infos, k)
  {
    if infos != [] {
      var front := infos[..|infos| - 1];
      MappedIffListed(front, k);
      assert forall i :: 0 <= i < |front| ==> front[i] == infos[i];
      if HasEntry(infos, k) && infos[|infos| - 1].containerID != k {
        var i :| 0 <= i < |infos| && infos[i].containerID == k;
        assert front[i].containerID == k;
      }
    }
  }

  lemma {:induction false} LastEntryWins(infos: seq<ContainerInfo>, i: nat)
    requires i < |infos| && infos[i].containerID != ""
    requires forall j :: i < j < |infos| ==> infos[j].containerID != infos[i].containerID
    ensures infos[i].containerID in MappingOf(infos) && MappingOf(infos)[infos[i].containerID] == infos[i]
  {
    if i < |infos| - 1 { LastEntryWins(infos[..|infos| - 1], i); }
  }

  lemma {:induction false} MappedEntry(infos: seq<ContainerInfo>, k: string)
    requires k in MappingOf(infos)
    ensures MappingOf(infos)[k].containerID == k && MappingOf(infos)[k] in infos
  {
    if infos != [] {
      var n := |infos| - 1;
      if infos[n].containerID == k && k != "" { assert infos[n] in infos; } else { MappedEntry(infos[..n], k); }
    }
  }

  lemma MappingAppend(infos: seq<ContainerInfo>, info: ContainerInfo)
    requires info.containerID != ""
    ensures MappingOf(infos + [info]) == MappingOf(infos)[info.containerID := info]
  {
    assert (infos + [info])[..|infos|] == infos;
  }

  class ContainerStore {
    var containers: Mapping

    constructor ()
      ensures containers == map[]
    {
      containers := map[];
    }

    method Replace(infos: seq<ContainerInfo>)
      modifies this
      ensures containers == MappingOf(infos)
    {
      var next: Mapping := map[];
      for i := 0 to |infos|
        invariant next == MappingOf(infos[..i])
      {
        assert infos[..i + 1][..i] == infos[..i];
        if infos[i].containerID != "" { next := next[infos[i].containerID := infos[i]]; }
      }
      assert infos[..|infos|] == infos;
      containers := next;
    }

    method Upsert(info: ContainerInfo)
      modifies this
      ensures containers == if info.containerID == "" then old(containers)
                else old(containers)[info.containerID := info]
    {
      if info.containerID != "" { containers := containers[info.containerID := info]; }
    }

    /** Removes the container under every spelling of its ID that normalises alike. */
    method Delete(containerID: string)
      modifies this
      ensures containers == WithoutContainer(old(containers), containerID)
    {
      if containerID == "" { return; }
      containers := containers - {containerID};
      var normalized := NormalizeContainerID(containerID);
      if normalized != "" { RemoveWhere(k => NormalizeContainerID(k) == normalized); }
    }

    /** The sweep over the stored IDs inside Delete. */
    method RemoveWhere(alike: string -> bool)
      modifies this
      ensures containers == map k | k in old(containers) && !alike(k) :: old(containers)[k]
    {
      var pending := containers.Keys;
      while pending != {}
        invariant pending <= containers.Keys
        invariant containers == map k | k in old(containers) && (k in pending || !alike(k)) :: old(containers)[k]
        decreases pending
      {
        var storedID :| storedID in pending;
        pending := pending - {storedID};
        if alike(storedID) { containers := containers - {storedID}; }
      }
    }

    method MatchCgroupPaths(paths: seq<string>) returns (r: Option<ContainerInfo>)
      ensures IsLookup(containers, paths, r, PathMatches)
    {
      r := Lookup(paths, PathMatches);
    }

    method Lookup(paths: seq<string>, matches: (string, ContainerInfo) -> bool) returns (r: Option<ContainerInfo>)
      ensures IsLookup(containers, paths, r, matches)
    {
      for i := 0 to |paths|
        invariant forall j :: 0 <= j < i ==> !SomeMatch(containers, paths[j], matches)
      {
        var pending := containers.Keys;
        while pending != {}
          invariant pending <= containers.Keys
          invariant forall k :: k in containers && k !in pending ==> !matches(paths[i], containers[k])
          decreases pending
        {
          var k :| k in pending;
          if matches(paths[i], containers[k]) {
            assert FirstMatch(containers, paths, i, matches);
            return Some(containers[k]);
          }
          pending := pending - {k};
        }
      }
      r := None;
    }

    method ActivePodUIDs() returns (uids: set<string>)
      ensures uids == set k | k in containers && containers[k].podUID != "" :: containers[k].podUID
    {
      uids := {};
      var pending := containers.Keys;
      while pending != {}
        invariant pending <= containers.Keys
        invariant uids == set k | k in containers && k !in pending && containers[k].podUID != "" :: containers[k].podUID
        decreases pending
      {
        var k :| k in pending;
        pending := pending - {k};
        if containers[k].podUID != "" { uids := uids + {containers[k].podUID}; }
      }
    }

    /** Every container once, in some order. */
    method ActiveContainers() returns (out: seq<ContainerInfo>)
      ensures |out| == |containers|
      ensures forall info :: info in out <==> info in containers.Values
      ensures (forall k | k in containers :: containers[k].containerID == k) ==>
                forall i, j :: 0 <= i < j < |out| ==> out[i].containerID != out[j].containerID
    {
      out := [];
      var pending := containers.Keys;
      ghost var order: seq<string> := [];
      while pending != {}
        invariant pending <= containers.Keys
        invariant |out| == |order| == |containers| - |pending|
        invariant forall i :: 0 <= i < |order| ==>
                  order[i] in containers && order[i] !in pending && out[i] == containers[order[i]]
        invariant forall i, j :: 0 <= i < j < |order| ==> order[i] != order[j]
        invariant forall k :: k in containers && k !in pending ==> k in order
        decreases pending
      {
        var k :| k in pending;
        pending := pending - {k};
        out, order := out + [containers[k]], order + [k];
      }
      forall info | info in containers.Values ensures info in out {
        var k :| k in containers && containers[k] == info;
        var i :| 0 <= i < |order| && order[i] == k;
        assert out[i] == info;
      }
    }
  }
}
