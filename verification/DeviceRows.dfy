/** Which rows one collect reports, said about the processes, the containers' device records and what
    NVML has told so far, and not about how a device record is resolved
    (fractioning-manager/metricsd/internal/metrics/engine.go). */
module DeviceRows {
  import opened Text
  import opened ContainerStores
  import opened Engine
  import opened EngineProperties

  /** The UUID NVML has listed for an index, empty while it has listed none. */
  predicate ListedAs(t: Tables, index: int, uuid: string) {
    (index in t.uuids ==> uuid == t.uuids[index]) && (index !in t.uuids ==> uuid == "")
  }

  /** Either field of a record without UUID can hold the Linux minor; the older one is index. */
  predicate HasMinor(d: GPUDevice, minor: int) {
    minor == d.minorNumber != 0 || (d.minorNumber == 0 && minor == d.index)
  }

  /** A device record stands for the NVML device of this index and UUID: by its own UUID, under the
      index the search for it finds if there is one; by its Linux minor once NVML has told any; and
      otherwise by its index. */
  predicate StandsFor(t: Tables, search: IndexChoice, d: GPUDevice, index: int, uuid: string) {
    if d.uuid != "" then
      uuid == d.uuid && (if d.uuid in t.uuids.Values then search(d.uuid) == Some(index) else index == d.index)
    else
      ListedAs(t, index, uuid) && (if t.minors == map[] then index == d.index else MappedMinor(t, d, index))
  }

  predicate MappedMinor(t: Tables, d: GPUDevice, index: int) {
    exists minor | minor in t.minors :: HasMinor(d, minor) && t.minors[minor] == index
  }

  predicate OfContainer(k: PodGPUKey, c: ContainerInfo) {
    k.namespace == c.namespace && k.pod == c.pod && k.podUID == c.podUID
  }

  predicate OfPod(k: PodGPUKey, namespace: string, podUID: string) { k.namespace == namespace && k.podUID == podUID }

  /** A process of a container of this mapping, on this device. */
  predicate RunsOn(pods: Mapping, o: Observation, k: PodGPUKey) {
    && o.process.pid != 0 && o.owner.Some? && o.owner.value in pods && OfContainer(k, pods[o.owner.value])
    && o.process.gpuIndex == k.gpuIndex && o.process.gpuUUID == k.gpuUUID
  }

  predicate HasProcess(obs: seq<Observation>, pods: Mapping, k: PodGPUKey) {
    exists o | o in obs :: RunsOn(pods, o, k)
  }

  /** Some container has a record of this device. */
  predicate HasDevice(t: Tables, search: IndexChoice, pods: Mapping, k: PodGPUKey) {
    exists id | id in pods :: OfContainer(k, pods[id]) && OnRecord(t, search, pods[id], k.gpuIndex, k.gpuUUID)
  }

  predicate OnRecord(t: Tables, search: IndexChoice, c: ContainerInfo, index: int, uuid: string) {
    exists d | d in c.gpuDevices :: StandsFor(t, search, d, index, uuid)
  }

  /** A process of a container of this pod. */
  predicate RunsIn(pods: Mapping, o: Observation, namespace: string, podUID: string) {
    && o.process.pid != 0 && o.owner.Some? && o.owner.value in pods
    && pods[o.owner.value].namespace == namespace && pods[o.owner.value].podUID == podUID
  }

  /** A process of the pod is on the same index, or on the same UUID. */
  predicate BusyThere(obs: seq<Observation>, pods: Mapping, k: PodGPUKey) {
    exists o | o in obs ::
      && RunsIn(pods, o, k.namespace, k.podUID)
      && (o.process.gpuIndex == k.gpuIndex || (k.gpuUUID != "" && o.process.gpuUUID == k.gpuUUID))
  }

  /** A pod has a process on an index, or a record of the device of that index. */
  ghost predicate Uses(t: Tables, search: IndexChoice, obs: seq<Observation>, pods: Mapping, namespace: string,
      podUID: string, index: int)
  {
    || (exists o :: o in obs && RunsIn(pods, o, namespace, podUID) && o.process.gpuIndex == index)
    || (exists id, uuid :: id in pods && pods[id].namespace == namespace && pods[id].podUID == podUID
                           && OnRecord(t, search, pods[id], index, uuid))
  }

  predicate SlashFreePods(pods: Mapping) {
    forall id :: id in pods ==> '/' !in pods[id].namespace && '/' !in pods[id].podUID
  }

  // ---------------------------------------------------------------- main results

  /** The rows of a collect are one for every device a pod has processes on, and one for every device
      on record that no process of the pod is on; nothing else. */
  lemma RowsAreDevices(t: Tables, search: IndexChoice, obs: seq<Observation>, pods: Mapping, k: PodGPUKey)
    requires WellKeyed(pods) && SlashFreePods(pods) && ValidChoice(t.uuids, search)
    ensures k in Enriched(t, ResolverOf(t, search), obs, pods) <==>
            HasProcess(obs, pods, k) || (HasDevice(t, search, pods, k) && !BusyThere(obs, pods, k))
  {
    ObservedIsProcess(obs, pods, k);
    LinkedIsDevice(t, search, pods, k);
    if HasDevice(t, search, pods, k) || HasProcess(obs, pods, k) {
      assert SlashFree(k);
      RowsAreObservedPlusIdle(ResolverOf(t, search), obs, pods, k);
      ObservedForPodIsBusy(obs, pods, k);
    }
  }

  /** A pod has a row at an NVML index if and only if it has a process on that index or a record of
      that device, when processes carry the listed UUIDs and no UUID is listed twice. */
  lemma PodHasRowIffUsed(t: Tables, search: IndexChoice, obs: seq<Observation>, pods: Mapping, namespace: string,
      podUID: string, index: int)
    requires WellKeyed(pods) && SlashFreePods(pods) && ValidChoice(t.uuids, search)
    requires UniqueUUIDs(t.uuids) && UUIDsListed(t, obs)
    ensures (exists k :: k in Enriched(t, ResolverOf(t, search), obs, pods)
                         && OfPod(k, namespace, podUID) && k.gpuIndex == index)
            <==> Uses(t, search, obs, pods, namespace, podUID, index)
  {
    var table := Enriched(t, ResolverOf(t, search), obs, pods);
    if k :| k in table && OfPod(k, namespace, podUID) && k.gpuIndex == index { RowIsUsed(t, search, obs, pods, k); }
    if Uses(t, search, obs, pods, namespace, podUID, index) {
      var k := RowOfUsed(t, search, obs, pods, namespace, podUID, index);
    }
  }

  /** A record without UUID whose minor NVML knows gives its pod a row at the NVML index of that minor,
      which need not be the minor. */
  lemma KnownMinorHasRow(t: Tables, search: IndexChoice, obs: seq<Observation>, pods: Mapping, id: string,
      d: GPUDevice, minor: int)
    returns (k: PodGPUKey)
    requires WellKeyed(pods) && SlashFreePods(pods) && ValidChoice(t.uuids, search)
    requires UniqueUUIDs(t.uuids) && UUIDsListed(t, obs)
    requires id in pods && d in pods[id].gpuDevices && d.uuid == "" && HasMinor(d, minor) && minor in t.minors
    ensures k in Enriched(t, ResolverOf(t, search), obs, pods)
    ensures OfPod(k, pods[id].namespace, pods[id].podUID) && k.gpuIndex == t.minors[minor]
  {
    assert MappedMinor(t, d, t.minors[minor]);
    assert OnRecord(t, search, pods[id], t.minors[minor], UUIDAt(t, t.minors[minor]));
    k := RowOfUsed(t, search, obs, pods, pods[id].namespace, pods[id].podUID, t.minors[minor]);
  }

  /** A record without UUID whose minor NVML does not know adds nothing: the table is the same without
      it, in every row and every value. */
  lemma UnknownMinorAddsNothing(t: Tables, search: IndexChoice, obs: seq<Observation>, pods: Mapping, id: string,
      j: nat)
    requires WellKeyed(pods) && id in pods && j < |pods[id].gpuDevices|
    requires var d := pods[id].gpuDevices[j];
             d.uuid == "" && t.minors != map[] && forall minor :: HasMinor(d, minor) ==> minor !in t.minors
    ensures Enriched(t, ResolverOf(t, search), obs, pods)
            == Enriched(t, ResolverOf(t, search), obs, WithoutDevice(pods, id, j))
  {
    var r, pods' := ResolverOf(t, search), WithoutDevice(pods, id, j);
    SameIdentities(obs, pods, pods');
    assert r(pods[id], pods[id].gpuDevices[j]) == None;
    forall l ensures l in DeviceLinks(r, pods) <==> l in DeviceLinks(r, pods') {
      LinkWithout(t, search, pods, id, j, l.0, l.1);
      assert l == (l.0, l.1);
    }
    SameLinksSameTable(t, r, obs, pods, pods');
  }

  function WithoutDevice(pods: Mapping, id: string, j: nat): Mapping
    requires id in pods && j < |pods[id].gpuDevices|
  {
    var devices := pods[id].gpuDevices;
    pods[id := pods[id].(gpuDevices := devices[..j] + devices[j + 1..])]
  }

  /** A pod all of whose processes and device records are on one NVML device has exactly one row: the
      minor of the record and the index of the processes meet. */
  lemma OneDeviceOneRow(t: Tables, search: IndexChoice, obs: seq<Observation>, pods: Mapping, rows: seq<Metric>,
      namespace: string, podUID: string, index: int)
    returns (r: nat)
    requires WellKeyed(pods) && OwnersKnown(obs, pods) && SlashFreePods(pods) && ValidChoice(t.uuids, search)
    requires MinorSourced(pods) && UniqueUUIDs(t.uuids) && UUIDsListed(t, obs) && OneName(pods, namespace, podUID)
    requires forall i :: Uses(t, search, obs, pods, namespace, podUID, i) <==> i == index
    requires Lists(rows, Enriched(t, ResolverOf(t, search), obs, pods))
    ensures r < |rows| && rows[r].key.gpuIndex == index
    ensures forall i :: 0 <= i < |rows| ==> (OfPod(rows[i].key, namespace, podUID) <==> i == r)
  {
    var table := Enriched(t, ResolverOf(t, search), obs, pods);
    var k := RowOfUsed(t, search, obs, pods, namespace, podUID, index);
    r :| 0 <= r < |rows| && rows[r].key == k;
    forall i | 0 <= i < |rows| ensures OfPod(rows[i].key, namespace, podUID) <==> i == r {
      if OfPod(rows[i].key, namespace, podUID) {
        assert rows[i].key in table;
        RowIsUsed(t, search, obs, pods, rows[i].key);
        SameRow(t, search, obs, pods, k, rows[i].key);
      }
    }
  }

  /** A row starts at zero; a process on it adds its memory and, up to 100 percent, its utilisation;
      any other process leaves it alone. */
  lemma ProcessAddsToItsRow(t: Tables, resolve: Resolver, obs: seq<Observation>, o: Observation, pods: Mapping,
      k: PodGPUKey)
    ensures Row(t, resolve, [], pods, k).memory == 0 && Row(t, resolve, [], pods, k).sm == 0.0
    ensures var before, after := Row(t, resolve, obs, pods, k), Row(t, resolve, obs + [o], pods, k);
            if RunsOn(pods, o, k) then
              && after.memory == before.memory + o.process.memory
              && after.sm == var sum := before.sm + o.process.sm as real; if sum > 100.0 then 100.0 else sum
            else after.memory == before.memory && after.sm == before.sm
  {
    assert (obs + [o])[..|obs|] == obs;
    assert RunsOn(pods, o, k) <==> Under(pods, o, k);
  }

  /** The containers of a pod agree on its name. */
  predicate OneName(pods: Mapping, namespace: string, podUID: string) {
    forall a, b :: a in pods && b in pods && PodIs(pods[a], namespace, podUID) && PodIs(pods[b], namespace, podUID) ==>
      pods[a].pod == pods[b].pod
  }

  predicate PodIs(c: ContainerInfo, namespace: string, podUID: string) {
    c.namespace == namespace && c.podUID == podUID
  }

  // ---------------------------------------------------------------- supporting lemmas

  lemma ObservedIsProcess(obs: seq<Observation>, pods: Mapping, k: PodGPUKey)
    ensures k in ObservedKeys(obs, pods) <==> HasProcess(obs, pods, k)
  {
    if HasProcess(obs, pods, k) {
      var o :| o in obs && RunsOn(pods, o, k);
      assert Attributed(o) && KeyFor(pods, o) == k;
    }
    if k in ObservedKeys(obs, pods) {
      var o :| o in obs && Attributed(o) && o.owner.value in pods && KeyFor(pods, o) == k;
      assert RunsOn(pods, o, k);
    }
  }

  lemma ObservedForPodIsBusy(obs: seq<Observation>, pods: Mapping, k: PodGPUKey)
    ensures ObservedForPod(obs, pods, k) <==> BusyThere(obs, pods, k)
  {
    if BusyThere(obs, pods, k) {
      var o :| o in obs && RunsIn(pods, o, k.namespace, k.podUID)
               && (o.process.gpuIndex == k.gpuIndex || (k.gpuUUID != "" && o.process.gpuUUID == k.gpuUUID));
      assert KeyFor(pods, o) in ObservedKeys(obs, pods);
    }
  }

  lemma LinkedIsDevice(t: Tables, search: IndexChoice, pods: Mapping, k: PodGPUKey)
    requires WellKeyed(pods) && ValidChoice(t.uuids, search)
    ensures (exists id :: (id, k) in DeviceLinks(ResolverOf(t, search), pods)) <==> HasDevice(t, search, pods, k)
  {
    var r := ResolverOf(t, search);
    if id :| (id, k) in DeviceLinks(r, pods) {
      LinksMean(r, pods, id, k);
      var d :| d in pods[id].gpuDevices && r(pods[id], d) == Some(k);
      ResolvedStandsFor(t, search, pods[id], d, k);
      assert OnRecord(t, search, pods[id], k.gpuIndex, k.gpuUUID);
    }
    if HasDevice(t, search, pods, k) {
      var id :| id in pods && OfContainer(k, pods[id]) && OnRecord(t, search, pods[id], k.gpuIndex, k.gpuUUID);
      var d :| d in pods[id].gpuDevices && StandsFor(t, search, d, k.gpuIndex, k.gpuUUID);
      ResolvedStandsFor(t, search, pods[id], d, k);
      LinksMean(r, pods, id, k);
    }
  }

  lemma ResolvedStandsFor(t: Tables, search: IndexChoice, c: ContainerInfo, d: GPUDevice, k: PodGPUKey)
    requires ValidChoice(t.uuids, search)
    ensures ResolverOf(t, search)(c, d) == Some(k) <==>
            OfContainer(k, c) && StandsFor(t, search, d, k.gpuIndex, k.gpuUUID)
  {
    var found := search(d.uuid);
    if found.Some? { assert t.uuids[found.value] == d.uuid; }
  }

  lemma RowIsUsed(t: Tables, search: IndexChoice, obs: seq<Observation>, pods: Mapping, k: PodGPUKey)
    requires WellKeyed(pods) && SlashFreePods(pods) && ValidChoice(t.uuids, search)
    requires k in Enriched(t, ResolverOf(t, search), obs, pods)
    ensures Uses(t, search, obs, pods, k.namespace, k.podUID, k.gpuIndex)
  {
    RowsAreDevices(t, search, obs, pods, k);
  }

  /** The row of a used index: the process's own, or the record's unless a process of the pod is there. */
  lemma RowOfUsed(t: Tables, search: IndexChoice, obs: seq<Observation>, pods: Mapping, namespace: string,
      podUID: string, index: int)
    returns (k: PodGPUKey)
    requires WellKeyed(pods) && SlashFreePods(pods) && ValidChoice(t.uuids, search)
    requires UniqueUUIDs(t.uuids) && UUIDsListed(t, obs) && Uses(t, search, obs, pods, namespace, podUID, index)
    ensures k in Enriched(t, ResolverOf(t, search), obs, pods) && OfPod(k, namespace, podUID) && k.gpuIndex == index
  {
    if o :| o in obs && RunsIn(pods, o, namespace, podUID) && o.process.gpuIndex == index {
      k := KeyFor(pods, o);
    } else {
      var id, uuid :| id in pods && pods[id].namespace == namespace && pods[id].podUID == podUID
                      && OnRecord(t, search, pods[id], index, uuid);
      var d :| d in pods[id].gpuDevices && StandsFor(t, search, d, index, uuid);
      k := PodGPUKey(namespace, pods[id].pod, podUID, uuid, index);
      assert HasDevice(t, search, pods, k);
      forall o | o in obs && RunsIn(pods, o, namespace, podUID) && uuid != "" && o.process.gpuUUID == uuid
        ensures false
      {
        SameUUIDSameIndex(t, search, d, index, uuid, o.process.gpuIndex);
      }
    }
    RowsAreDevices(t, search, obs, pods, k);
  }

  lemma SameUUIDSameIndex(t: Tables, search: IndexChoice, d: GPUDevice, index: int, uuid: string, other: int)
    requires ValidChoice(t.uuids, search) && UniqueUUIDs(t.uuids)
    requires StandsFor(t, search, d, index, uuid) && uuid != "" && uuid == UUIDAt(t, other)
    ensures index == other
  {
    assert t.uuids[other] == uuid;
    if d.uuid != "" { assert search(uuid).Some? ==> t.uuids[search(uuid).value] == uuid; }
  }

  lemma SameRow(t: Tables, search: IndexChoice, obs: seq<Observation>, pods: Mapping, a: PodGPUKey, b: PodGPUKey)
    requires WellKeyed(pods) && OwnersKnown(obs, pods) && SlashFreePods(pods) && ValidChoice(t.uuids, search)
    requires MinorSourced(pods) && UUIDsListed(t, obs) && OneName(pods, a.namespace, a.podUID)
    requires a in Enriched(t, ResolverOf(t, search), obs, pods) && b in Enriched(t, ResolverOf(t, search), obs, pods)
    requires OfPod(b, a.namespace, a.podUID) && a.gpuIndex == b.gpuIndex
    ensures a == b
  {
    var x := ContainerOf(t, search, obs, pods, a);
    var y := ContainerOf(t, search, obs, pods, b);
    assert PodIs(pods[x], a.namespace, a.podUID) && PodIs(pods[y], a.namespace, a.podUID);
    OneRowPerPodAndIndex(t, search, obs, pods, a, b);
  }

  lemma ContainerOf(t: Tables, search: IndexChoice, obs: seq<Observation>, pods: Mapping, k: PodGPUKey)
    returns (id: string)
    requires WellKeyed(pods) && SlashFreePods(pods) && ValidChoice(t.uuids, search)
    requires k in Enriched(t, ResolverOf(t, search), obs, pods)
    ensures id in pods && OfContainer(k, pods[id])
  {
    RowsAreDevices(t, search, obs, pods, k);
    if HasProcess(obs, pods, k) {
      var o :| o in obs && RunsOn(pods, o, k);
      id := o.owner.value;
    } else {
      id :| id in pods && OfContainer(k, pods[id]);
    }
  }

  /** The same containers up to their device records. */
  predicate SameButDevices(pods: Mapping, pods': Mapping) {
    pods.Keys == pods'.Keys && forall id :: id in pods ==> pods'[id] == pods[id].(gpuDevices := pods'[id].gpuDevices)
  }

  lemma {:induction false} SameIdentities(obs: seq<Observation>, pods: Mapping, pods': Mapping)
    requires SameButDevices(pods, pods')
    ensures ObservedKeys(obs, pods) == ObservedKeys(obs, pods') && ProcessLinks(obs, pods) == ProcessLinks(obs, pods')
    ensures forall k :: UsageUnder(obs, pods, k) == UsageUnder(obs, pods', k)
  {
    if obs != [] {
      var front, o := obs[..|obs| - 1], obs[|obs| - 1];
      SameIdentities(front, pods, pods');
      assert obs == front + [o];
      KeysGrow(front, o, pods);
      KeysGrow(front, o, pods');
      forall k ensures UsageUnder(obs, pods, k) == UsageUnder(obs, pods', k) {
        assert UsageUnder(front, pods, k) == UsageUnder(front, pods', k);
        assert Under(pods, o, k) <==> Under(pods', o, k);
      }
    }
  }

  lemma LinkWithout(t: Tables, search: IndexChoice, pods: Mapping, id: string, j: nat, other: string, k: PodGPUKey)
    requires WellKeyed(pods) && id in pods && j < |pods[id].gpuDevices|
    requires ResolverOf(t, search)(pods[id], pods[id].gpuDevices[j]) == None
    ensures var r := ResolverOf(t, search);
            (other, k) in DeviceLinks(r, pods) <==> (other, k) in DeviceLinks(r, WithoutDevice(pods, id, j))
  {
    var r, pods', devices := ResolverOf(t, search), WithoutDevice(pods, id, j), pods[id].gpuDevices;
    LinksMean(r, pods, other, k);
    LinksMean(r, pods', other, k);
    assert devices == devices[..j] + [devices[j]] + devices[j + 1..];
    assert forall d :: d in devices <==> d == devices[j] || d in pods'[id].gpuDevices;
    assert forall d :: r(pods'[id], d) == r(pods[id], d);
  }

  lemma SameLinksSameTable(t: Tables, r: Resolver, obs: seq<Observation>, pods: Mapping, pods': Mapping)
    requires SameButDevices(pods, pods') && ObservedKeys(obs, pods) == ObservedKeys(obs, pods')
    requires ProcessLinks(obs, pods) == ProcessLinks(obs, pods')
    requires forall k :: UsageUnder(obs, pods, k) == UsageUnder(obs, pods', k)
    requires DeviceLinks(r, pods) == DeviceLinks(r, pods')
    ensures Enriched(t, r, obs, pods) == Enriched(t, r, obs, pods')
  {
    assert OutKeys(r, obs, pods) == OutKeys(r, obs, pods');
    forall k ensures Row(t, r, obs, pods, k) == Row(t, r, obs, pods', k) {
      assert UsageUnder(obs, pods, k) == UsageUnder(obs, pods', k);
      var ids := Requesters(Links(r, obs, pods), pods, k);
      assert ids == Requesters(Links(r, obs, pods'), pods', k);
      SameSums(pods, pods', ids);
    }
  }

  lemma {:induction false} SameSums(pods: Mapping, pods': Mapping, ids: set<string>)
    requires SameButDevices(pods, pods') && ids <= pods.Keys
    ensures SumMiB(pods, ids) == SumMiB(pods', ids)
    decreases |ids|
  {
    if ids != {} {
      var id :| id in ids && SumMiB(pods, ids) == pods[id].requestedMemoryMiB + SumMiB(pods, ids - {id});
      SameSums(pods, pods', ids - {id});
      SumTakesOut(pods', ids, id);
    }
  }

  lemma {:induction false} SumTakesOut(pods: Mapping, ids: set<string>, x: string)
    requires ids <= pods.Keys && x in ids
    ensures SumMiB(pods, ids) == pods[x].requestedMemoryMiB + SumMiB(pods, ids - {x})
    decreases |ids|
  {
    var y :| y in ids && SumMiB(pods, ids) == pods[y].requestedMemoryMiB + SumMiB(pods, ids - {y});
    if y != x {
      SumTakesOut(pods, ids - {y}, x);
      SumTakesOut(pods, ids - {x}, y);
      assert ids - {y} - {x} == ids - {x} - {y};
    }
  }
}
