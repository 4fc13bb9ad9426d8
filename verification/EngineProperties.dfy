/** What one collect of the metrics engine guarantees. */
module EngineProperties {
  import opened Text
  import opened ContainerStores
  import opened Engine
  import CgroupPaths

  // ---------------------------------------------------------------- conservation

  /** Every process is exactly one of skipped, unmatched and attributed. */
  lemma {:induction false} ProcessesArePartitioned(obs: seq<Observation>)
    ensures CountWhere(obs, ZeroPID) + CountWhere(obs, Unmatched) + CountWhere(obs, Attributed) == |obs|
    ensures forall o :: o in obs ==>
              (ZeroPID(o) && !Unmatched(o) && !Attributed(o)) || (!ZeroPID(o) && Unmatched(o) && !Attributed(o))
              || (!ZeroPID(o) && !Unmatched(o) && Attributed(o))
  {
    if obs != [] { ProcessesArePartitioned(obs[..|obs| - 1]); }
  }

  function RowMemory(rows: seq<Metric>): nat {
    if rows == [] then 0 else RowMemory(rows[..|rows| - 1]) + rows[|rows| - 1].memory
  }

  /** The memory on all rows together is the memory of all attributed processes: none is lost,
      none is counted twice. */
  lemma MemoryIsConserved(rows: seq<Metric>, t: Tables, resolve: Resolver, obs: seq<Observation>, pods: Mapping)
    requires OwnersKnown(obs, pods) && Lists(rows, Enriched(t, resolve, obs, pods))
    ensures RowMemory(rows) == AttributedMemory(obs)
  {
    RowMemoryIsGrouped(rows, t, resolve, obs, pods);
    forall k | k in ObservedKeys(obs, pods) ensures k in KeysOf(rows) {
      assert k in Enriched(t, resolve, obs, pods);
      var i :| 0 <= i < |rows| && rows[i].key == k;
      assert KeysOf(rows)[i] == k;
    }
    GroupedMemory(KeysOf(rows), obs, pods);
  }

  function KeysOf(rows: seq<Metric>): seq<PodGPUKey> { seq(|rows|, i requires 0 <= i < |rows| => rows[i].key) }

  function GroupSum(keys: seq<PodGPUKey>, obs: seq<Observation>, pods: Mapping): nat {
    if keys == [] then 0
    else GroupSum(keys[..|keys| - 1], obs, pods) + MemoryUnder(obs, pods, keys[|keys| - 1])
  }

  lemma {:induction false} RowMemoryIsGrouped(rows: seq<Metric>, t: Tables, resolve: Resolver, obs: seq<Observation>,
      pods: Mapping)
    requires forall i :: 0 <= i < |rows| ==> rows[i].memory == MemoryUnder(obs, pods, rows[i].key)
    ensures RowMemory(rows) == GroupSum(KeysOf(rows), obs, pods)
  {
    if rows != [] {
      var front := rows[..|rows| - 1];
      RowMemoryIsGrouped(front, t, resolve, obs, pods);
      assert KeysOf(rows)[..|rows| - 1] == KeysOf(front);
    }
  }

  predicate Distinct(keys: seq<PodGPUKey>) { forall i, j :: 0 <= i < j < |keys| ==> keys[i] != keys[j] }

  lemma {:induction false} GroupedMemory(keys: seq<PodGPUKey>, obs: seq<Observation>, pods: Mapping)
    requires Distinct(keys) && OwnersKnown(obs, pods)
    requires forall k :: k in ObservedKeys(obs, pods) ==> k in keys
    ensures GroupSum(keys, obs, pods) == AttributedMemory(obs)
  {
    if obs == [] {
      NoGroups(keys, pods);
    } else {
      var front, o := obs[..|obs| - 1], obs[|obs| - 1];
      assert obs == front + [o];
      KeysGrow(front, o, pods);
      GroupedMemory(keys, front, pods);
      OneMoreProcess(keys, front, o, pods);
    }
  }

  lemma {:induction false} NoGroups(keys: seq<PodGPUKey>, pods: Mapping)
    ensures GroupSum(keys, [], pods) == 0
  {
    if keys != [] { NoGroups(keys[..|keys| - 1], pods); }
  }

  /** A process adds its memory to the group of its own key and to no other. */
  lemma {:induction false} OneMoreProcess(keys: seq<PodGPUKey>, obs: seq<Observation>, o: Observation, pods: Mapping)
    requires Distinct(keys) && (Attributed(o) ==> o.owner.value in pods)
    ensures GroupSum(keys, obs + [o], pods) ==
            GroupSum(keys, obs, pods) + (if Attributed(o) && KeyFor(pods, o) in keys then o.process.memory else 0)
  {
    assert (obs + [o])[..|obs|] == obs;
    if keys != [] {
      var front, last := keys[..|keys| - 1], keys[|keys| - 1];
      assert keys == front + [last];
      OneMoreProcess(front, obs, o, pods);
      assert last !in front;
    }
  }

  // ---------------------------------------------------------------- order independence

  /** The table does not depend on the order in which processes are reported. */
  lemma ProcessOrderIrrelevant(t: Tables, resolve: Resolver, obs: seq<Observation>, obs': seq<Observation>,
      pods: Mapping)
    requires multiset(obs) == multiset(obs')
    ensures Enriched(t, resolve, obs, pods) == Enriched(t, resolve, obs', pods)
  {
    forall o ensures o in obs <==> o in obs' { assert o in multiset(obs) <==> o in multiset(obs'); }
    assert ObservedKeys(obs, pods) == ObservedKeys(obs', pods);
    assert ProcessLinks(obs, pods) == ProcessLinks(obs', pods);
    forall k
      ensures MemoryUnder(obs, pods, k) == MemoryUnder(obs', pods, k) && SMUnder(obs, pods, k) == SMUnder(obs', pods, k)
    {
      UsagePermutes(obs, obs', pods, k);
    }
  }

  lemma {:induction false} UsagePermutes(obs: seq<Observation>, obs': seq<Observation>, pods: Mapping, k: PodGPUKey)
    requires multiset(obs) == multiset(obs')
    ensures MemoryUnder(obs, pods, k) == MemoryUnder(obs', pods, k) && SMUnder(obs, pods, k) == SMUnder(obs', pods, k)
  {
    if obs == [] {
      assert |multiset(obs')| == 0;
    } else {
      var i := TakeOutSame(obs, obs');
      UsagePermutes(obs[..|obs| - 1], obs'[..i] + obs'[i + 1..], pods, k);
      UsageWithout(obs', pods, k, i);
    }
  }

  lemma TakeOutSame(obs: seq<Observation>, obs': seq<Observation>) returns (i: nat)
    requires multiset(obs) == multiset(obs') && obs != []
    ensures i < |obs'| && obs'[i] == obs[|obs| - 1]
    ensures multiset(obs[..|obs| - 1]) == multiset(obs'[..i] + obs'[i + 1..])
  {
    var front, o := obs[..|obs| - 1], obs[|obs| - 1];
    assert obs == front + [o];
    assert o in multiset(obs');
    i :| 0 <= i < |obs'| && obs'[i] == o;
    assert obs' == obs'[..i] + [o] + obs'[i + 1..];
    calc {
      multiset(front);
      multiset(obs) - multiset{o};
      multiset(obs') - multiset{o};
      multiset(obs'[..i]) + multiset(obs'[i + 1..]);
      multiset(obs'[..i] + obs'[i + 1..]);
    }
  }

  lemma {:induction false} UsageWithout(obs: seq<Observation>, pods: Mapping, k: PodGPUKey, i: nat)
    requires i < |obs|
    ensures var rest := obs[..i] + obs[i + 1..];
            && MemoryUnder(obs, pods, k)
               == MemoryUnder(rest, pods, k) + (if Under(pods, obs[i], k) then obs[i].process.memory else 0)
            && SMUnder(obs, pods, k)
               == SMUnder(rest, pods, k) + (if Under(pods, obs[i], k) then obs[i].process.sm else 0)
  {
    var rest, n := obs[..i] + obs[i + 1..], |obs| - 1;
    if i == n {
      assert rest == obs[..n];
    } else {
      UsageWithout(obs[..n], pods, k, i);
      assert obs[..n][..i] + obs[..n][i + 1..] == rest[..n - 1];
      assert rest[n - 1] == obs[n];
    }
  }

  predicate UniqueUUIDs(uuids: map<int, string>) {
    forall i, j :: i in uuids && j in uuids && uuids[i] == uuids[j] ==> i == j
  }

  /** Nor does it depend on the order in which the UUID table is searched, as long as no two
      indices carry the same UUID. */
  lemma SearchOrderIrrelevant(t: Tables, c1: IndexChoice, c2: IndexChoice, obs: seq<Observation>, pods: Mapping)
    requires UniqueUUIDs(t.uuids) && ValidChoice(t.uuids, c1) && ValidChoice(t.uuids, c2)
    ensures Enriched(t, ResolverOf(t, c1), obs, pods) == Enriched(t, ResolverOf(t, c2), obs, pods)
  {
    var r1, r2 := ResolverOf(t, c1), ResolverOf(t, c2);
    forall c, d ensures r1(c, d) == r2(c, d) { ChoicesAgree(t.uuids, c1, c2, d.uuid); }
    SameLinks(r1, r2, pods);
  }

  lemma ChoicesAgree(uuids: map<int, string>, c1: IndexChoice, c2: IndexChoice, u: string)
    requires UniqueUUIDs(uuids) && ValidChoice(uuids, c1) && ValidChoice(uuids, c2)
    ensures c1(u) == c2(u)
  {
    var a, b := c1(u), c2(u);
    assert a.None? ==> u !in uuids.Values;
    assert b.None? ==> u !in uuids.Values;
    if a.Some? { assert a.value in uuids && uuids[a.value] == u && u in uuids.Values; }
    if b.Some? { assert b.value in uuids && uuids[b.value] == u && u in uuids.Values; }
    if a.Some? && b.Some? {
      var i, j := a.value, b.value;
      assert i in uuids && j in uuids && uuids[i] == uuids[j];
      assert i == j;
      assert a == Some(i) && b == Some(j);
    }
  }

  lemma SameLinks(r1: Resolver, r2: Resolver, pods: Mapping)
    requires forall c, d :: r1(c, d) == r2(c, d)
    ensures DeviceLinks(r1, pods) == DeviceLinks(r2, pods)
  {
    forall id | id in pods
      ensures LinksOf(r1, pods[id], pods[id].gpuDevices) == LinksOf(r2, pods[id], pods[id].gpuDevices)
    {
      SameLinksOf(r1, r2, pods[id], pods[id].gpuDevices);
    }
  }

  lemma {:induction false} SameLinksOf(r1: Resolver, r2: Resolver, c: ContainerInfo, devices: seq<GPUDevice>)
    requires forall c, d :: r1(c, d) == r2(c, d)
    ensures LinksOf(r1, c, devices) == LinksOf(r2, c, devices)
  {
    if devices != [] { SameLinksOf(r1, r2, c, devices[..|devices| - 1]); }
  }

  /** A search that comes upon index i first. */
  function Prefer(choice: IndexChoice, u: string, i: int): IndexChoice { s => if s == u then Some(i) else choice(s) }

  /** When two indices do carry the same UUID, an idle container with that UUID is reported
      under either index, depending on the search. */
  lemma SharedUUIDMakesSearchOrderMatter(t: Tables, choice: IndexChoice, i: int, j: int, c: ContainerInfo)
    requires ValidChoice(t.uuids, choice) && i in t.uuids && j in t.uuids && i != j && t.uuids[i] == t.uuids[j] != ""
    requires c.containerID != "" && c.gpuDevices == [GPUDevice(0, 0, t.uuids[i])]
    ensures var u, pods := t.uuids[i], map[c.containerID := c];
            var c1, c2 := Prefer(choice, u, i), Prefer(choice, u, j);
            && ValidChoice(t.uuids, c1) && ValidChoice(t.uuids, c2) && WellKeyed(pods)
            && Enriched(t, ResolverOf(t, c1), [], pods).Keys != Enriched(t, ResolverOf(t, c2), [], pods).Keys
  {
    var u, pods := t.uuids[i], map[c.containerID := c];
    var c1, c2 := Prefer(choice, u, i), Prefer(choice, u, j);
    OnlyDevice(t, c1, c);
    OnlyDevice(t, c2, c);
    var k := PodGPUKey(c.namespace, c.pod, c.podUID, u, i);
    assert k in Enriched(t, ResolverOf(t, c1), [], pods).Keys;
    assert k !in Enriched(t, ResolverOf(t, c2), [], pods).Keys;
  }

  lemma OnlyDevice(t: Tables, choice: IndexChoice, c: ContainerInfo)
    requires |c.gpuDevices| == 1 && c.gpuDevices[0].uuid != "" && choice(c.gpuDevices[0].uuid).Some?
    ensures var u := c.gpuDevices[0].uuid;
            OutKeys(ResolverOf(t, choice), [], map[c.containerID := c]) ==
            {PodGPUKey(c.namespace, c.pod, c.podUID, u, choice(u).value)}
  {
    var r, pods := ResolverOf(t, choice), map[c.containerID := c];
    var d := c.gpuDevices[0];
    assert c.gpuDevices[..0] == [];
    assert LinksOf(r, c, []) == {};
    var l := (c.containerID, PodGPUKey(c.namespace, c.pod, c.podUID, d.uuid, choice(d.uuid).value));
    assert LinksOf(r, c, c.gpuDevices) == {l};
    assert l in DeviceLinks(r, pods) by { assert c.containerID in pods; }
    assert DeviceLinks(r, pods) == {l};
    assert ObservedKeys([], pods) == {};
  }

  // ---------------------------------------------------------------- phantom rows

  predicate SamePod(a: PodGPUKey, b: PodGPUKey) { a.namespace == b.namespace && a.podUID == b.podUID }

  /** No idle row shares its GPU index, or a known UUID, with an observed row of the same pod,
      however the Linux minors relate to the NVML indices. */
  lemma IdleRowsNeverShadowObserved(resolve: Resolver, obs: seq<Observation>, pods: Mapping, idle: PodGPUKey,
      seen: PodGPUKey)
    requires idle in OutKeys(resolve, obs, pods) && idle !in ObservedKeys(obs, pods)
    requires seen in ObservedKeys(obs, pods) && SamePod(idle, seen)
    ensures idle.gpuIndex != seen.gpuIndex
    ensures idle.gpuUUID != "" ==> idle.gpuUUID != seen.gpuUUID
  {
    var names := NamesOf(ObservedKeys(obs, pods));
    assert !Observed(names, idle);
    assert IndexName(seen) in names;
    assert seen.gpuUUID != "" ==> UUIDName(seen) in names;
  }

  predicate SlashFree(k: PodGPUKey) { '/' !in k.namespace && '/' !in k.podUID }

  ghost predicate ObservedForPod(obs: seq<Observation>, pods: Mapping, k: PodGPUKey) {
    exists seen :: seen in ObservedKeys(obs, pods) && SamePod(k, seen)
                   && (k.gpuIndex == seen.gpuIndex || (k.gpuUUID != "" && k.gpuUUID == seen.gpuUUID))
  }

  /** The rows are exactly the observed keys and the keys of resolvable devices whose GPU was
      not observed for that pod; namespaces and pod UIDs contain no slash. */
  lemma RowsAreObservedPlusIdle(resolve: Resolver, obs: seq<Observation>, pods: Mapping, k: PodGPUKey)
    requires forall id :: id in pods ==> '/' !in pods[id].namespace && '/' !in pods[id].podUID
    requires SlashFree(k)
    ensures k in OutKeys(resolve, obs, pods) <==>
            k in ObservedKeys(obs, pods)
                || ((exists id :: (id, k) in DeviceLinks(resolve, pods)) && !ObservedForPod(obs, pods, k))
  {
    ObservedMeans(obs, pods, k);
    if k in IdleKeys(resolve, obs, pods) {
      var l :| l in DeviceLinks(resolve, pods) && l.1 == k;
      assert (l.0, k) in DeviceLinks(resolve, pods);
    }
    if (exists id :: (id, k) in DeviceLinks(resolve, pods)) && !ObservedForPod(obs, pods, k) {
      var id :| (id, k) in DeviceLinks(resolve, pods);
      assert (id, k).1 == k;
    }
  }

  /** Which links there are. */
  lemma LinksMean(resolve: Resolver, pods: Mapping, id: string, k: PodGPUKey)
    requires WellKeyed(pods)
    ensures (id, k) in DeviceLinks(resolve, pods) <==>
            id in pods && exists d :: d in pods[id].gpuDevices && resolve(pods[id], d) == Some(k)
  {
    if id in pods { LinksOfMean(resolve, pods[id], pods[id].gpuDevices, k); }
    if (id, k) in DeviceLinks(resolve, pods) {
      var other :| other in pods && (id, k) in LinksOf(resolve, pods[other], pods[other].gpuDevices);
      LinksAreOwn(resolve, pods[other], pods[other].gpuDevices, (id, k));
    }
  }

  lemma {:induction false} LinksOfMean(resolve: Resolver, c: ContainerInfo, devices: seq<GPUDevice>, k: PodGPUKey)
    ensures (c.containerID, k) in LinksOf(resolve, c, devices) <==> exists d :: d in devices && resolve(c, d) == Some(k)
  {
    if devices != [] {
      var front, d := devices[..|devices| - 1], devices[|devices| - 1];
      assert devices == front + [d];
      LinksOfMean(resolve, c, front, k);
    }
  }

  lemma {:induction false} LinksAreOwn(resolve: Resolver, c: ContainerInfo, devices: seq<GPUDevice>,
      l: (string, PodGPUKey))
    requires l in LinksOf(resolve, c, devices)
    ensures l.0 == c.containerID
  {
    if l in LinksOf(resolve, c, devices[..|devices| - 1]) { LinksAreOwn(resolve, c, devices[..|devices| - 1], l); }
  }

  lemma ObservedMeans(obs: seq<Observation>, pods: Mapping, k: PodGPUKey)
    requires forall id :: id in pods ==> '/' !in pods[id].namespace && '/' !in pods[id].podUID
    requires SlashFree(k)
    ensures Observed(NamesOf(ObservedKeys(obs, pods)), k) <==> ObservedForPod(obs, pods, k)
  {
    var keys := ObservedKeys(obs, pods);
    var names := NamesOf(keys);
    if Observed(names, k) {
      if IndexName(k) in names {
        NameMeans(keys, k, IndexName(k), true);
      } else {
        NameMeans(keys, k, UUIDName(k), false);
      }
    }
    if ObservedForPod(obs, pods, k) {
      var seen :| seen in keys && SamePod(k, seen)
          && (k.gpuIndex == seen.gpuIndex || (k.gpuUUID != "" && k.gpuUUID == seen.gpuUUID));
      assert IndexName(seen) in names;
    }
  }

  /** A remembered name identifies pod and device. */
  lemma NameMeans(keys: set<PodGPUKey>, k: PodGPUKey, name: string, byIndex: bool)
    requires SlashFree(k) && (forall s :: s in keys ==> SlashFree(s))
    requires name == (if byIndex then IndexName(k) else UUIDName(k)) && name in NamesOf(keys)
    ensures exists s ::
              && s in keys && SamePod(k, s)
              && (if byIndex then s.gpuIndex == k.gpuIndex else s.gpuUUID == k.gpuUUID)
  {
    var s :| s in keys && (IndexName(s) == name || UUIDName(s) == name);
    NameParts(k);
    NameParts(s);
    if byIndex {
      var mine := "index/" + Itoa(k.gpuIndex);
      if IndexName(s) == name {
        SplitName(k.namespace, k.podUID, mine, s.namespace, s.podUID, "index/" + Itoa(s.gpuIndex));
        SamePrefix("index/", Itoa(k.gpuIndex), Itoa(s.gpuIndex));
        ItoaInjective(k.gpuIndex, s.gpuIndex);
      } else {
        SplitName(k.namespace, k.podUID, mine, s.namespace, s.podUID, "uuid/" + s.gpuUUID);
        KindsDiffer(s.gpuUUID, Itoa(k.gpuIndex));
      }
    } else {
      var mine := "uuid/" + k.gpuUUID;
      if IndexName(s) == name {
        SplitName(k.namespace, k.podUID, mine, s.namespace, s.podUID, "index/" + Itoa(s.gpuIndex));
        KindsDiffer(k.gpuUUID, Itoa(s.gpuIndex));
      } else {
        SplitName(k.namespace, k.podUID, mine, s.namespace, s.podUID, "uuid/" + s.gpuUUID);
        SamePrefix("uuid/", k.gpuUUID, s.gpuUUID);
      }
    }
  }

  lemma NameParts(k: PodGPUKey)
    ensures IndexName(k) == k.namespace + "/" + k.podUID + "/" + ("index/" + Itoa(k.gpuIndex))
    ensures UUIDName(k) == k.namespace + "/" + k.podUID + "/" + ("uuid/" + k.gpuUUID)
  {
    var stem := k.namespace + "/" + k.podUID;
    assert stem + "/index/" + Itoa(k.gpuIndex) == stem + "/" + ("index/" + Itoa(k.gpuIndex));
    assert stem + "/uuid/" + k.gpuUUID == stem + "/" + ("uuid/" + k.gpuUUID);
  }

  lemma KindsDiffer(uuid: string, index: string)
    ensures "uuid/" + uuid != "index/" + index
  {
    assert ("uuid/" + uuid)[0] == 'u' && ("index/" + index)[0] == 'i';
  }

  lemma SplitName(a: string, b: string, r: string, a': string, b': string, r': string)
    requires '/' !in a && '/' !in b && '/' !in a' && '/' !in b'
    requires a + "/" + b + "/" + r == a' + "/" + b' + "/" + r'
    ensures a == a' && b == b' && r == r'
  {
    assert a + "/" + b + "/" + r == a + ("/" + (b + "/" + r));
    assert a' + "/" + b' + "/" + r' == a' + ("/" + (b' + "/" + r'));
    FirstPart(a, b + "/" + r, a', b' + "/" + r');
    assert b + "/" + r == b + ("/" + r) && b' + "/" + r' == b' + ("/" + r');
    FirstPart(b, r, b', r');
  }

  lemma FirstPart(a: string, r: string, a': string, r': string)
    requires '/' !in a && '/' !in a' && a + ("/" + r) == a' + ("/" + r')
    ensures a == a' && r == r'
  {
    CgroupPaths.FirstSlashOf(a, "/" + r);
    CgroupPaths.FirstSlashOf(a', "/" + r');
    var x := a + ("/" + r);
    assert x[..|a|] == a && x[|a| + 1..] == r;
    var y := a' + ("/" + r');
    assert y[..|a'|] == a' && y[|a'| + 1..] == r';
  }

  /** Devices recorded by minor number carry no UUID of their own. */
  predicate MinorSourced(pods: Mapping) {
    forall id, d :: id in pods && d in pods[id].gpuDevices ==> d.uuid == ""
  }

  /** Process rows carry the UUID listed for their index. */
  predicate UUIDsListed(t: Tables, obs: seq<Observation>) {
    forall o :: o in obs && Attributed(o) ==> o.process.gpuUUID == UUIDAt(t, o.process.gpuIndex)
  }

  /** With devices recorded by minor number and processes carrying the listed UUIDs, a pod has
      at most one row per GPU index, observed or idle; idle sibling containers of a busy one
      fall on its row. */
  lemma OneRowPerPodAndIndex(t: Tables, choice: IndexChoice, obs: seq<Observation>, pods: Mapping, a: PodGPUKey,
      b: PodGPUKey)
    requires WellKeyed(pods) && OwnersKnown(obs, pods) && MinorSourced(pods) && UUIDsListed(t, obs)
    requires a in OutKeys(ResolverOf(t, choice), obs, pods) && b in OutKeys(ResolverOf(t, choice), obs, pods)
    requires a.namespace == b.namespace && a.pod == b.pod && a.podUID == b.podUID && a.gpuIndex == b.gpuIndex
    ensures a == b
  {
    RowCarriesListedUUID(t, choice, obs, pods, a);
    RowCarriesListedUUID(t, choice, obs, pods, b);
  }

  lemma RowCarriesListedUUID(t: Tables, choice: IndexChoice, obs: seq<Observation>, pods: Mapping, k: PodGPUKey)
    requires WellKeyed(pods) && OwnersKnown(obs, pods) && MinorSourced(pods) && UUIDsListed(t, obs)
    requires k in OutKeys(ResolverOf(t, choice), obs, pods)
    ensures k.gpuUUID == UUIDAt(t, k.gpuIndex)
  {
    if k !in ObservedKeys(obs, pods) {
      var l :| l in DeviceLinks(ResolverOf(t, choice), pods) && l.1 == k;
      LinksMean(ResolverOf(t, choice), pods, l.0, k);
      assert l == (l.0, k);
      var d :| d in pods[l.0].gpuDevices && ResolverOf(t, choice)(pods[l.0], d) == Some(k);
    }
  }

  // ---------------------------------------------------------------- requested fraction

  /** A row's fraction times the device total is the requested memory of the distinct
      containers linked to it, each counted once however many processes or device entries it
      has; the fraction is zero exactly when that sum or the device total is unknown. */
  lemma FractionIsShareOfDevice(t: Tables, resolve: Resolver, obs: seq<Observation>, pods: Mapping, k: PodGPUKey)
    ensures var f, sum := Row(t, resolve, obs, pods, k).fraction, RequestedMiB(resolve, obs, pods, k);
            var total := if k.gpuIndex in t.totals then t.totals[k.gpuIndex] else 0;
            && sum >= 0 && f >= 0.0
            && (f == 0.0 <==> sum == 0 || total == 0)
            && (total != 0 ==> f * total as real == (sum * 1048576) as real)
  {
    SumIsPositive(pods, Requesters(Links(resolve, obs, pods), pods, k));
    FractionMeans(t, k.gpuIndex, RequestedMiB(resolve, obs, pods, k));
  }

  lemma FractionMeans(t: Tables, index: int, requested: int)
    requires requested >= 0
    ensures var f := Fraction(t, index, requested);
            var total := if index in t.totals then t.totals[index] else 0;
            && f >= 0.0
            && (f == 0.0 <==> requested == 0 || total == 0)
            && (total != 0 ==> f * total as real == (requested * BYTES_PER_MIB) as real)
  {
    var total := if index in t.totals then t.totals[index] else 0;
    if requested > 0 && total != 0 { Quotient((requested * BYTES_PER_MIB) as real, total as real); }
  }

  lemma Quotient(x: real, y: real)
    requires x > 0.0 && y > 0.0
    ensures x / y > 0.0 && (x / y) * y == x
  {
  }

  lemma {:induction false} SumIsPositive(pods: Mapping, ids: set<string>)
    requires ids <= pods.Keys && forall id :: id in ids ==> pods[id].requestedMemoryMiB > 0
    ensures SumMiB(pods, ids) >= 0 && (ids != {} ==> SumMiB(pods, ids) > 0)
    decreases |ids|
  {
    if ids != {} {
      var id :| id in ids && SumMiB(pods, ids) == pods[id].requestedMemoryMiB + SumMiB(pods, ids - {id});
      SumIsPositive(pods, ids - {id});
    }
  }

  /** Who is counted for a row. */
  lemma RequestersMean(resolve: Resolver, obs: seq<Observation>, pods: Mapping, k: PodGPUKey, id: string)
    requires WellKeyed(pods) && id in pods
    ensures id in Requesters(Links(resolve, obs, pods), pods, k) <==>
            pods[id].requestedMemoryMiB > 0 &&
            ((exists o :: o in obs && o.owner == Some(id) && Under(pods, o, k))
             || (exists d :: d in pods[id].gpuDevices && resolve(pods[id], d) == Some(k)))
  {
    LinksMean(resolve, pods, id, k);
    if (id, k) in ProcessLinks(obs, pods) {
      var o :| o in obs && Attributed(o) && o.owner.value in pods && (o.owner.value, KeyFor(pods, o)) == (id, k);
      assert o.owner == Some(id) && Under(pods, o, k);
    }
  }
}
