/** Attribution of GPU processes to pods: grouping, per-container deduplication of requested
    memory, device resolution and suppression of phantom idle rows
    (fractioning-manager/metricsd/internal/metrics/engine.go). */
module Engine {
  import opened Text
  import opened ContainerStores

  const MAX_PERCENT := 100
  const BYTES_PER_MIB := 1024 * 1024

  datatype PodGPUKey = PodGPUKey(namespace: string, pod: string, podUID: string, gpuUUID: string, gpuIndex: int)

  datatype Process = Process(pid: nat, gpuUUID: string, gpuIndex: int, memory: nat, sm: nat)

  /** A GPU process and the container its cgroup resolved to, if any. */
  datatype Observation = Observation(process: Process, owner: Option<string>)

  /** What has been learned about the devices: index to UUID, Linux minor to index, index to
      total memory in bytes. */
  datatype Tables = Tables(uuids: map<int, string>, minors: map<int, int>, totals: map<int, nat>)

  datatype Metric = Metric(key: PodGPUKey, memory: nat, sm: real, fraction: real, normalized: real)

  /** Which index a UUID is found under. Iteration order decides when several carry it. */
  type IndexChoice = string -> Option<int>

  ghost predicate ValidChoice(uuids: map<int, string>, choice: IndexChoice) {
    forall u :: (choice(u).Some? ==> choice(u).value in uuids && uuids[choice(u).value] == u)
                && (choice(u).None? ==> u !in uuids.Values)
  }

  /** The container mapping of one collect, as a container store holds it. */
  predicate WellKeyed(pods: Mapping) { forall id :: id in pods ==> id != "" && pods[id].containerID == id }

  predicate OwnersKnown(obs: seq<Observation>, pods: Mapping) {
    forall o :: o in obs && o.owner.Some? ==> o.owner.value in pods
  }

  // ---------------------------------------------------------------- attribution

  predicate ZeroPID(o: Observation) { o.process.pid == 0 }
  predicate Unmatched(o: Observation) { o.process.pid != 0 && o.owner.None? }
  predicate Attributed(o: Observation) { o.process.pid != 0 && o.owner.Some? }

  function KeyFor(pods: Mapping, o: Observation): PodGPUKey
    requires Attributed(o) && o.owner.value in pods
  {
    var c := pods[o.owner.value];
    PodGPUKey(c.namespace, c.pod, c.podUID, o.process.gpuUUID, o.process.gpuIndex)
  }

  predicate Under(pods: Mapping, o: Observation, key: PodGPUKey) {
    Attributed(o) && o.owner.value in pods && KeyFor(pods, o) == key
  }

  function MemoryUnder(obs: seq<Observation>, pods: Mapping, key: PodGPUKey): nat {
    if obs == [] then 0
    else
      var o := obs[|obs| - 1];
      MemoryUnder(obs[..|obs| - 1], pods, key) + (if Under(pods, o, key) then o.process.memory else 0)
  }

  function SMUnder(obs: seq<Observation>, pods: Mapping, key: PodGPUKey): nat {
    if obs == [] then 0
    else
      var o := obs[|obs| - 1];
      SMUnder(obs[..|obs| - 1], pods, key) + (if Under(pods, o, key) then o.process.sm else 0)
  }

  function CountWhere(obs: seq<Observation>, p: Observation -> bool): nat {
    if obs == [] then 0 else CountWhere(obs[..|obs| - 1], p) + (if p(obs[|obs| - 1]) then 1 else 0)
  }

  function AttributedMemory(obs: seq<Observation>): nat {
    if obs == [] then 0
    else
      var o := obs[|obs| - 1];
      AttributedMemory(obs[..|obs| - 1]) + (if Attributed(o) then o.process.memory else 0)
  }

  function ObservedKeys(obs: seq<Observation>, pods: Mapping): set<PodGPUKey> {
    set o | o in obs && Attributed(o) && o.owner.value in pods :: KeyFor(pods, o)
  }

  // ---------------------------------------------------------------- device resolution

  function UUIDAt(t: Tables, index: int): string { if index in t.uuids then t.uuids[index] else "" }

  /** idlePodGPUKey: None while a minor number has not been seen by NVML yet. */
  function IdleKey(t: Tables, choice: IndexChoice, c: ContainerInfo, d: GPUDevice): Option<PodGPUKey> {
    if d.uuid != "" then
      var i := match choice(d.uuid) case Some(resolved) => resolved case None => d.index;
      Some(PodGPUKey(c.namespace, c.pod, c.podUID, d.uuid, i))
    else if |t.minors| > 0 then
      var minor := if d.minorNumber == 0 && d.index != 0 then d.index else d.minorNumber;
      if minor !in t.minors then None
      else Some(PodGPUKey(c.namespace, c.pod, c.podUID, UUIDAt(t, t.minors[minor]), t.minors[minor]))
    else Some(PodGPUKey(c.namespace, c.pod, c.podUID, UUIDAt(t, d.index), d.index))
  }

  /** How a container's device becomes a row key. */
  type Resolver = (ContainerInfo, GPUDevice) -> Option<PodGPUKey>

  function ResolverOf(t: Tables, choice: IndexChoice): Resolver { (c, d) => IdleKey(t, choice, c, d) }

  /** The names under which observed devices are remembered. */
  function UUIDName(key: PodGPUKey): string { key.namespace + "/" + key.podUID + "/uuid/" + key.gpuUUID }
  function IndexName(key: PodGPUKey): string { key.namespace + "/" + key.podUID + "/index/" + Itoa(key.gpuIndex) }

  function NamesOf(keys: set<PodGPUKey>): set<string> {
    (set k | k in keys :: IndexName(k)) + (set k | k in keys && k.gpuUUID != "" :: UUIDName(k))
  }

  /** gpuObservedForPodDevice. */
  predicate Observed(names: set<string>, key: PodGPUKey) {
    (key.gpuUUID != "" && UUIDName(key) in names) || IndexName(key) in names
  }

  // ---------------------------------------------------------------- rows

  /** Container-to-key links: one per attributed process, one per resolvable device. */
  function ProcessLinks(obs: seq<Observation>, pods: Mapping): set<(string, PodGPUKey)> {
    set o | o in obs && Attributed(o) && o.owner.value in pods :: (o.owner.value, KeyFor(pods, o))
  }

  function LinksOf(resolve: Resolver, c: ContainerInfo, devices: seq<GPUDevice>): set<(string, PodGPUKey)> {
    if devices == [] then {}
    else
      var key := resolve(c, devices[|devices| - 1]);
      LinksOf(resolve, c, devices[..|devices| - 1]) + (if key.Some? then {(c.containerID, key.value)} else {})
  }

  function LinksOfAll(resolve: Resolver, pods: Mapping, ids: set<string>): set<(string, PodGPUKey)>
    requires ids <= pods.Keys
  {
    set id, l | id in ids && l in LinksOf(resolve, pods[id], pods[id].gpuDevices) :: l
  }

  function DeviceLinks(resolve: Resolver, pods: Mapping): set<(string, PodGPUKey)> {
    LinksOfAll(resolve, pods, pods.Keys)
  }

  function Links(resolve: Resolver, obs: seq<Observation>, pods: Mapping): set<(string, PodGPUKey)> {
    ProcessLinks(obs, pods) + DeviceLinks(resolve, pods)
  }

  /** The distinct containers with a memory request that are linked to a key. */
  function Requesters(links: set<(string, PodGPUKey)>, pods: Mapping, key: PodGPUKey): set<string> {
    set id | id in pods && (id, key) in links && pods[id].requestedMemoryMiB > 0
  }

  ghost function SumMiB(pods: Mapping, ids: set<string>): int
    requires ids <= pods.Keys
  {
    if ids == {} then 0
    else
      var id :| id in ids;
      pods[id].requestedMemoryMiB + SumMiB(pods, ids - {id})
  }

  /** gpuFraction. */
  function Fraction(t: Tables, index: int, requestedMiB: int): real {
    var total := if index in t.totals then t.totals[index] else 0;
    if requestedMiB <= 0 || total == 0 then 0.0
    else (requestedMiB * BYTES_PER_MIB) as real / total as real
  }

  function Clamp(sm: nat): real { if sm > MAX_PERCENT then MAX_PERCENT as real else sm as real }

  /** Linked keys that count as not observed under the given names. */
  function Unobserved(names: set<string>, links: set<(string, PodGPUKey)>): set<PodGPUKey> {
    set l | l in links && !Observed(names, l.1) :: l.1
  }

  function IdleKeys(resolve: Resolver, obs: seq<Observation>, pods: Mapping): set<PodGPUKey> {
    Unobserved(NamesOf(ObservedKeys(obs, pods)), DeviceLinks(resolve, pods))
  }

  function OutKeys(resolve: Resolver, obs: seq<Observation>, pods: Mapping): set<PodGPUKey> {
    ObservedKeys(obs, pods) + IdleKeys(resolve, obs, pods)
  }

  ghost function RequestedMiB(resolve: Resolver, obs: seq<Observation>, pods: Mapping, key: PodGPUKey): int {
    SumMiB(pods, Requesters(Links(resolve, obs, pods), pods, key))
  }

  ghost function Row(t: Tables, resolve: Resolver, obs: seq<Observation>, pods: Mapping, key: PodGPUKey): Metric {
    Metric(key, MemoryUnder(obs, pods, key), Clamp(SMUnder(obs, pods, key)),
           Fraction(t, key.gpuIndex, RequestedMiB(resolve, obs, pods, key)), 0.0)
  }

  /** One collect as a table: it mentions neither the order of the processes nor the order in
      which containers, devices or groups are visited. */
  ghost function Enriched(t: Tables, resolve: Resolver, obs: seq<Observation>, pods: Mapping): map<PodGPUKey, Metric> {
    map key | key in OutKeys(resolve, obs, pods) :: Row(t, resolve, obs, pods, key)
  }

  predicate DistinctKeys(rows: seq<Metric>) {
    forall i, j :: 0 <= i < j < |rows| ==> rows[i].key != rows[j].key
  }

  /** A list of rows that lists a table once. */
  ghost predicate Lists(rows: seq<Metric>, table: map<PodGPUKey, Metric>) {
    && DistinctKeys(rows)
    && (forall i :: 0 <= i < |rows| ==> rows[i].key in table && rows[i] == table[rows[i].key])
    && (forall k :: k in table ==> exists i :: 0 <= i < |rows| && rows[i].key == k)
  }

  // ---------------------------------------------------------------- the code

  datatype Usage = Usage(memory: nat, sm: nat)

  type MemoryByKey = map<PodGPUKey, map<string, int>>

  ghost predicate MemoryIs(mem: MemoryByKey, links: set<(string, PodGPUKey)>, pods: Mapping) {
    forall key, id :: Requested(mem, key, id) == if id in Requesters(links, pods, key)
        then Some(pods[id].requestedMemoryMiB) else None
  }

  function Requested(mem: MemoryByKey, key: PodGPUKey, id: string): Option<int> {
    if key in mem && id in mem[key] then Some(mem[key][id]) else None
  }

  /** recordRequestedMemory. */
  method RecordRequestedMemory(mem: MemoryByKey, key: PodGPUKey, id: string, pods: Mapping,
      ghost links: set<(string, PodGPUKey)>)
    returns (mem': MemoryByKey)
    requires id in pods && WellKeyed(pods) && MemoryIs(mem, links, pods)
    ensures MemoryIs(mem', links + {(id, key)}, pods)
  {
    var memMiB := pods[id].requestedMemoryMiB;
    mem' := mem;
    if memMiB > 0 && id != "" {
      var byContainer := if key in mem then mem[key] else map[];
      mem' := mem[key := byContainer[id := memMiB]];
    }
    forall k, i
      ensures Requested(mem', k, i) == if i in Requesters(links + {(id, key)}, pods, k)
                then Some(pods[i].requestedMemoryMiB) else None
    {
      assert Requested(mem, k, i) == if i in Requesters(links, pods, k) then Some(pods[i].requestedMemoryMiB) else None;
    }
  }

  ghost function SumValues(m: map<string, int>): int {
    if m == map[] then 0
    else
      var id :| id in m;
      m[id] + SumValues(m - {id})
  }

  /** sumRequestedMemory: iteration order does not matter. */
  method SumRequestedMemory(byContainer: map<string, int>) returns (sum: int)
    ensures sum == SumValues(byContainer)
  {
    sum := 0;
    var pending := byContainer;
    while pending != map[]
      invariant sum + SumValues(pending) == SumValues(byContainer)
      decreases pending.Keys
    {
      var id :| id in pending.Keys;
      SumTakeOut(pending, id);
      sum := sum + pending[id];
      pending := pending - {id};
    }
  }

  /** The accumulators of enrich's first loop, and what they hold after some processes. */
  datatype Groups = Groups(rows: map<PodGPUKey, Usage>, names: set<string>, mem: MemoryByKey, unmatched: nat)

  ghost predicate GroupsAre(g: Groups, obs: seq<Observation>, pods: Mapping) {
    && UsageIs(g.rows, obs, pods)
    && g.names == NamesOf(ObservedKeys(obs, pods))
    && MemoryIs(g.mem, ProcessLinks(obs, pods), pods)
    && g.unmatched == CountWhere(obs, Unmatched)
  }

  ghost predicate UsageIs(rows: map<PodGPUKey, Usage>, obs: seq<Observation>, pods: Mapping) {
    && rows.Keys == ObservedKeys(obs, pods)
    && forall k :: k in rows ==> rows[k] == UsageUnder(obs, pods, k)
  }

  /** observePodDevice. */
  method ObservePodDevice(names: set<string>, key: PodGPUKey, ghost keys: set<PodGPUKey>) returns (names': set<string>)
    requires names == NamesOf(keys)
    ensures names' == NamesOf(keys + {key})
  {
    names' := names;
    if key.gpuUUID != "" { names' := names' + {UUIDName(key)}; }
    names' := names' + {IndexName(key)};
  }

  method AddUsage(rows: map<PodGPUKey, Usage>, key: PodGPUKey, o: Observation, ghost obs: seq<Observation>,
      ghost pods: Mapping)
    returns (rows': map<PodGPUKey, Usage>)
    requires UsageIs(rows, obs, pods) && Under(pods, o, key)
    ensures UsageIs(rows', obs + [o], pods)
  {
    var before := if key in rows then rows[key] else Usage(0, 0);
    rows' := rows[key := Usage(before.memory + o.process.memory, before.sm + o.process.sm)];
    KeysGrow(obs, o, pods);
    forall k | k in rows' ensures rows'[k] == UsageUnder(obs + [o], pods, k) { UsageGrows(rows, obs, o, pods, k); }
  }

  ghost function UsageUnder(obs: seq<Observation>, pods: Mapping, k: PodGPUKey): Usage {
    Usage(MemoryUnder(obs, pods, k), SMUnder(obs, pods, k))
  }

  lemma UsageGrows(rows: map<PodGPUKey, Usage>, obs: seq<Observation>, o: Observation, pods: Mapping, k: PodGPUKey)
    requires UsageIs(rows, obs, pods)
    ensures var before := if k in rows then rows[k] else Usage(0, 0);
            UsageUnder(obs + [o], pods, k) ==
            if Under(pods, o, k) then Usage(before.memory + o.process.memory, before.sm + o.process.sm) else before
  {
    assert (obs + [o])[..|obs|] == obs;
    if k !in rows { NothingUnder(obs, pods, k); }
  }

  /** One turn of the first loop. */
  method GroupProcess(g: Groups, o: Observation, ghost obs: seq<Observation>, pods: Mapping) returns (g': Groups)
    requires WellKeyed(pods) && GroupsAre(g, obs, pods) && (o.owner.Some? ==> o.owner.value in pods)
    ensures GroupsAre(g', obs + [o], pods)
  {
    assert (obs + [o])[..|obs|] == obs;
    KeysGrow(obs, o, pods);
    if o.process.pid == 0 { return g; }
    if o.owner.None? { return g.(unmatched := g.unmatched + 1); }
    var key := KeyFor(pods, o);
    var names := ObservePodDevice(g.names, key, ObservedKeys(obs, pods));
    var mem := RecordRequestedMemory(g.mem, key, o.owner.value, pods, ProcessLinks(obs, pods));
    var rows := AddUsage(g.rows, key, o, obs, pods);
    g' := Groups(rows, names, mem, g.unmatched);
  }

  /** The first loop of enrich. */
  method GroupProcesses(obs: seq<Observation>, pods: Mapping) returns (g: Groups)
    requires WellKeyed(pods) && OwnersKnown(obs, pods)
    ensures GroupsAre(g, obs, pods)
  {
    g := Groups(map[], {}, map[], 0);
    for i := 0 to |obs|
      invariant GroupsAre(g, obs[..i], pods)
    {
      assert obs[..i + 1] == obs[..i] + [obs[i]];
      g := GroupProcess(g, obs[i], obs[..i], pods);
    }
    assert obs[..|obs|] == obs;
  }

  /** Rows after adding a zero row for each linked key that was not observed. */
  ghost function WithIdle(rows: map<PodGPUKey, Usage>, names: set<string>,
      links: set<(string, PodGPUKey)>): map<PodGPUKey, Usage>
  {
    map k | k in rows.Keys + Unobserved(names, links) :: if k in rows then rows[k] else Usage(0, 0)
  }

  /** The second loop of enrich: every device of every active container. */
  method AddIdleRows(resolve: Resolver, pods: Mapping, rows0: map<PodGPUKey, Usage>, names: set<string>,
      mem0: MemoryByKey, ghost links0: set<(string, PodGPUKey)>)
    returns (rows: map<PodGPUKey, Usage>, mem: MemoryByKey)
    requires WellKeyed(pods) && MemoryIs(mem0, links0, pods)
    ensures MemoryIs(mem, links0 + DeviceLinks(resolve, pods), pods)
    ensures rows == WithIdle(rows0, names, DeviceLinks(resolve, pods))
  {
    rows, mem := rows0, mem0;
    var pending := pods.Keys;
    ghost var order: seq<string> := [];
    assert links0 + {} == links0;
    while pending != {}
      invariant pending <= pods.Keys && forall id :: id in pods.Keys <==> id in pending || id in order
      invariant MemoryIs(mem, links0 + LinksInOrder(resolve, pods, order), pods)
      invariant rows == WithIdle(rows0, names, LinksInOrder(resolve, pods, order))
      decreases pending
    {
      var id :| id in pending;
      rows, mem := AddDevicesOf(resolve, pods, id, rows0, rows, names, mem, links0, LinksInOrder(resolve, pods, order));
      assert (order + [id])[..|order|] == order;
      pending, order := pending - {id}, order + [id];
    }
    LinksInAnyOrder(resolve, pods, order);
  }

  function LinksInOrder(resolve: Resolver, pods: Mapping, order: seq<string>): set<(string, PodGPUKey)>
    requires forall id :: id in order ==> id in pods
  {
    if order == [] then {}
    else
      var id := order[|order| - 1];
      LinksInOrder(resolve, pods, order[..|order| - 1]) + LinksOf(resolve, pods[id], pods[id].gpuDevices)
  }

  lemma LinksInAnyOrder(resolve: Resolver, pods: Mapping, order: seq<string>)
    requires forall id :: id in order <==> id in pods
    ensures LinksInOrder(resolve, pods, order) == DeviceLinks(resolve, pods)
  {
    forall l ensures l in LinksInOrder(resolve, pods, order) <==> l in DeviceLinks(resolve, pods) {
      LinkIsSomeones(resolve, pods, order, l);
    }
  }

  lemma {:induction false} LinkIsSomeones(resolve: Resolver, pods: Mapping, order: seq<string>, l: (string, PodGPUKey))
    requires forall id :: id in order ==> id in pods
    ensures l in LinksInOrder(resolve, pods, order) <==>
            exists id :: id in order && l in LinksOf(resolve, pods[id], pods[id].gpuDevices)
  {
    if order != [] {
      var front, last := order[..|order| - 1], order[|order| - 1];
      assert order == front + [last];
      LinkIsSomeones(resolve, pods, front, l);
    }
  }

  /** The devices of one container. */
  method AddDevicesOf(resolve: Resolver, pods: Mapping, id: string, ghost rows0: map<PodGPUKey, Usage>,
      rows: map<PodGPUKey, Usage>, names: set<string>, mem: MemoryByKey, ghost links0: set<(string, PodGPUKey)>,
      ghost links: set<(string, PodGPUKey)>)
    returns (rows': map<PodGPUKey, Usage>, mem': MemoryByKey)
    requires WellKeyed(pods) && id in pods && MemoryIs(mem, links0 + links, pods)
             && rows == WithIdle(rows0, names, links)
    ensures MemoryIs(mem', links0 + (links + LinksOf(resolve, pods[id], pods[id].gpuDevices)), pods)
    ensures rows' == WithIdle(rows0, names, links + LinksOf(resolve, pods[id], pods[id].gpuDevices))
  {
    rows', mem' := rows, mem;
    var c := pods[id];
    var devices := c.gpuDevices;
    ghost var now := links;
    assert links + {} == links;
    for j := 0 to |devices|
      invariant now == links + LinksOf(resolve, c, devices[..j])
      invariant MemoryIs(mem', links0 + now, pods) && rows' == WithIdle(rows0, names, now)
    {
      assert devices[..j + 1][..j] == devices[..j];
      var resolved := resolve(c, devices[j]);
      if resolved.None? { continue; }
      var key := resolved.value;
      mem' := RecordRequestedMemory(mem', key, id, pods, links0 + now);
      rows' := AddIdleRow(rows', key, id, names, rows0, now);
      assert links0 + now + {(id, key)} == links0 + (now + {(id, key)});
      now := now + {(id, key)};
    }
    assert devices[..|devices|] == devices;
  }

  method AddIdleRow(rows: map<PodGPUKey, Usage>, key: PodGPUKey, ghost id: string, names: set<string>,
      ghost rows0: map<PodGPUKey, Usage>, ghost links: set<(string, PodGPUKey)>)
    returns (rows': map<PodGPUKey, Usage>)
    requires rows == WithIdle(rows0, names, links)
    ensures rows' == WithIdle(rows0, names, links + {(id, key)})
  {
    rows' := rows;
    ghost var l := (id, key);
    assert Unobserved(names, links + {l}) == Unobserved(names, links) + (if Observed(names, key) then {} else {key});
    if key in rows || Observed(names, key) { return; }
    rows' := rows[key := Usage(0, 0)];
  }

  /** enrich. */
  method Enrich(t: Tables, choice: IndexChoice, obs: seq<Observation>, pods: Mapping)
    returns (out: seq<Metric>, unmatched: nat)
    requires WellKeyed(pods) && OwnersKnown(obs, pods)
    ensures Lists(out, Enriched(t, ResolverOf(t, choice), obs, pods))
    ensures unmatched == CountWhere(obs, Unmatched)
  {
    var g := GroupProcesses(obs, pods);
    unmatched := g.unmatched;
    var resolve := ResolverOf(t, choice);
    var rows, mem := AddIdleRows(resolve, pods, g.rows, g.names, g.mem, ProcessLinks(obs, pods));
    TableFromRows(t, resolve, obs, pods, g.rows, rows, mem);
    out := ListRows(t, rows, mem);
  }

  ghost function RowFrom(t: Tables, key: PodGPUKey, u: Usage, byContainer: map<string, int>): Metric {
    Metric(key, u.memory, Clamp(u.sm), Fraction(t, key.gpuIndex, SumValues(byContainer)), 0.0)
  }

  function MemoryAt(mem: MemoryByKey, key: PodGPUKey): map<string, int> { if key in mem then mem[key] else map[] }

  ghost function TableFrom(t: Tables, rows: map<PodGPUKey, Usage>, mem: MemoryByKey): map<PodGPUKey, Metric> {
    map key | key in rows :: RowFrom(t, key, rows[key], MemoryAt(mem, key))
  }

  /** The last loop of enrich: clamp, derive the fraction, list in some order. */
  method ListRows(t: Tables, rows: map<PodGPUKey, Usage>, mem: MemoryByKey) returns (out: seq<Metric>)
    ensures Lists(out, TableFrom(t, rows, mem))
  {
    out := [];
    var pending := rows.Keys;
    ghost var table := TableFrom(t, rows, mem);
    while pending != {}
      invariant pending <= rows.Keys && ListsBut(out, table, pending)
      decreases pending
    {
      var key :| key in pending;
      var m := MakeRow(t, key, rows[key], MemoryAt(mem, key));
      ListsButStep(out, table, pending, m);
      out, pending := out + [m], pending - {key};
    }
  }

  /** Lists, with some keys of the table still to come. */
  ghost predicate ListsBut(rows: seq<Metric>, table: map<PodGPUKey, Metric>, pending: set<PodGPUKey>) {
    && DistinctKeys(rows)
    && (forall i :: 0 <= i < |rows| ==>
       rows[i].key in table && rows[i].key !in pending && rows[i] == table[rows[i].key])
    && (forall k :: k in table && k !in pending ==> exists i :: 0 <= i < |rows| && rows[i].key == k)
  }

  method MakeRow(t: Tables, key: PodGPUKey, u: Usage, byContainer: map<string, int>) returns (m: Metric)
    ensures m == RowFrom(t, key, u, byContainer)
  {
    var sum := SumRequestedMemory(byContainer);
    var sm := u.sm as real;
    if sm > MAX_PERCENT as real { sm := MAX_PERCENT as real; }
    m := Metric(key, u.memory, sm, Fraction(t, key.gpuIndex, sum), 0.0);
  }

  lemma ListsButStep(rows: seq<Metric>, table: map<PodGPUKey, Metric>, pending: set<PodGPUKey>, m: Metric)
    requires ListsBut(rows, table, pending) && m.key in pending && m.key in table && m == table[m.key]
    ensures ListsBut(rows + [m], table, pending - {m.key})
  {
    var rows' := rows + [m];
    forall k | k in table && k !in pending - {m.key} ensures exists i :: 0 <= i < |rows'| && rows'[i].key == k {
      if k == m.key {
        assert rows'[|rows|].key == k;
      } else {
        var i :| 0 <= i < |rows| && rows[i].key == k;
        assert rows'[i].key == k;
      }
    }
  }

  // ---------------------------------------------------------------- supporting lemmas

  lemma {:induction false} SumTakeOut(m: map<string, int>, x: string)
    requires x in m
    ensures SumValues(m) == m[x] + SumValues(m - {x})
    decreases |m.Keys|
  {
    var y :| y in m && SumValues(m) == m[y] + SumValues(m - {y});
    if y != x {
      SumTakeOut(m - {y}, x);
      SumTakeOut(m - {x}, y);
      assert m - {y} - {x} == m - {x} - {y};
    }
  }

  lemma {:induction false} SumMiBIsSumValues(pods: Mapping, m: map<string, int>)
    requires forall id :: id in m ==> id in pods && m[id] == pods[id].requestedMemoryMiB
    ensures SumValues(m) == SumMiB(pods, m.Keys)
    decreases |m.Keys|
  {
    if m != map[] {
      var id :| id in m.Keys && SumMiB(pods, m.Keys) == pods[id].requestedMemoryMiB + SumMiB(pods, m.Keys - {id});
      SumTakeOut(m, id);
      SumMiBIsSumValues(pods, m - {id});
      assert (m - {id}).Keys == m.Keys - {id};
    }
  }

  /** One more observation. */
  lemma KeysGrow(obs: seq<Observation>, o: Observation, pods: Mapping)
    ensures ObservedKeys(obs + [o], pods) ==
            ObservedKeys(obs, pods) + (if Attributed(o) && o.owner.value in pods then {KeyFor(pods, o)} else {})
    ensures ProcessLinks(obs + [o], pods) ==
            ProcessLinks(obs, pods)
                + (if Attributed(o) && o.owner.value in pods then {(o.owner.value, KeyFor(pods, o))} else {})
  {
    assert forall x :: x in obs + [o] <==> x in obs || x == o;
  }

  lemma {:induction false} NothingUnder(obs: seq<Observation>, pods: Mapping, key: PodGPUKey)
    requires key !in ObservedKeys(obs, pods)
    ensures MemoryUnder(obs, pods, key) == 0 && SMUnder(obs, pods, key) == 0
  {
    if obs != [] {
      var front, o := obs[..|obs| - 1], obs[|obs| - 1];
      assert obs == front + [o];
      KeysGrow(front, o, pods);
      NothingUnder(front, pods, key);
    }
  }

  lemma TableFromRows(t: Tables, resolve: Resolver, obs: seq<Observation>, pods: Mapping, rows0: map<PodGPUKey, Usage>,
      rows: map<PodGPUKey, Usage>, mem: MemoryByKey)
    requires UsageIs(rows0, obs, pods)
    requires rows == WithIdle(rows0, NamesOf(ObservedKeys(obs, pods)), DeviceLinks(resolve, pods))
    requires MemoryIs(mem, Links(resolve, obs, pods), pods)
    ensures TableFrom(t, rows, mem) == Enriched(t, resolve, obs, pods)
  {
    assert rows.Keys == OutKeys(resolve, obs, pods);
    forall k | k in rows ensures RowFrom(t, k, rows[k], MemoryAt(mem, k)) == Row(t, resolve, obs, pods, k) {
      if k !in rows0 { NothingUnder(obs, pods, k); }
      assert rows[k] == UsageUnder(obs, pods, k);
      MemoryAtIs(mem, Links(resolve, obs, pods), pods, k);
    }
  }

  lemma MemoryAtIs(mem: MemoryByKey, links: set<(string, PodGPUKey)>, pods: Mapping, key: PodGPUKey)
    requires MemoryIs(mem, links, pods)
    ensures SumValues(MemoryAt(mem, key)) == SumMiB(pods, Requesters(links, pods, key))
  {
    var m, ids := MemoryAt(mem, key), Requesters(links, pods, key);
    forall id ensures (id in m <==> id in ids) && (id in m ==> m[id] == pods[id].requestedMemoryMiB) {
      assert Requested(mem, key, id) == if id in ids then Some(pods[id].requestedMemoryMiB) else None;
    }
    assert m.Keys == ids;
    SumMiBIsSumValues(pods, m);
  }
}
