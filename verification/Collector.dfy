/** Joining NVML's utilisation samples and running-process lists into per-process rows
    (fractioning-manager/metricsd/internal/metrics/nvml_collector.go). */
module Collector {
  import opened Text
  import opened ContainerStores
  import opened Engine
  import EngineRun
  import EngineProperties

  /** NVML's marker for an unavailable value, the largest uint64. */
  const NOT_AVAILABLE := 0xffff_ffff_ffff_ffff

  datatype Sample = Sample(pid: nat, sm: nat, mem: nat, enc: nat, dec: nat, timestamp: nat)

  datatype Running = Running(pid: nat, used: nat)

  /** What querying one device turns out to give; None for a failed call. */
  datatype Reading = Reading(
    handle: bool,
    uuid: Option<string>,
    minor: Option<int>,
    total: Option<nat>,
    utilization: Option<seq<Sample>>,
    compute: Option<seq<Running>>,
    graphics: Option<seq<Running>>)

  type Joined = map<(string, nat), Process>

  /** shouldSkipProcessUtilizationSample. */
  predicate Skipped(s: Sample, lastSeen: nat) {
    s.pid == 0 || s.sm > 100 || s.mem > 100 || s.enc > 100 || s.dec > 100 || s.timestamp <= lastSeen
  }

  // ---------------------------------------------------------------- the joined rows

  /** The row of a process on a device, taken over by the device's current index. */
  function RowAt(joined: Joined, uuid: string, pid: nat, index: int): Process {
    if (uuid, pid) in joined then joined[(uuid, pid)].(pid := pid, gpuUUID := uuid, gpuIndex := index)
    else Process(pid, uuid, index, 0, 0)
  }

  function AddSample(joined: Joined, uuid: string, index: int, lastSeen: nat, s: Sample): Joined {
    if Skipped(s, lastSeen) then joined else joined[(uuid, s.pid) := RowAt(joined, uuid, s.pid, index).(sm := s.sm)]
  }

  function AddSamples(joined: Joined, uuid: string, index: int, lastSeen: nat, samples: seq<Sample>): Joined {
    if samples == [] then joined
    else AddSample(AddSamples(joined, uuid, index, lastSeen, samples[..|samples| - 1]), uuid, index, lastSeen,
        samples[|samples| - 1])
  }

  function AddProcess(joined: Joined, uuid: string, index: int, p: Running): Joined {
    var row := RowAt(joined, uuid, p.pid, index);
    joined[(uuid, p.pid) := if p.used != NOT_AVAILABLE && p.used > row.memory then row.(memory := p.used) else row]
  }

  function AddProcesses(joined: Joined, uuid: string, index: int, processes: seq<Running>): Joined {
    if processes == [] then joined
    else AddProcess(AddProcesses(joined, uuid, index, processes[..|processes| - 1]), uuid, index,
        processes[|processes| - 1])
  }

  /** One device: a failed sample query is skipped, a failed process list ends the device. */
  function AddDevice(joined: Joined, uuid: string, index: int, lastSeen: nat, r: Reading): Joined {
    var sampled := if r.utilization.Some? then AddSamples(joined, uuid, index, lastSeen, r.utilization.value)
        else joined;
    if r.compute.None? then sampled
    else
      var computing := AddProcesses(sampled, uuid, index, r.compute.value);
      if r.graphics.None? then computing else AddProcesses(computing, uuid, index, r.graphics.value)
  }

  /** The UUIDs a collect works with: cached, else read, else none. */
  function UUIDOf(cache: map<int, string>, index: int, r: Reading): Option<string> {
    if !r.handle then None else if index in cache && cache[index] != "" then Some(cache[index]) else r.uuid
  }

  function JoinAll(cache: map<int, string>, readings: seq<Reading>, lastSeen: nat): Joined {
    if readings == [] then map[]
    else
      var n := |readings| - 1;
      var before := JoinAll(cache, readings[..n], lastSeen);
      match UUIDOf(cache, n, readings[n])
      case None => before
      case Some(uuid) => AddDevice(before, uuid, n, lastSeen, readings[n])
  }

  function UUIDTable(cache: map<int, string>, readings: seq<Reading>): map<int, string> {
    if readings == [] then map[]
    else
      var n := |readings| - 1;
      var before := UUIDTable(cache, readings[..n]);
      match UUIDOf(cache, n, readings[n]) case None => before case Some(uuid) => before[n := uuid]
  }

  function MinorTable(cache: map<int, string>, readings: seq<Reading>): map<int, int> {
    if readings == [] then map[]
    else
      var n := |readings| - 1;
      var before := MinorTable(cache, readings[..n]);
      if UUIDOf(cache, n, readings[n]).Some? && readings[n].minor.Some? then before[readings[n].minor.value := n]
      else before
  }

  function TotalTable(cache: map<int, string>, readings: seq<Reading>): map<int, nat> {
    if readings == [] then map[]
    else
      var n := |readings| - 1;
      var before := TotalTable(cache, readings[..n]);
      if UUIDOf(cache, n, readings[n]).Some? && readings[n].total.Some? then before[n := readings[n].total.value]
      else before
  }

  // ---------------------------------------------------------------- what the joined rows mean

  predicate SampledIn(samples: seq<Sample>, pid: nat, lastSeen: nat) {
    exists i :: 0 <= i < |samples| && samples[i].pid == pid && !Skipped(samples[i], lastSeen)
  }

  /** The value of the last sample that counts, or what was known before. */
  function LastSM(samples: seq<Sample>, pid: nat, lastSeen: nat, before: nat): nat {
    if samples == [] then before
    else
      var s := samples[|samples| - 1];
      if s.pid == pid && !Skipped(s, lastSeen) then s.sm else LastSM(samples[..|samples| - 1], pid, lastSeen, before)
  }

  /** The largest amount reported for a process, or what was known before. */
  function MaxUsed(processes: seq<Running>, pid: nat, before: nat): nat {
    if processes == [] then before
    else
      var p, m := processes[|processes| - 1], MaxUsed(processes[..|processes| - 1], pid, before);
      if p.pid == pid && p.used != NOT_AVAILABLE && p.used > m then p.used else m
  }

  function MemoryOf(joined: Joined, k: (string, nat)): nat { if k in joined then joined[k].memory else 0 }

  function SMOf(joined: Joined, k: (string, nat)): nat { if k in joined then joined[k].sm else 0 }

  /** Samples add exactly the processes with a sample that counts, set the last such value, and touch
      neither memory nor other devices. */
  lemma {:induction false} SamplesMean(joined: Joined, uuid: string, index: int, lastSeen: nat, samples: seq<Sample>,
      k: (string, nat))
    ensures var out := AddSamples(joined, uuid, index, lastSeen, samples);
            && (k in out <==> k in joined || (k.0 == uuid && SampledIn(samples, k.1, lastSeen)))
            && MemoryOf(out, k) == MemoryOf(joined, k)
            && SMOf(out, k)
               == (if k.0 == uuid then LastSM(samples, k.1, lastSeen, SMOf(joined, k)) else SMOf(joined, k))
            && (k.0 != uuid && k in joined ==> out[k] == joined[k])
  {
    if samples != [] {
      var front := samples[..|samples| - 1];
      SamplesMean(joined, uuid, index, lastSeen, front, k);
      assert forall i :: 0 <= i < |front| ==> front[i] == samples[i];
      if SampledIn(samples, k.1, lastSeen) && !SampledIn(front, k.1, lastSeen) {
        var i :| 0 <= i < |samples| && samples[i].pid == k.1 && !Skipped(samples[i], lastSeen);
        assert i < |front| ==> front[i] == samples[i];
      }
    }
  }

  /** Running processes add exactly the listed ones, raise memory to the largest amount reported,
      and touch neither utilisation nor other devices. */
  lemma {:induction false} ProcessesMean(joined: Joined, uuid: string, index: int, processes: seq<Running>,
      k: (string, nat))
    ensures var out := AddProcesses(joined, uuid, index, processes);
            && (k in out <==>
               k in joined || (k.0 == uuid && exists i :: 0 <= i < |processes| && processes[i].pid == k.1))
            && SMOf(out, k) == SMOf(joined, k)
            && MemoryOf(out, k)
               == (if k.0 == uuid then MaxUsed(processes, k.1, MemoryOf(joined, k)) else MemoryOf(joined, k))
            && (k.0 != uuid && k in joined ==> out[k] == joined[k])
  {
    if processes != [] {
      var front := processes[..|processes| - 1];
      ProcessesMean(joined, uuid, index, front, k);
      assert forall i :: 0 <= i < |front| ==> front[i] == processes[i];
    }
  }

  lemma {:induction false} MaxUsedMeans(processes: seq<Running>, pid: nat, before: nat)
    ensures var m := MaxUsed(processes, pid, before);
            && m >= before
            && (forall i :: 0 <= i < |processes| && processes[i].pid == pid && processes[i].used != NOT_AVAILABLE ==>
               processes[i].used <= m)
            && (m == before ||
                exists i :: 0 <= i < |processes| && processes[i].pid == pid && processes[i].used == m != NOT_AVAILABLE)
  {
    if processes != [] {
      var front := processes[..|processes| - 1];
      MaxUsedMeans(front, pid, before);
      assert forall i :: 0 <= i < |front| ==> front[i] == processes[i];
    }
  }

  /** A row is keyed by its own UUID and PID, carries the UUID listed for its index, and reports a
      percentage. */
  predicate Listed(k: (string, nat), m: Process, uuids: map<int, string>) {
    k == (m.gpuUUID, m.pid) && m.gpuIndex in uuids && uuids[m.gpuIndex] == m.gpuUUID && m.sm <= 100
  }

  ghost predicate AllListed(joined: Joined, uuids: map<int, string>) {
    forall k :: k in joined ==> Listed(k, joined[k], uuids)
  }

  lemma {:induction false} SamplesListed(joined: Joined, uuid: string, index: int, lastSeen: nat, samples: seq<Sample>,
      uuids: map<int, string>)
    requires AllListed(joined, uuids) && index in uuids && uuids[index] == uuid
    ensures AllListed(AddSamples(joined, uuid, index, lastSeen, samples), uuids)
  {
    if samples != [] { SamplesListed(joined, uuid, index, lastSeen, samples[..|samples| - 1], uuids); }
  }

  lemma {:induction false} ProcessesListed(joined: Joined, uuid: string, index: int, processes: seq<Running>,
      uuids: map<int, string>)
    requires AllListed(joined, uuids) && index in uuids && uuids[index] == uuid
    ensures AllListed(AddProcesses(joined, uuid, index, processes), uuids)
  {
    if processes != [] { ProcessesListed(joined, uuid, index, processes[..|processes| - 1], uuids); }
  }

  lemma DeviceListed(joined: Joined, uuid: string, index: int, lastSeen: nat, r: Reading, uuids: map<int, string>)
    requires AllListed(joined, uuids) && index in uuids && uuids[index] == uuid
    ensures AllListed(AddDevice(joined, uuid, index, lastSeen, r), uuids)
  {
    var sampled := if r.utilization.Some? then AddSamples(joined, uuid, index, lastSeen, r.utilization.value)
        else joined;
    if r.utilization.Some? { SamplesListed(joined, uuid, index, lastSeen, r.utilization.value, uuids); }
    if r.compute.Some? {
      ProcessesListed(sampled, uuid, index, r.compute.value, uuids);
      if r.graphics.Some? {
        ProcessesListed(AddProcesses(sampled, uuid, index, r.compute.value), uuid, index, r.graphics.value, uuids);
      }
    }
  }

  lemma {:induction false} TableKeys(cache: map<int, string>, readings: seq<Reading>)
    ensures forall i :: i in UUIDTable(cache, readings) <==> 0 <= i < |readings| && UUIDOf(cache, i, readings[i]).Some?
    ensures forall i :: i in UUIDTable(cache, readings) ==>
            UUIDOf(cache, i, readings[i]) == Some(UUIDTable(cache, readings)[i])
  {
    if readings != [] {
      var front := readings[..|readings| - 1];
      TableKeys(cache, front);
      assert forall i :: 0 <= i < |front| ==> front[i] == readings[i];
    }
  }

  /** Whatever the devices report, every joined row carries the UUID listed for its index. */
  lemma {:induction false} JoinedRowsAreListed(cache: map<int, string>, readings: seq<Reading>, lastSeen: nat)
    ensures AllListed(JoinAll(cache, readings, lastSeen), UUIDTable(cache, readings))
  {
    if readings != [] {
      var n := |readings| - 1;
      JoinedRowsAreListed(cache, readings[..n], lastSeen);
      TableKeys(cache, readings[..n]);
      if UUIDOf(cache, n, readings[n]).Some? {
        var uuid := UUIDOf(cache, n, readings[n]).value;
        var before, uuids := JoinAll(cache, readings[..n], lastSeen), UUIDTable(cache, readings);
        forall k | k in before
          ensures Listed(k, before[k], uuids)
        {
          assert Listed(k, before[k], UUIDTable(cache, readings[..n]));
        }
        DeviceListed(before, uuid, n, lastSeen, readings[n], uuids);
      }
    }
  }

  // ---------------------------------------------------------------- the code

  method CollectProcessUtilization(joined: Joined, uuid: string, index: int, lastSeen: nat, samples: seq<Sample>)
    returns (out: Joined)
    ensures out == AddSamples(joined, uuid, index, lastSeen, samples)
  {
    out := joined;
    for n := 0 to |samples|
      invariant out == AddSamples(joined, uuid, index, lastSeen, samples[..n])
    {
      assert samples[..n + 1][..n] == samples[..n];
      var s := samples[n];
      if Skipped(s, lastSeen) { continue; }
      var row := if (uuid, s.pid) in out then out[(uuid, s.pid)] else Process(0, "", 0, 0, 0);
      out := out[(uuid, s.pid) := row.(pid := s.pid, gpuUUID := uuid, gpuIndex := index, sm := s.sm)];
    }
    assert samples[..|samples|] == samples;
  }

  method MergeRunningProcesses(joined: Joined, uuid: string, index: int, processes: seq<Running>) returns (out: Joined)
    ensures out == AddProcesses(joined, uuid, index, processes)
  {
    out := joined;
    for n := 0 to |processes|
      invariant out == AddProcesses(joined, uuid, index, processes[..n])
    {
      assert processes[..n + 1][..n] == processes[..n];
      var p := processes[n];
      var row := if (uuid, p.pid) in out then out[(uuid, p.pid)] else Process(0, "", 0, 0, 0);
      row := row.(pid := p.pid, gpuUUID := uuid, gpuIndex := index);
      if p.used != NOT_AVAILABLE && p.used > row.memory { row := row.(memory := p.used); }
      out := out[(uuid, p.pid) := row];
    }
    assert processes[..|processes|] == processes;
  }

  method CollectDevice(joined: Joined, uuid: string, index: int, lastSeen: nat, r: Reading) returns (out: Joined)
    ensures out == AddDevice(joined, uuid, index, lastSeen, r)
  {
    out := joined;
    if r.utilization.Some? { out := CollectProcessUtilization(out, uuid, index, lastSeen, r.utilization.value); }
    if r.compute.None? { return; }
    out := MergeRunningProcesses(out, uuid, index, r.compute.value);
    if r.graphics.None? { return; }
    out := MergeRunningProcesses(out, uuid, index, r.graphics.value);
  }

  class ProcessCollector {
    /** UUIDs once read are cached per index. */
    var cache: map<int, string>
    var processes: seq<Process>
    var tables: Tables

    constructor ()
      ensures cache == map[] && processes == [] && tables == Tables(map[], map[], map[])
    {
      cache, processes, tables := map[], [], Tables(map[], map[], map[]);
    }

    /** deviceUUID: cached unless blank, else read and cached. */
    method DeviceUUID(index: int, uuid: Option<string>) returns (r: Option<string>)
      modifies this`cache
      ensures r == if index in old(cache) && old(cache)[index] != "" then Some(old(cache)[index]) else uuid
      ensures cache == if r.Some? then old(cache)[index := r.value] else old(cache)
    {
      if index in cache && cache[index] != "" { return Some(cache[index]); }
      if uuid.None? { return None; }
      cache := cache[index := uuid.value];
      r := uuid;
    }

    /** collect: a failed device count keeps the previous snapshot; a failed device is left out
        and the others are still published. */
    method Collect(countOk: bool, readings: seq<Reading>, lastSeen: nat)
      modifies this
      ensures !countOk ==> processes == old(processes) && tables == old(tables) && cache == old(cache)
      ensures countOk ==> ListsRows(processes, JoinAll(old(cache), readings, lastSeen))
      ensures countOk ==> cache == old(cache) + UUIDTable(old(cache), readings)
      ensures countOk ==>
              tables == Tables(UUIDTable(old(cache), readings), MinorTable(old(cache), readings),
                  TotalTable(old(cache), readings))
      ensures countOk ==> RowsListed(processes, tables)
    {
      if !countOk { return; }
      var joined: Joined := map[];
      var uuids: map<int, string> := map[];
      var minors: map<int, int> := map[];
      var totals: map<int, nat> := map[];
      for index := 0 to |readings|
        invariant joined == JoinAll(old(cache), readings[..index], lastSeen)
        invariant uuids == UUIDTable(old(cache), readings[..index])
        invariant minors == MinorTable(old(cache), readings[..index])
        invariant totals == TotalTable(old(cache), readings[..index])
        invariant cache == old(cache) + UUIDTable(old(cache), readings[..index])
      {
        assert readings[..index + 1][..index] == readings[..index];
        TableKeys(old(cache), readings[..index]);
        var r := readings[index];
        if !r.handle { continue; }
        var uuid := DeviceUUID(index, r.uuid);
        if uuid.None? { continue; }
        uuids := uuids[index := uuid.value];
        if r.minor.Some? { minors := minors[r.minor.value := index]; }
        if r.total.Some? { totals := totals[index := r.total.value]; }
        joined := CollectDevice(joined, uuid.value, index, lastSeen, r);
      }
      assert readings[..|readings|] == readings;
      JoinedRowsAreListed(old(cache), readings, lastSeen);
      processes := ListProcesses(joined);
      tables := Tables(uuids, minors, totals);
    }
  }

  function KeyOf(p: Process): (string, nat) { (p.gpuUUID, p.pid) }

  /** Every row of the join exactly once. */
  ghost predicate ListsRows(rows: seq<Process>, joined: Joined) {
    && (forall i :: 0 <= i < |rows| ==> KeyOf(rows[i]) in joined && joined[KeyOf(rows[i])] == rows[i])
    && (forall i, j :: 0 <= i < j < |rows| ==> KeyOf(rows[i]) != KeyOf(rows[j]))
    && (forall k :: k in joined ==> joined[k] in rows)
  }

  method ListProcesses(joined: Joined) returns (out: seq<Process>)
    requires forall k :: k in joined ==> KeyOf(joined[k]) == k
    ensures ListsRows(out, joined)
  {
    out := [];
    var pending := joined.Keys;
    while pending != {}
      invariant pending <= joined.Keys
      invariant forall i :: 0 <= i < |out| ==> KeyOf(out[i]) in joined.Keys - pending && joined[KeyOf(out[i])] == out[i]
      invariant forall i, j :: 0 <= i < j < |out| ==> KeyOf(out[i]) != KeyOf(out[j])
      invariant forall k :: k in joined && k !in pending ==> joined[k] in out
      decreases pending
    {
      var k :| k in pending;
      pending := pending - {k};
      out := out + [joined[k]];
    }
  }

  ghost predicate RowsListed(processes: seq<Process>, t: Tables) {
    forall p :: p in processes ==> p.gpuIndex in t.uuids && t.uuids[p.gpuIndex] == p.gpuUUID && p.sm <= 100
  }

  /** Once the engine has learned a collector snapshot without blank UUIDs, the process rows of
      that snapshot carry the UUIDs the engine lists, so a pod has one row per GPU index
      whenever its devices were recorded by minor number. */
  lemma CollectedSnapshotGivesOneRowPerPodAndIndex(t: Tables, seen: Tables, choice: IndexChoice,
      processes: seq<Process>, obs: seq<Observation>, pods: Mapping, a: PodGPUKey, b: PodGPUKey)
    requires RowsListed(processes, seen) && (forall i :: i in seen.uuids ==> seen.uuids[i] != "")
    requires forall o :: o in obs ==> o.process in processes
    requires WellKeyed(pods) && OwnersKnown(obs, pods) && EngineProperties.MinorSourced(pods)
    requires var t' := EngineRun.Learn(t, seen);
             a in OutKeys(ResolverOf(t', choice), obs, pods) && b in OutKeys(ResolverOf(t', choice), obs, pods)
    requires a.namespace == b.namespace && a.pod == b.pod && a.podUID == b.podUID && a.gpuIndex == b.gpuIndex
    ensures a == b
  {
    var t' := EngineRun.Learn(t, seen);
    assert EngineProperties.UUIDsListed(t', obs);
    EngineProperties.OneRowPerPodAndIndex(t', choice, obs, pods, a, b);
  }
}
