/** What one collect reports of every process, said over the readings of the devices
    (fractioning-manager/metricsd/internal/metrics/nvml_collector.go). */
module CollectorRows {
  import opened Text
  import opened Engine
  import opened Collector

  /** A sample of a process that counts: plausible percentages, and newer than the last collect. */
  predicate Counts(s: Sample, pid: nat, lastSeen: nat) {
    && s.pid == pid != 0 && s.sm <= 100 && s.mem <= 100 && s.enc <= 100 && s.dec <= 100
    && s.timestamp > lastSeen
  }

  predicate LastCounting(samples: seq<Sample>, pid: nat, lastSeen: nat, i: int) {
    && 0 <= i < |samples| && Counts(samples[i], pid, lastSeen)
    && forall j :: i < j < |samples| ==> !Counts(samples[j], pid, lastSeen)
  }

  ghost predicate HasSample(r: Reading, pid: nat, lastSeen: nat) {
    r.utilization.Some? && exists i :: LastCounting(r.utilization.value, pid, lastSeen, i)
  }

  /** The running processes a device reports: none once the compute list fails, and the graphics ones
      only if that list does not fail. */
  function ReportedRunning(r: Reading): seq<Running> {
    if r.compute.None? then [] else r.compute.value + if r.graphics.Some? then r.graphics.value else []
  }

  predicate IsRunning(r: Reading, pid: nat) { exists p | p in ReportedRunning(r) :: p.pid == pid }

  /** An amount reported for a process. */
  predicate Reported(r: Reading, pid: nat, used: nat) {
    used != 0xffff_ffff_ffff_ffff && Running(pid, used) in ReportedRunning(r)
  }

  /** The row of a process on a device: the utilisation of its last sample that counts, and the
      largest amount of memory reported for it. */
  ghost predicate IsRowOf(r: Reading, lastSeen: nat, pid: nat, row: Process) {
    && (if HasSample(r, pid, lastSeen)
        then exists i :: LastCounting(r.utilization.value, pid, lastSeen, i) && row.sm == r.utilization.value[i].sm
        else row.sm == 0)
    && (forall used: nat :: Reported(r, pid, used) ==> used <= row.memory)
    && (row.memory == 0 || Reported(r, pid, row.memory))
  }

  /** The device of an index could be opened and has this UUID: the one cached unless blank, and else
      the one read. */
  predicate HasUUID(cache: map<int, string>, index: int, r: Reading, uuid: string) {
    r.handle && if index in cache && cache[index] != "" then uuid == cache[index] else r.uuid == Some(uuid)
  }

  ghost predicate DistinctUUIDs(cache: map<int, string>, readings: seq<Reading>) {
    forall i, j, u :: 0 <= i < j < |readings| ==>
      !(HasUUID(cache, i, readings[i], u) && HasUUID(cache, j, readings[j], u))
  }

  /** A device that reports a process. */
  ghost predicate Reports(cache: map<int, string>, readings: seq<Reading>, lastSeen: nat, k: (string, nat), i: int) {
    && 0 <= i < |readings| && HasUUID(cache, i, readings[i], k.0)
    && (HasSample(readings[i], k.1, lastSeen) || IsRunning(readings[i], k.1))
  }

  // ---------------------------------------------------------------- main results

  /** When no two devices share a UUID, a collect has one row for every process that some device
      reports, no other, and the row is the one that device's reading gives. */
  lemma CollectMeans(cache: map<int, string>, readings: seq<Reading>, lastSeen: nat, k: (string, nat))
    requires DistinctUUIDs(cache, readings)
    ensures k in JoinAll(cache, readings, lastSeen) <==> exists i :: Reports(cache, readings, lastSeen, k, i)
    ensures forall i :: Reports(cache, readings, lastSeen, k, i) ==>
              var row := JoinAll(cache, readings, lastSeen)[k];
              row.pid == k.1 && row.gpuUUID == k.0 && row.gpuIndex == i && IsRowOf(readings[i], lastSeen, k.1, row)
  {
    RowsAreReported(cache, readings, lastSeen, k);
    JoinedRowsAreListed(cache, readings, lastSeen);
    TableKeys(cache, readings);
    forall i | Reports(cache, readings, lastSeen, k, i) ensures JoinAll(cache, readings, lastSeen)[k].gpuIndex == i {
      var row := JoinAll(cache, readings, lastSeen)[k];
      assert Listed(k, row, UUIDTable(cache, readings));
      UUIDOfMeans(cache, row.gpuIndex, readings[row.gpuIndex], k.0);
      assert HasUUID(cache, row.gpuIndex, readings[row.gpuIndex], k.0) && HasUUID(cache, i, readings[i], k.0);
    }
  }

  /** What a collect tells the engine: the UUID and the total of every device that has them, and for
      every minor read the last such device with it. */
  lemma TablesMean(cache: map<int, string>, readings: seq<Reading>, i: int, minor: int)
    ensures forall u :: (i in UUIDTable(cache, readings) && UUIDTable(cache, readings)[i] == u <==>
              0 <= i < |readings| && HasUUID(cache, i, readings[i], u))
    ensures i in TotalTable(cache, readings) <==> Opened(cache, readings, i) && readings[i].total.Some?
    ensures i in TotalTable(cache, readings) ==> readings[i].total == Some(TotalTable(cache, readings)[i])
    ensures minor in MinorTable(cache, readings) && MinorTable(cache, readings)[minor] == i <==>
              LastWithMinor(cache, readings, minor, i)
  {
    TableKeys(cache, readings);
    if 0 <= i < |readings| {
      forall u ensures HasUUID(cache, i, readings[i], u) <==> UUIDOf(cache, i, readings[i]) == Some(u) {
        UUIDOfMeans(cache, i, readings[i], u);
      }
    }
    TotalsMean(cache, readings, i);
    MinorsMean(cache, readings, minor, i);
  }

  ghost predicate Opened(cache: map<int, string>, readings: seq<Reading>, i: int) {
    0 <= i < |readings| && exists u :: HasUUID(cache, i, readings[i], u)
  }

  ghost predicate WithMinor(cache: map<int, string>, readings: seq<Reading>, minor: int, i: int) {
    Opened(cache, readings, i) && readings[i].minor == Some(minor)
  }

  ghost predicate LastWithMinor(cache: map<int, string>, readings: seq<Reading>, minor: int, i: int) {
    WithMinor(cache, readings, minor, i) && forall j :: i < j ==> !WithMinor(cache, readings, minor, j)
  }

  // ---------------------------------------------------------------- one device

  lemma CountsMeans(s: Sample, pid: nat, lastSeen: nat)
    ensures Counts(s, pid, lastSeen) <==> s.pid == pid && !Skipped(s, lastSeen)
  {
  }

  lemma LastCountingStep(samples: seq<Sample>, pid: nat, lastSeen: nat)
    requires samples != []
    ensures var n := |samples| - 1;
            forall i :: LastCounting(samples, pid, lastSeen, i) <==>
              if Counts(samples[n], pid, lastSeen) then i == n else LastCounting(samples[..n], pid, lastSeen, i)
  {
    var n := |samples| - 1;
    assert forall i :: 0 <= i < n ==> samples[..n][i] == samples[i];
    forall i
      ensures LastCounting(samples, pid, lastSeen, i) <==>
              if Counts(samples[n], pid, lastSeen) then i == n else LastCounting(samples[..n], pid, lastSeen, i)
    {
      if 0 <= i < n && LastCounting(samples[..n], pid, lastSeen, i) && !Counts(samples[n], pid, lastSeen) {
        forall j | i < j < |samples| ensures !Counts(samples[j], pid, lastSeen) {
          if j < n { assert !Counts(samples[..n][j], pid, lastSeen); }
        }
      }
    }
  }

  lemma SampledStep(samples: seq<Sample>, pid: nat, lastSeen: nat)
    requires samples != []
    ensures var n := |samples| - 1;
            SampledIn(samples, pid, lastSeen) <==>
              Counts(samples[n], pid, lastSeen) || SampledIn(samples[..n], pid, lastSeen)
  {
    var n := |samples| - 1;
    CountsMeans(samples[n], pid, lastSeen);
    assert forall i :: 0 <= i < n ==> samples[..n][i] == samples[i];
    if i :| 0 <= i < |samples| && samples[i].pid == pid && !Skipped(samples[i], lastSeen) {
      assert i == n || samples[..n][i] == samples[i];
    }
  }

  /** The value kept is that of the last sample that counts. */
  lemma {:induction false} LastSMMeans(samples: seq<Sample>, pid: nat, lastSeen: nat, before: nat)
    ensures SampledIn(samples, pid, lastSeen) <==> exists i :: LastCounting(samples, pid, lastSeen, i)
    ensures forall i :: LastCounting(samples, pid, lastSeen, i) ==>
              LastSM(samples, pid, lastSeen, before) == samples[i].sm
    ensures !SampledIn(samples, pid, lastSeen) ==> LastSM(samples, pid, lastSeen, before) == before
  {
    if samples != [] {
      var n := |samples| - 1;
      CountsMeans(samples[n], pid, lastSeen);
      LastSMMeans(samples[..n], pid, lastSeen, before);
      LastCountingStep(samples, pid, lastSeen);
      SampledStep(samples, pid, lastSeen);
      if Counts(samples[n], pid, lastSeen) { assert LastCounting(samples, pid, lastSeen, n); }
    }
  }

  /** A device adds exactly the rows of the processes it reports. */
  lemma DeviceMeans(joined: Joined, uuid: string, index: int, lastSeen: nat, r: Reading, pid: nat)
    requires (uuid, pid) !in joined
    ensures var k, out := (uuid, pid), AddDevice(joined, uuid, index, lastSeen, r);
            && (k in out <==> HasSample(r, pid, lastSeen) || IsRunning(r, pid))
            && (k in out ==> IsRowOf(r, lastSeen, pid, out[k]))
  {
    var k := (uuid, pid);
    var sampled := if r.utilization.Some? then AddSamples(joined, uuid, index, lastSeen, r.utilization.value)
        else joined;
    SampledMeans(joined, uuid, index, lastSeen, r, pid);
    if r.compute.Some? {
      var running := if r.graphics.Some? then r.graphics.value else [];
      var computing := AddProcesses(sampled, uuid, index, r.compute.value);
      ProcessesMean(sampled, uuid, index, r.compute.value, k);
      ProcessesMean(computing, uuid, index, running, k);
      RunningMeans(r, pid, running);
    }
  }

  lemma SampledMeans(joined: Joined, uuid: string, index: int, lastSeen: nat, r: Reading, pid: nat)
    requires (uuid, pid) !in joined
    ensures var k := (uuid, pid);
            var out := if r.utilization.Some? then AddSamples(joined, uuid, index, lastSeen, r.utilization.value)
                else joined;
            && (k in out <==> HasSample(r, pid, lastSeen))
            && MemoryOf(out, k) == 0
            && (if HasSample(r, pid, lastSeen)
                then exists i :: LastCounting(r.utilization.value, pid, lastSeen, i)
                                 && SMOf(out, k) == r.utilization.value[i].sm
                else SMOf(out, k) == 0)
  {
    if r.utilization.Some? {
      SamplesMean(joined, uuid, index, lastSeen, r.utilization.value, (uuid, pid));
      LastSMMeans(r.utilization.value, pid, lastSeen, 0);
    }
  }

  /** Compute and graphics processes together. */
  lemma RunningMeans(r: Reading, pid: nat, graphics: seq<Running>)
    requires r.compute.Some? && graphics == (if r.graphics.Some? then r.graphics.value else [])
    ensures var m := MaxUsed(graphics, pid, MaxUsed(r.compute.value, pid, 0));
            && (forall used: nat :: Reported(r, pid, used) ==> used <= m)
            && (m == 0 || Reported(r, pid, m))
    ensures IsRunning(r, pid) <==>
            || (exists i :: 0 <= i < |r.compute.value| && r.compute.value[i].pid == pid)
            || (exists i :: 0 <= i < |graphics| && graphics[i].pid == pid)
  {
    var compute := r.compute.value;
    MaxUsedMeans(compute, pid, 0);
    MaxUsedMeans(graphics, pid, MaxUsed(compute, pid, 0));
    assert forall p :: p in ReportedRunning(r) <==> p in compute || p in graphics;
    var m := MaxUsed(graphics, pid, MaxUsed(compute, pid, 0));
    forall used: nat | Reported(r, pid, used) ensures used <= m { BoundedBy(compute, graphics, pid, used, m); }
    if m != 0 { FoundAmong(compute, graphics, pid, m); }
  }

  lemma BoundedBy(compute: seq<Running>, graphics: seq<Running>, pid: nat, used: nat, m: nat)
    requires Running(pid, used) in compute || Running(pid, used) in graphics
    requires used != NOT_AVAILABLE && m == MaxUsed(graphics, pid, MaxUsed(compute, pid, 0))
    ensures used <= m
  {
    MaxUsedMeans(compute, pid, 0);
    MaxUsedMeans(graphics, pid, MaxUsed(compute, pid, 0));
    if Running(pid, used) in compute {
      var i :| 0 <= i < |compute| && compute[i] == Running(pid, used);
    } else {
      var i :| 0 <= i < |graphics| && graphics[i] == Running(pid, used);
    }
  }

  lemma FoundAmong(compute: seq<Running>, graphics: seq<Running>, pid: nat, m: nat)
    requires m != 0 && m == MaxUsed(graphics, pid, MaxUsed(compute, pid, 0))
    ensures m != NOT_AVAILABLE && (Running(pid, m) in compute || Running(pid, m) in graphics)
  {
    var c := MaxUsed(compute, pid, 0);
    MaxUsedMeans(compute, pid, 0);
    MaxUsedMeans(graphics, pid, c);
    if m == c {
      var i :| 0 <= i < |compute| && compute[i].pid == pid && compute[i].used == m != NOT_AVAILABLE;
      assert compute[i] == Running(pid, m);
    } else {
      var i :| 0 <= i < |graphics| && graphics[i].pid == pid && graphics[i].used == m != NOT_AVAILABLE;
      assert graphics[i] == Running(pid, m);
    }
  }

  lemma OtherDevices(joined: Joined, uuid: string, index: int, lastSeen: nat, r: Reading, k: (string, nat))
    requires k.0 != uuid
    ensures var out := AddDevice(joined, uuid, index, lastSeen, r);
            (k in out <==> k in joined) && (k in joined ==> out[k] == joined[k])
  {
    var sampled := if r.utilization.Some? then AddSamples(joined, uuid, index, lastSeen, r.utilization.value)
        else joined;
    if r.utilization.Some? { SamplesMean(joined, uuid, index, lastSeen, r.utilization.value, k); }
    if r.compute.Some? {
      ProcessesMean(sampled, uuid, index, r.compute.value, k);
      var computing := AddProcesses(sampled, uuid, index, r.compute.value);
      if r.graphics.Some? { ProcessesMean(computing, uuid, index, r.graphics.value, k); }
    }
  }

  // ---------------------------------------------------------------- all devices

  lemma UUIDOfMeans(cache: map<int, string>, index: int, r: Reading, uuid: string)
    ensures UUIDOf(cache, index, r) == Some(uuid) <==> HasUUID(cache, index, r, uuid)
  {
  }

  lemma {:induction false} RowsAreReported(cache: map<int, string>, readings: seq<Reading>, lastSeen: nat,
      k: (string, nat))
    requires DistinctUUIDs(cache, readings)
    ensures k in JoinAll(cache, readings, lastSeen) <==> exists i :: Reports(cache, readings, lastSeen, k, i)
    ensures forall i :: Reports(cache, readings, lastSeen, k, i) ==>
              IsRowOf(readings[i], lastSeen, k.1, JoinAll(cache, readings, lastSeen)[k])
  {
    if readings != [] {
      var n := |readings| - 1;
      var front, r := readings[..n], readings[n];
      assert forall i :: 0 <= i < n ==> front[i] == readings[i];
      RowsAreReported(cache, front, lastSeen, k);
      var before, uuid := JoinAll(cache, front, lastSeen), UUIDOf(cache, n, r);
      UUIDOfMeans(cache, n, r, k.0);
      if uuid.Some? && uuid.value == k.0 {
        assert HasUUID(cache, n, r, k.0);
        forall i | 0 <= i < n ensures !HasUUID(cache, i, readings[i], k.0) {}
        DeviceMeans(before, k.0, n, lastSeen, r, k.1);
        assert Reports(cache, readings, lastSeen, k, n) <==> HasSample(r, k.1, lastSeen) || IsRunning(r, k.1);
        assert forall i :: Reports(cache, readings, lastSeen, k, i) ==> i == n;
      } else {
        if uuid.Some? { OtherDevices(before, uuid.value, n, lastSeen, r, k); }
        assert forall i :: Reports(cache, readings, lastSeen, k, i) <==> Reports(cache, front, lastSeen, k, i);
      }
    }
  }

  lemma OpenedMeans(cache: map<int, string>, readings: seq<Reading>, i: int)
    requires 0 <= i < |readings|
    ensures Opened(cache, readings, i) <==> UUIDOf(cache, i, readings[i]).Some?
  {
    if UUIDOf(cache, i, readings[i]).Some? {
      assert HasUUID(cache, i, readings[i], UUIDOf(cache, i, readings[i]).value);
    }
  }

  lemma {:induction false} TotalsMean(cache: map<int, string>, readings: seq<Reading>, i: int)
    ensures i in TotalTable(cache, readings) <==> Opened(cache, readings, i) && readings[i].total.Some?
    ensures i in TotalTable(cache, readings) ==> readings[i].total == Some(TotalTable(cache, readings)[i])
  {
    if readings != [] {
      var n := |readings| - 1;
      var front := readings[..n];
      TotalsMean(cache, front, i);
      OpenedMeans(cache, readings, n);
      assert i != n ==> (Opened(cache, front, i) <==> Opened(cache, readings, i));
    }
  }

  lemma {:induction false} MinorsMean(cache: map<int, string>, readings: seq<Reading>, minor: int, i: int)
    ensures minor in MinorTable(cache, readings) && MinorTable(cache, readings)[minor] == i <==>
              LastWithMinor(cache, readings, minor, i)
  {
    if readings != [] {
      var n := |readings| - 1;
      MinorsMean(cache, readings[..n], minor, i);
      OpenedMeans(cache, readings, n);
      LastWithMinorStep(cache, readings, minor, i);
    }
  }

  lemma LastWithMinorStep(cache: map<int, string>, readings: seq<Reading>, minor: int, i: int)
    requires readings != []
    ensures var n := |readings| - 1;
            LastWithMinor(cache, readings, minor, i) <==>
              if WithMinor(cache, readings, minor, n) then i == n else LastWithMinor(cache, readings[..n], minor, i)
  {
    var n := |readings| - 1;
    forall j | j != n ensures WithMinor(cache, readings[..n], minor, j) <==> WithMinor(cache, readings, minor, j) {
      assert 0 <= j < n ==> readings[..n][j] == readings[j];
    }
    assert !WithMinor(cache, readings[..n], minor, n);
    assert forall j :: j > n ==> !WithMinor(cache, readings, minor, j);
  }
}
