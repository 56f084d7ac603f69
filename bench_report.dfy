/** The statistics the leaderboard script draws from the recorded runs of
    the registry: per run the wall time, the time the GPU was busy and the
    largest GPU RAM; per group of runs the median GPU RAM and the rate. */
module BenchReport {
  import opened Wrappers
  import opened Statistics

  /** One sample of a run. A field of `None` is absent, and the script also
      treats a value of 0 as absent. */
  datatype BenchRecord = BenchRecord(timestamp: real, cpuUsage: Option<real>, ram: Option<int>, gpuUsage: Option<real>, gpuRam: Option<int>)

  /** `BenchStats` of the leaderboard script: `max_gpu_ram` is `None` for a
      run that never reported GPU RAM. */
  datatype BenchStats = BenchStats(totalTime: real, gpuTime: real, maxGpuRam: Option<int>)

  /** The default `gpu_usage_treshold`. */
  const GpuUsageThreshold: real := 0.1

  /** `safe_max`: `None` for no values. */
  function SafeMax(values: seq<int>): (r: Option<int>)
    ensures r.None? <==> values == []
    ensures r.Some? ==> r.value in values && forall i :: 0 <= i < |values| ==> values[i] <= r.value
  {
    if values == [] then None else Some(MaxOf(values))
  }

  /** `_.gpu_ram for _ in records if _.gpu_ram`: the GPU RAM values that are
      present and not 0, in order. */
  function TruthyGpuRams(records: seq<BenchRecord>): (r: seq<int>)
    ensures forall x :: x in r <==> x != 0 && exists i :: 0 <= i < |records| && records[i].gpuRam == Some(x)
    decreases |records|
  {
    if records == [] then []
    else
      var n := |records| - 1;
      var done := TruthyGpuRams(records[..n]);
      assert forall i :: 0 <= i < n ==> records[..n][i] == records[i];
      var g := records[n].gpuRam;
      if g.Some? && g.value != 0 then done + [g.value] else done
  }

  /** The largest GPU RAM a run reported is `None` exactly when no sample
      holds a value other than 0, and is otherwise one of those values and no
      smaller than any of them. */
  lemma MaxGpuRamMeaning(records: seq<BenchRecord>)
    ensures SafeMax(TruthyGpuRams(records)).None? <==>
      forall i :: 0 <= i < |records| ==> records[i].gpuRam.None? || records[i].gpuRam.value == 0
    ensures SafeMax(TruthyGpuRams(records)).Some? ==>
      var m := SafeMax(TruthyGpuRams(records)).value;
      m != 0 && (exists i :: 0 <= i < |records| && records[i].gpuRam == Some(m)) &&
      forall i :: 0 <= i < |records| && records[i].gpuRam.Some? && records[i].gpuRam.value != 0 ==> records[i].gpuRam.value <= m
  {
    var rams := TruthyGpuRams(records);
    if exists i :: 0 <= i < |records| && records[i].gpuRam.Some? && records[i].gpuRam.value != 0 {
      var i :| 0 <= i < |records| && records[i].gpuRam.Some? && records[i].gpuRam.value != 0;
      assert records[i].gpuRam.value in rams;
    }
    if rams != [] {
      var m := SafeMax(rams).value;
      forall i | 0 <= i < |records| && records[i].gpuRam.Some? && records[i].gpuRam.value != 0
        ensures records[i].gpuRam.value <= m
      {
        var x := records[i].gpuRam.value;
        assert x in rams;
        var k :| 0 <= k < |rams| && rams[k] == x;
      }
    }
  }

  /** `record.gpu_usage and record.gpu_usage >= gpu_usage_treshold` */
  predicate Busy(record: BenchRecord, threshold: real) {
    record.gpuUsage.Some? && record.gpuUsage.value != 0.0 && record.gpuUsage.value >= threshold
  }

  /** What sample `i` adds to the GPU time: the time since the previous
      sample when the GPU is busy and the previous timestamp is there and not
      0.0 (`previous` is falsy otherwise). */
  function Step(records: seq<BenchRecord>, i: nat, threshold: real): real
    requires i < |records|
  {
    if i > 0 && Busy(records[i], threshold) && records[i - 1].timestamp != 0.0
    then records[i].timestamp - records[i - 1].timestamp
    else 0.0
  }

  /** The GPU time of the samples, step by step. */
  function GpuTime(records: seq<BenchRecord>, threshold: real): real
    decreases |records|
  {
    if records == [] then 0.0
    else GpuTime(records[..|records| - 1], threshold) + Step(records, |records| - 1, threshold)
  }

  /** `bench_stats` of the leaderboard script: the last sample of an empty
      run raises `IndexError`; otherwise the wall time from the first to the
      last sample, the GPU time summed sample by sample, and the largest GPU
      RAM reported. */
  method BenchStatsOf(records: seq<BenchRecord>, threshold: real) returns (r: Result<BenchStats>)
    ensures records == [] ==> r == Err(IndexError)
    ensures records != [] ==> r == Ok(BenchStats(
      records[|records| - 1].timestamp - records[0].timestamp,
      GpuTime(records, threshold),
      SafeMax(TruthyGpuRams(records))))
  {
    if |records| == 0 {
      return Err(IndexError);
    }
    var totalTime := records[|records| - 1].timestamp - records[0].timestamp;
    var maxGpuRam := SafeMax(TruthyGpuRams(records));
    var previous: Option<real> := None;
    var gpuTime := 0.0;
    var i := 0;
    while i < |records|
      invariant 0 <= i <= |records|
      invariant gpuTime == GpuTime(records[..i], threshold)
      invariant previous == if i == 0 then None else Some(records[i - 1].timestamp)
    {
      var record := records[i];
      if record.gpuUsage.Some? && record.gpuUsage.value != 0.0 && record.gpuUsage.value >= threshold &&
        previous.Some? && previous.value != 0.0
      {
        gpuTime := gpuTime + (record.timestamp - previous.value);
      }
      previous := Some(record.timestamp);
      assert records[..i + 1][..i] == records[..i];
      assert Step(records[..i + 1], i, threshold) == Step(records, i, threshold);
      i := i + 1;
    }
    assert records[..i] == records;
    r := Ok(BenchStats(totalTime, gpuTime, maxGpuRam));
  }

  predicate NonDecreasing(records: seq<BenchRecord>) {
    forall i, j :: 0 <= i <= j < |records| ==> records[i].timestamp <= records[j].timestamp
  }

  /** With timestamps that never go back, the GPU time lies between zero and
      the wall time. */
  lemma {:induction false} GpuTimeBounds(records: seq<BenchRecord>, threshold: real)
    requires records != [] && NonDecreasing(records)
    ensures 0.0 <= GpuTime(records, threshold) <= records[|records| - 1].timestamp - records[0].timestamp
    decreases |records|
  {
    var n := |records| - 1;
    if n > 0 {
      var prefix := records[..n];
      assert prefix[n - 1] == records[n - 1] && prefix[0] == records[0];
      GpuTimeBounds(prefix, threshold);
      assert records[n - 1].timestamp <= records[n].timestamp;
    }
  }

  /** A run whose GPU is never busy has no GPU time. */
  lemma {:induction false} GpuTimeIdle(records: seq<BenchRecord>, threshold: real)
    requires forall i :: 0 <= i < |records| ==> !Busy(records[i], threshold)
    ensures GpuTime(records, threshold) == 0.0
    decreases |records|
  {
    if records != [] {
      var n := |records| - 1;
      assert forall i :: 0 <= i < n ==> records[..n][i] == records[i];
      GpuTimeIdle(records[..n], threshold);
    }
  }

  /** A run whose GPU is busy at every sample, with no timestamp 0.0, has
      all of its wall time as GPU time. */
  lemma {:induction false} GpuTimeBusy(records: seq<BenchRecord>, threshold: real)
    requires records != []
    requires forall i :: 0 <= i < |records| ==> Busy(records[i], threshold) && records[i].timestamp != 0.0
    ensures GpuTime(records, threshold) == records[|records| - 1].timestamp - records[0].timestamp
    decreases |records|
  {
    var n := |records| - 1;
    if n > 0 {
      var prefix := records[..n];
      assert forall i :: 0 <= i < n ==> prefix[i] == records[i];
      GpuTimeBusy(prefix, threshold);
    } else {
      assert records[..0] == [];
    }
  }

  /** `BenchGroup`: the runs of one model on one task, as lists of their
      GPU RAM, start-up time, wall time and GPU time. */
  datatype BenchGroup = BenchGroup(model: string, task: string, inputSize: int,
    gpuRams: seq<real>, initTimes: seq<real>, totalTimes: seq<real>, gpuTimes: seq<real>)

  /** `bench_group_gpu_ram`: the median GPU RAM, `None` for no runs. */
  function BenchGroupGpuRam(group: BenchGroup): (r: Option<real>)
    ensures r.None? <==> group.gpuRams == []
    ensures r.Some? ==>
      (exists i :: 0 <= i < |group.gpuRams| && group.gpuRams[i] <= r.value) &&
      exists j :: 0 <= j < |group.gpuRams| && r.value <= group.gpuRams[j]
  {
    if group.gpuRams == [] then None else Some(Median(group.gpuRams))
  }

  /** The median GPU RAM does not depend on the order of the runs. */
  lemma BenchGroupGpuRamOrder(group: BenchGroup, gpuRams: seq<real>)
    requires multiset(gpuRams) == multiset(group.gpuRams)
    ensures BenchGroupGpuRam(group.(gpuRams := gpuRams)) == BenchGroupGpuRam(group)
  {
    if group.gpuRams != [] {
      MedianPermutation(group.gpuRams, gpuRams);
    } else {
      assert |gpuRams| == |multiset(gpuRams)| == 0;
    }
  }

  /** `bench_group_rps`: `None` without start-up or wall times; otherwise the
      input size over the median processing time, a wall time less the median
      start-up time. A median processing time of 0 raises `ZeroDivisionError`. */
  function BenchGroupRps(group: BenchGroup, inputSize: real): Result<Option<real>> {
    if group.initTimes == [] || group.totalTimes == [] then Ok(None)
    else
      var initTime := Median(group.initTimes);
      var procTime := Median(Shift(group.totalTimes, initTime));
      if procTime == 0.0 then Err(ZeroDivisionError) else Ok(Some(inputSize / procTime))
  }

  /** The rate is the input size over the difference of the median wall time
      and the median start-up time; it is missing exactly when either list is
      empty and fails exactly when the two medians agree. */
  lemma BenchGroupRpsMeaning(group: BenchGroup, inputSize: real)
    ensures BenchGroupRps(group, inputSize) == Ok(None) <==> group.initTimes == [] || group.totalTimes == []
    ensures BenchGroupRps(group, inputSize).Err? <==>
      group.initTimes != [] && group.totalTimes != [] && Median(group.totalTimes) == Median(group.initTimes)
    ensures BenchGroupRps(group, inputSize).Err? ==> BenchGroupRps(group, inputSize).error == ZeroDivisionError
    ensures BenchGroupRps(group, inputSize).Ok? && BenchGroupRps(group, inputSize).value.Some? ==>
      BenchGroupRps(group, inputSize).value.value == inputSize / (Median(group.totalTimes) - Median(group.initTimes))
  {
    if group.initTimes != [] && group.totalTimes != [] {
      MedianShift(group.totalTimes, Median(group.initTimes));
    }
  }
}
