/** The bench runs of the bench tool: container names, task paths and the
    cycled input, the bench file names, and the statistics of one run
    (`bench_stats`) and of one task (`task_stats`). */
module BenchRuns {
  import opened Wrappers
  import opened Text
  import opened Numbers
  import opened Statistics
  import opened Tasks
  import BenchProbe

  /** `gen_name`: the image name with every `/` made `_`, then `_` and the
      first five characters of a fresh uid (the uid is a parameter). */
  function GenName(image: string, uid: string): string {
    Replace(image, "/", "_") + "_" + PySlice(uid, 0, 5)
  }

  /** The name keeps the image position by position with `/` made `_`, so it has
      no `/` of the image; then comes `_` and at most five characters of the uid. */
  lemma GenNameMeaning(image: string, uid: string)
    ensures var r := GenName(image, uid); var n := |image|;
      |r| == n + 1 + |PySlice(uid, 0, 5)| && |PySlice(uid, 0, 5)| <= 5 &&
      (forall i :: 0 <= i < n ==> r[i] == if image[i] == '/' then '_' else image[i]) &&
      '/' !in r[..n] && r[n] == '_' && r[n + 1..] == PySlice(uid, 0, 5)
  {
    var r := GenName(image, uid);
    var n := |image|;
    ReplaceChar(image, '/', '_');
    var head := Replace(image, "/", "_");
    assert r == head + "_" + PySlice(uid, 0, 5);
    assert r[..n] == head;
    assert r[n + 1..] == PySlice(uid, 0, 5);
    forall i | 0 <= i < n ensures r[i] == if image[i] == '/' then '_' else image[i] {
      assert r[i] == head[i];
    }
  }

  /** `task_path`: `dir/<title>/<split>.jsonl`, where lidirus, which has a single
      split, uses its title as the file name; an unknown task raises `KeyError`. */
  function TaskPath(dir: string, task: string, split: string): (r: Result<string>)
    ensures r.Ok? <==> task in TaskNames
    ensures r.Err? ==> r.error == KeyError
  {
    match TaskTitle(task)
    case Err(e) => Err(e)
    case Ok(title) =>
      var name := if task == "lidirus" then title else split;
      Ok(PathJoin(PathJoin(dir, title), name + ".jsonl"))
  }

  /** `join(dir, title, f'{name}.jsonl')` under a directory without a trailing `/`. */
  lemma FileOfTitle(dir: string, title: string, name: string)
    requires dir != [] && dir[|dir| - 1] != '/' && title != [] && '/' !in title && (name == [] || name[0] != '/')
    ensures PathJoin(PathJoin(dir, title), name + ".jsonl") == dir + "/" + title + "/" + name + ".jsonl"
  {
    if name == [] {
      assert (name + ".jsonl")[0] == '.';
    } else {
      assert (name + ".jsonl")[0] == name[0];
    }
    PathJoinTwice(dir, title, name + ".jsonl");
  }

  /** Under a directory that does not end in `/`, with a relative split name,
      the path of a known task other than lidirus is `dir/<title>/<split>.jsonl`. */
  lemma TaskPathOf(dir: string, task: string, split: string, title: string)
    requires dir != [] && dir[|dir| - 1] != '/' && (split == [] || split[0] != '/')
    requires TaskTitle(task) == Ok(title) && task != "lidirus"
    ensures TaskPath(dir, task, split) == Ok(dir + "/" + title + "/" + split + ".jsonl")
  {
    FileOfTitle(dir, title, split);
  }

  /** lidirus has a single file, named after its title, whatever the split. */
  lemma LidirusPath(dir: string, split: string)
    requires dir != [] && dir[|dir| - 1] != '/'
    ensures TaskPath(dir, "lidirus", split) == Ok(dir + "/LiDiRus/LiDiRus.jsonl")
  {
    assert TaskTitle("lidirus") == Ok("LiDiRus");
    FileOfTitle(dir, "LiDiRus", "LiDiRus");
    LidirusFile(dir);
  }

  /** The lidirus file path spelled out. */
  lemma LidirusFile(dir: string)
    ensures dir + "/" + "LiDiRus" + "/" + "LiDiRus" + ".jsonl" == dir + "/LiDiRus/LiDiRus.jsonl"
  {
    var title := "LiDiRus";
    var file := title + ".jsonl";
    assert file == "LiDiRus.jsonl";
    assert "/" + title + "/" + file == "/LiDiRus/LiDiRus.jsonl";
    assert dir + "/" + title + "/" + file == dir + ("/" + title + "/" + file);
  }

  /** `islice(cycle(lines), size)`: the lines over and over, cut at `size`;
      nothing at all when there are no lines. */
  function Cycle(lines: seq<string>, size: nat): seq<string>
    decreases size
  {
    if lines == [] || size == 0 then []
    else if size <= |lines| then lines[..size]
    else lines + Cycle(lines, size - |lines|)
  }

  /** The cycled input has exactly `size` lines, line `i` being line `i mod n` of the file. */
  lemma {:induction false} CycleMeaning(lines: seq<string>, size: nat)
    ensures lines == [] ==> Cycle(lines, size) == []
    ensures lines != [] ==> (|Cycle(lines, size)| == size &&
      forall i :: 0 <= i < size ==> Cycle(lines, size)[i] == lines[i % |lines|])
    decreases size
  {
    if lines != [] && size > 0 {
      var n := |lines|;
      var r := Cycle(lines, size);
      if size <= n {
        assert r == lines[..size];
        forall i | 0 <= i < size ensures r[i] == lines[i % n] {
          ModUnique(i, n, 0, i);
        }
      } else {
        var rest := Cycle(lines, size - n);
        CycleMeaning(lines, size - n);
        assert r == lines + rest;
        forall i | 0 <= i < size ensures r[i] == lines[i % n] {
          if i >= n {
            assert r[i] == rest[i - n];
            ModStep(i, n);
          } else {
            ModUnique(i, n, 0, i);
          }
        }
      }
    }
  }

  lemma {:induction false} MulAtLeast(n: int, a: int)
    requires n > 0 && a >= 1
    ensures a * n >= n
    decreases a
  {
    if a > 1 {
      MulAtLeast(n, a - 1);
      assert a * n == (a - 1) * n + n;
    }
  }

  /** Euclidean remainders are unique. */
  lemma ModUnique(x: int, n: int, q: int, r: int)
    requires n > 0 && 0 <= r < n && x == q * n + r
    ensures x % n == r
  {
    var q2, r2 := x / n, x % n;
    assert x == q2 * n + r2;
    if q2 > q {
      assert (q2 - q) * n == q2 * n - q * n;
      MulAtLeast(n, q2 - q);
    } else if q2 < q {
      assert (q - q2) * n == q * n - q2 * n;
      MulAtLeast(n, q - q2);
    }
  }

  lemma ModStep(i: int, n: int)
    requires 0 < n <= i
    ensures (i - n) % n == i % n
  {
    var q, r := i / n, i % n;
    assert i == q * n + r;
    assert i - n == (q - 1) * n + r;
    ModUnique(i - n, n, q - 1, r);
  }

  /** `bench_input`: the validation split of the task, cycled to `size` lines
      (the lines of that file are a parameter). */
  function BenchInput(fileLines: seq<string>, size: nat): seq<string> {
    Cycle(fileLines, size)
  }

  /** The validation split of a task, whose lines `bench_input` cycles. */
  function BenchInputPath(dir: string, task: string): Result<string> {
    TaskPath(dir, task, "val")
  }

  const BadPath := ValueError("bad path")

  /** `\d+` of the bench file name pattern, on ASCII digits. */
  predicate Number(s: string) {
    s != [] && AllDigits(s)
  }

  /** `(\d+)_(\d+)_\d+\.jsonl` as a whole file name. */
  predicate BenchFileName(name: string) {
    EndsWith(name, ".jsonl") &&
    var parts := Split(name[..|name| - 6], "_");
    |parts| == 3 && Number(parts[0]) && Number(parts[1]) && Number(parts[2])
  }

  /** `parse_bench_path`: `re.search(r'([^/]+)/(\d+)_(\d+)_\d+\.jsonl$', path)`.
      A match ends the path, so its `/` is the last one and the file name after
      it is the whole of `\d+_\d+_\d+.jsonl`; the leftmost start makes the task
      group the whole directory name before it, which must not be empty.
      Anything else raises `ValueError`. */
  function ParseBenchPath(path: string): (r: Result<(string, nat, nat)>)
    ensures r.Err? ==> r.error == BadPath
    ensures r.Ok? ==> r.value.0 != [] && '/' !in r.value.0 && EndsWith(path, ".jsonl")
  {
    match SplitLast(path, '/')
    case None => Err(BadPath)
    case Some((head, name)) =>
      var dir := match SplitLast(head, '/') case None => head case Some((_, d)) => d;
      if dir == [] || !BenchFileName(name) then Err(BadPath)
      else
        var parts := Split(name[..|name| - 6], "_");
        assert path[|path| - 6..] == name[|name| - 6..];
        Ok((dir, DigitsValue(parts[0]), DigitsValue(parts[1])))
  }

  lemma DigitsFree(s: string, c: char)
    requires AllDigits(s) && !IsDigit(c)
    ensures c !in s
  {
  }

  /** Three numbers joined by `_` split back into those numbers. */
  lemma SplitNumbers(a: string, b: string, c: string)
    requires Number(a) && Number(b) && Number(c)
    ensures Split(a + "_" + b + "_" + c, "_") == [a, b, c]
  {
    var parts := [a, b, c];
    DigitsFree(a, '_');
    DigitsFree(b, '_');
    DigitsFree(c, '_');
    assert forall k :: 0 <= k < |parts| ==> '_' !in parts[k];
    assert parts[1..][1..] == [c];
    assert Join(parts[1..], "_") == b + "_" + c;
    assert Join(parts, "_") == a + "_" + b + "_" + c;
    SplitJoin(parts, '_');
  }

  /** The file name of a run, in the form the bench files are saved under. */
  function BenchFile(inputSize: nat, batchSize: nat, index: nat): string {
    NatToString(inputSize) + "_" + NatToString(batchSize) + "_" + NatToString(index) + ".jsonl"
  }

  lemma BenchFileShape(inputSize: nat, batchSize: nat, index: nat)
    ensures BenchFileName(BenchFile(inputSize, batchSize, index))
    ensures '/' !in BenchFile(inputSize, batchSize, index)
  {
    var a, b, c := NatToString(inputSize), NatToString(batchSize), NatToString(index);
    var stem := a + "_" + b + "_" + c;
    var name := BenchFile(inputSize, batchSize, index);
    assert name == stem + ".jsonl";
    assert name[..|name| - 6] == stem;
    assert name[|name| - 6..] == ".jsonl";
    SplitNumbers(a, b, c);
    DigitsFree(a, '/');
    DigitsFree(b, '/');
    DigitsFree(c, '/');
  }

  /** Round trip: a task directory name without `/`, under any root ending in
      `/` or under none, with the file name of a run, parses back to the task,
      the input size and the batch size. */
  lemma ParseBenchPathOf(root: string, task: string, inputSize: nat, batchSize: nat, index: nat)
    requires task != [] && '/' !in task
    requires root == [] || root[|root| - 1] == '/'
    ensures ParseBenchPath(root + task + "/" + BenchFile(inputSize, batchSize, index)) == Ok((task, inputSize, batchSize))
  {
    var name := BenchFile(inputSize, batchSize, index);
    BenchFileShape(inputSize, batchSize, index);
    var head := root + task;
    SplitLastOf(head, '/', name);
    assert root + task + "/" + name == head + ['/'] + name;
    if root == [] {
      assert head == task;
    } else {
      var up := root[..|root| - 1];
      assert head == up + ['/'] + task;
      SplitLastOf(up, '/', task);
    }
    var a, b, c := NatToString(inputSize), NatToString(batchSize), NatToString(index);
    assert name[..|name| - 6] == a + "_" + b + "_" + c;
    SplitNumbers(a, b, c);
  }

  /** `BenchRecord` of the bench tool; a probe that found nothing leaves `None`. */
  datatype BenchRecord = BenchRecord(timestamp: real, cpuUsage: Option<real>, ram: Option<int>, gpuUsage: Option<real>, gpuRam: Option<int>)

  datatype Bench = Bench(path: string, task: string, inputSize: int, batchSize: int, records: seq<BenchRecord>)

  datatype BenchStats = BenchStats(inputSize: int, totalTime: real, maxGpuRam: int)

  datatype TaskStats = TaskStats(task: string, gpuRam: real, rps: real)

  /** `_.gpu_ram or 0` */
  function GpuRamOrZero(r: BenchRecord): int {
    if r.gpuRam.Some? then r.gpuRam.value else 0
  }

  /** `bench_stats`: an empty run raises `ValueError`; otherwise the time from
      the first to the last record and the largest GPU RAM, a missing value
      counting as 0. */
  function RunStats(bench: Bench): (r: Result<BenchStats>)
    ensures r.Ok? <==> bench.records != []
    ensures r.Err? ==> r.error.ValueError?
    ensures r.Ok? ==> (r.value.inputSize == bench.inputSize &&
      r.value.totalTime == bench.records[|bench.records| - 1].timestamp - bench.records[0].timestamp)
    ensures r.Ok? ==>
      (forall i :: 0 <= i < |bench.records| ==> GpuRamOrZero(bench.records[i]) <= r.value.maxGpuRam) &&
      exists i :: 0 <= i < |bench.records| && GpuRamOrZero(bench.records[i]) == r.value.maxGpuRam
  {
    var rs := bench.records;
    if rs == [] then Err(ValueError("no bench records " + bench.path))
    else
      var rams := seq(|rs|, i requires 0 <= i < |rs| => GpuRamOrZero(rs[i]));
      var m := MaxOf(rams);
      assert forall i :: 0 <= i < |rs| ==> rams[i] == GpuRamOrZero(rs[i]);
      Ok(BenchStats(bench.inputSize, rs[|rs| - 1].timestamp - rs[0].timestamp, m))
  }

  /** The list comprehension `[bench_stats(_) for _ in benches]`: the first
      failure is raised. */
  function AllStats(benches: seq<Bench>): (r: Result<seq<BenchStats>>)
    ensures r.Ok? ==> |r.value| == |benches|
    decreases |benches|
  {
    if benches == [] then Ok([])
    else
      var n := |benches| - 1;
      match AllStats(benches[..n])
      case Err(e) => Err(e)
      case Ok(done) =>
        match RunStats(benches[n])
        case Err(e) => Err(e)
        case Ok(s) => Ok(done + [s])
  }

  /** The statistics succeed exactly when every run has records, and then entry
      `i` is the statistics of run `i`. */
  lemma {:induction false} AllStatsMeaning(benches: seq<Bench>)
    ensures AllStats(benches).Ok? <==> forall i :: 0 <= i < |benches| ==> benches[i].records != []
    ensures AllStats(benches).Ok? ==> forall i :: 0 <= i < |benches| ==> RunStats(benches[i]) == Ok(AllStats(benches).value[i])
    decreases |benches|
  {
    if benches != [] {
      var n := |benches| - 1;
      var pre := benches[..n];
      AllStatsMeaning(pre);
      if AllStats(benches).Ok? {
        var r := AllStats(benches).value;
        assert r == AllStats(pre).value + [RunStats(benches[n]).value];
        forall i | 0 <= i < |benches|
          ensures benches[i].records != [] && RunStats(benches[i]) == Ok(r[i])
        {
          if i < n { assert pre[i] == benches[i]; }
        }
      } else if AllStats(pre).Err? {
        var i :| 0 <= i < n && pre[i].records == [];
        assert pre[i] == benches[i];
      }
    }
  }

  /** The runs with the given input size class, in order. */
  function Runs(benches: seq<Bench>, calibration: bool): (r: seq<Bench>)
    ensures forall b :: b in r <==> b in benches && if calibration then b.inputSize == 1 else b.inputSize > 1
    decreases |benches|
  {
    if benches == [] then []
    else
      var b := benches[0];
      var keep := if calibration then b.inputSize == 1 else b.inputSize > 1;
      (if keep then [b] else []) + Runs(benches[1..], calibration)
  }

  /** The message is not an f-string, so the braces are kept as written. */
  const MultipleTasksMessage := "multiple tasks {sorted(tasks)}"

  /** `len({_.task for _ in benches}) > 1` */
  predicate MultipleTasks(benches: seq<Bench>) {
    exists i, j :: 0 <= i < |benches| && 0 <= j < |benches| && benches[i].task != benches[j].task
  }

  /** The total times of the runs. */
  function TotalTimes(stats: seq<BenchStats>): (r: seq<real>)
    ensures |r| == |stats|
  {
    seq(|stats|, i requires 0 <= i < |stats| => stats[i].totalTime)
  }

  function MaxGpuRams(stats: seq<BenchStats>): (r: seq<real>)
    ensures |r| == |stats|
  {
    seq(|stats|, i requires 0 <= i < |stats| => stats[i].maxGpuRam as real)
  }

  /** Records per second of a workload run once the start-up time is taken off. */
  function Speed(s: BenchStats, initTime: real): real
    requires s.totalTime != initTime
  {
    s.inputSize as real / (s.totalTime - initTime)
  }

  /** The speeds of the workload runs. */
  function Rates(stats: seq<BenchStats>, initTime: real): (r: seq<real>)
    requires forall i :: 0 <= i < |stats| ==> stats[i].totalTime != initTime
    ensures |r| == |stats|
  {
    seq(|stats|, i requires 0 <= i < |stats| => Speed(stats[i], initTime))
  }

  /** Entry `i` of the runs of a class is among them. */
  lemma RunsHas(benches: seq<Bench>, i: int, calibration: bool)
    requires 0 <= i < |benches| && if calibration then benches[i].inputSize == 1 else benches[i].inputSize > 1
    ensures benches[i] in Runs(benches, calibration)
  {
  }

  /** The median length of the calibration runs. */
  function InitTime(cs: seq<BenchStats>): real
    requires cs != []
  {
    Median(TotalTimes(cs))
  }

  /** The figures of a task from the statistics of its calibration runs and of
      its workload runs. */
  function Summary(task: string, cs: seq<BenchStats>, ws: seq<BenchStats>): Result<TaskStats>
    requires cs != [] && ws != []
  {
    var gpuRam := Median(MaxGpuRams(cs));
    var initTime := InitTime(cs);
    if exists i :: 0 <= i < |ws| && ws[i].totalTime == initTime then Err(ZeroDivisionError)
    else Ok(TaskStats(task, gpuRam / BenchProbe.GB as real, Median(Rates(ws, initTime))))
  }

  /** `task_stats`: the runs of one task; runs of input size 1 measure the
      start-up time and the GPU RAM, the larger runs the speed. A workload run
      as long as the start-up time divides by zero. */
  function TaskStatsOf(benches: seq<Bench>): Result<TaskStats> {
    if MultipleTasks(benches) then Err(ValueError(MultipleTasksMessage))
    else if !exists i :: 0 <= i < |benches| && benches[i].inputSize == 1 then Err(ValueError("no input_size == 1 benches"))
    else if !exists i :: 0 <= i < |benches| && benches[i].inputSize > 1 then Err(ValueError("not input_size > 1 benches"))
    else
      var calibration := Runs(benches, true);
      var workload := Runs(benches, false);
      var i1 :| 0 <= i1 < |benches| && benches[i1].inputSize == 1;
      var i2 :| 0 <= i2 < |benches| && benches[i2].inputSize > 1;
      RunsHas(benches, i1, true);
      RunsHas(benches, i2, false);
      match AllStats(calibration)
      case Err(e) => Err(e)
      case Ok(cs) =>
        match AllStats(workload)
        case Err(e) => Err(e)
        case Ok(ws) => Summary(benches[0].task, cs, ws)
  }

  /** `task_stats` refuses mixed tasks, then a missing calibration run, then a
      missing workload run, each with `ValueError`. */
  lemma TaskStatsErrors(benches: seq<Bench>)
    ensures MultipleTasks(benches) ==> TaskStatsOf(benches) == Err(ValueError(MultipleTasksMessage))
    ensures !MultipleTasks(benches) && (forall i :: 0 <= i < |benches| ==> benches[i].inputSize != 1) ==>
      TaskStatsOf(benches) == Err(ValueError("no input_size == 1 benches"))
    ensures (!MultipleTasks(benches) && (exists i :: 0 <= i < |benches| && benches[i].inputSize == 1) &&
      forall i :: 0 <= i < |benches| ==> benches[i].inputSize <= 1) ==>
      TaskStatsOf(benches) == Err(ValueError("not input_size > 1 benches"))
    ensures TaskStatsOf(benches).Ok? ==> |benches| >= 2
  {
    if TaskStatsOf(benches).Ok? {
      var i1 :| 0 <= i1 < |benches| && benches[i1].inputSize == 1;
      var i2 :| 0 <= i2 < |benches| && benches[i2].inputSize > 1;
      assert i1 != i2;
    }
  }

  /** The figures fail only on a workload run as long as the start-up time; the
      GPU RAM in bytes lies between the peaks of two calibration runs, the
      start-up time between the lengths of two of them, and the speed between
      the speeds of two workload runs. */
  lemma SummaryMeaning(task: string, cs: seq<BenchStats>, ws: seq<BenchStats>)
    requires cs != [] && ws != []
    ensures Summary(task, cs, ws).Err? <==> exists i :: 0 <= i < |ws| && ws[i].totalTime == InitTime(cs)
    ensures Summary(task, cs, ws).Err? ==> Summary(task, cs, ws).error == ZeroDivisionError
    ensures Summary(task, cs, ws).Ok? ==> Summary(task, cs, ws).value.task == task
    ensures Summary(task, cs, ws).Ok? ==>
      var g := Summary(task, cs, ws).value.gpuRam * BenchProbe.GB as real;
      (exists i :: 0 <= i < |cs| && cs[i].maxGpuRam as real <= g) &&
      (exists i :: 0 <= i < |cs| && g <= cs[i].maxGpuRam as real)
    ensures (exists i :: 0 <= i < |cs| && cs[i].totalTime <= InitTime(cs)) &&
      (exists i :: 0 <= i < |cs| && InitTime(cs) <= cs[i].totalTime)
    ensures Summary(task, cs, ws).Ok? ==>
      var rps := Summary(task, cs, ws).value.rps;
      (exists i :: 0 <= i < |ws| && ws[i].totalTime != InitTime(cs) && Speed(ws[i], InitTime(cs)) <= rps) &&
      (exists i :: 0 <= i < |ws| && ws[i].totalTime != InitTime(cs) && rps <= Speed(ws[i], InitTime(cs)))
  {
    InitTimeBounds(cs);
    if Summary(task, cs, ws).Ok? {
      SummaryOkBounds(task, cs, ws);
    }
  }

  lemma SummaryOkBounds(task: string, cs: seq<BenchStats>, ws: seq<BenchStats>)
    requires cs != [] && ws != [] && Summary(task, cs, ws).Ok?
    ensures Summary(task, cs, ws).value.task == task
    ensures var g := Summary(task, cs, ws).value.gpuRam * BenchProbe.GB as real;
      (exists i :: 0 <= i < |cs| && cs[i].maxGpuRam as real <= g) &&
      (exists i :: 0 <= i < |cs| && g <= cs[i].maxGpuRam as real)
    ensures var rps := Summary(task, cs, ws).value.rps;
      (exists i :: 0 <= i < |ws| && ws[i].totalTime != InitTime(cs) && Speed(ws[i], InitTime(cs)) <= rps) &&
      (exists i :: 0 <= i < |ws| && ws[i].totalTime != InitTime(cs) && rps <= Speed(ws[i], InitTime(cs)))
  {
    SummaryOkValue(task, cs, ws, Summary(task, cs, ws).value);
  }

  lemma SummaryOkValue(task: string, cs: seq<BenchStats>, ws: seq<BenchStats>, r: TaskStats)
    requires cs != [] && ws != [] && Summary(task, cs, ws) == Ok(r)
    ensures r.task == task
    ensures var g := r.gpuRam * BenchProbe.GB as real;
      (exists i :: 0 <= i < |cs| && cs[i].maxGpuRam as real <= g) &&
      (exists i :: 0 <= i < |cs| && g <= cs[i].maxGpuRam as real)
    ensures (exists i :: 0 <= i < |ws| && ws[i].totalTime != InitTime(cs) && Speed(ws[i], InitTime(cs)) <= r.rps) &&
      (exists i :: 0 <= i < |ws| && ws[i].totalTime != InitTime(cs) && r.rps <= Speed(ws[i], InitTime(cs)))
  {
    var t := InitTime(cs);
    var g := Median(MaxGpuRams(cs));
    assert r == TaskStats(task, g / BenchProbe.GB as real, Median(Rates(ws, t)));
    InGigabytes(g);
    GpuRamBounds(cs, r.gpuRam * BenchProbe.GB as real);
    RateBounds(ws, t, r.rps);
  }

  /** Bytes converted to gigabytes and back are the same bytes. */
  lemma InGigabytes(x: real)
    ensures x / BenchProbe.GB as real * BenchProbe.GB as real == x
  {
  }

  /** The start-up time lies between the lengths of two calibration runs. */
  lemma InitTimeBounds(cs: seq<BenchStats>)
    requires cs != []
    ensures (exists i :: 0 <= i < |cs| && cs[i].totalTime <= InitTime(cs)) &&
      (exists i :: 0 <= i < |cs| && InitTime(cs) <= cs[i].totalTime)
  {
    var t := InitTime(cs);
    var times := TotalTimes(cs);
    var lo :| 0 <= lo < |times| && times[lo] <= t;
    assert cs[lo].totalTime == times[lo];
    var hi :| 0 <= hi < |times| && t <= times[hi];
    assert cs[hi].totalTime == times[hi];
  }

  /** The median GPU RAM lies between the peaks of two calibration runs. */
  lemma GpuRamBounds(cs: seq<BenchStats>, g: real)
    requires cs != [] && g == Median(MaxGpuRams(cs))
    ensures (exists i :: 0 <= i < |cs| && cs[i].maxGpuRam as real <= g) &&
      (exists i :: 0 <= i < |cs| && g <= cs[i].maxGpuRam as real)
  {
    var rams := MaxGpuRams(cs);
    var l :| 0 <= l < |rams| && rams[l] <= g;
    assert cs[l].maxGpuRam as real == rams[l];
    var h :| 0 <= h < |rams| && g <= rams[h];
    assert cs[h].maxGpuRam as real == rams[h];
  }

  /** The median speed lies between the speeds of two workload runs. */
  lemma RateBounds(ws: seq<BenchStats>, t: real, m: real)
    requires ws != [] && forall i :: 0 <= i < |ws| ==> ws[i].totalTime != t
    requires m == Median(Rates(ws, t))
    ensures (exists i :: 0 <= i < |ws| && ws[i].totalTime != t && Speed(ws[i], t) <= m) &&
      (exists i :: 0 <= i < |ws| && ws[i].totalTime != t && m <= Speed(ws[i], t))
  {
    var rates := Rates(ws, t);
    var a :| 0 <= a < |rates| && rates[a] <= m;
    assert Speed(ws[a], t) == rates[a];
    var b :| 0 <= b < |rates| && m <= rates[b];
    assert Speed(ws[b], t) == rates[b];
  }

  /** When `task_stats` succeeds, every run is of the reported task, every
      calibration and workload run has records, and the figures are those of
      the statistics of the calibration runs and of the workload runs. */
  lemma TaskStatsOk(benches: seq<Bench>)
    ensures TaskStatsOf(benches).Ok? ==>
      var r := TaskStatsOf(benches).value;
      var calibration := Runs(benches, true);
      var workload := Runs(benches, false);
      (forall i :: 0 <= i < |benches| ==> benches[i].task == r.task) &&
      (forall i :: 0 <= i < |benches| && benches[i].inputSize >= 1 ==> benches[i].records != []) &&
      calibration != [] && workload != [] &&
      AllStats(calibration).Ok? && AllStats(workload).Ok? &&
      TaskStatsOf(benches) == Summary(r.task, AllStats(calibration).value, AllStats(workload).value)
  {
    if TaskStatsOf(benches).Ok? {
      TaskStatsParts(benches);
      var r := TaskStatsOf(benches).value;
      forall i | 0 <= i < |benches| ensures benches[i].task == r.task {
        assert !MultipleTasks(benches);
      }
      forall i | 0 <= i < |benches| && benches[i].inputSize >= 1 ensures benches[i].records != [] {
        RunHasRecords(benches, i, benches[i].inputSize == 1);
      }
    }
  }

  /** Success means one task, both kinds of run present and with records, and the summary of their statistics. */
  lemma TaskStatsParts(benches: seq<Bench>)
    requires TaskStatsOf(benches).Ok?
    ensures !MultipleTasks(benches) && benches != []
    ensures Runs(benches, true) != [] && Runs(benches, false) != []
    ensures AllStats(Runs(benches, true)).Ok? && AllStats(Runs(benches, false)).Ok?
    ensures TaskStatsOf(benches) == Summary(benches[0].task, AllStats(Runs(benches, true)).value, AllStats(Runs(benches, false)).value)
    ensures TaskStatsOf(benches).value.task == benches[0].task
  {
    var i1 :| 0 <= i1 < |benches| && benches[i1].inputSize == 1;
    var i2 :| 0 <= i2 < |benches| && benches[i2].inputSize > 1;
    RunsHas(benches, i1, true);
    RunsHas(benches, i2, false);
    SummaryMeaning(benches[0].task, AllStats(Runs(benches, true)).value, AllStats(Runs(benches, false)).value);
  }

  /** When the statistics of the calibration (or workload) runs succeed, each such run has records. */
  lemma RunHasRecords(benches: seq<Bench>, i: int, calibration: bool)
    requires AllStats(Runs(benches, calibration)).Ok?
    requires 0 <= i < |benches| && if calibration then benches[i].inputSize == 1 else benches[i].inputSize > 1
    ensures benches[i].records != []
  {
    var runs := Runs(benches, calibration);
    RunsHas(benches, i, calibration);
    AllStatsMeaning(runs);
    var k :| 0 <= k < |runs| && runs[k] == benches[i];
  }
}
