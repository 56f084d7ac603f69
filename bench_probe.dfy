/** The resource probes of the bench tool: the parsers of the `ps` and
    `nvidia-smi` CSV output, the record search over that output, the pid
    discovery through `retriable`, and `probe_pid`, which combines the three
    probes. The tools themselves are not run: their output text is an input. */
module BenchProbe {
  import opened Wrappers
  import opened Text
  import opened Numbers

  const KB: nat := 1024
  const MB: nat := 1024 * KB
  const GB: nat := 1024 * MB

  /** `parse_tsv`: every line split on the separator. */
  function ParseTsv(lines: seq<string>, sep: string): (r: seq<seq<string>>)
    requires sep != []
    ensures |r| == |lines|
  {
    seq(|lines|, i requires 0 <= i < |lines| => Split(lines[i], sep))
  }

  /** Joining the fields of a row with the separator gives its line back. */
  lemma ParseTsvJoin(lines: seq<string>, sep: string)
    requires sep != []
    ensures forall i :: 0 <= i < |lines| ==> Join(ParseTsv(lines, sep)[i], sep) == lines[i]
  {
    forall i | 0 <= i < |lines| ensures Join(ParseTsv(lines, sep)[i], sep) == lines[i] {
      JoinSplit(lines[i], sep);
    }
  }

  /** No field of a row contains the separator. */
  lemma ParseTsvFields(lines: seq<string>, sep: string)
    requires sep != []
    ensures forall i, k :: 0 <= i < |lines| && 0 <= k < |ParseTsv(lines, sep)[i]| ==> !Contains(ParseTsv(lines, sep)[i][k], sep)
  {
    forall i | 0 <= i < |lines|
      ensures forall k :: 0 <= k < |ParseTsv(lines, sep)[i]| ==> !Contains(ParseTsv(lines, sep)[i][k], sep)
    {
      SplitPiecesFree(lines[i], sep);
    }
  }

  /** `MIBS[unit]`: KiB, MiB and GiB; any other unit raises `KeyError`. */
  function UnitBytes(unit: string): (r: Result<nat>)
    ensures r.Ok? <==> unit in ["KiB", "MiB", "GiB"]
    ensures r.Err? ==> r.error == KeyError
  {
    if unit == "KiB" then Ok(KB)
    else if unit == "MiB" then Ok(MB)
    else if unit == "GiB" then Ok(GB)
    else Err(KeyError)
  }

  /** `parse_nvidia_gpu_ram`: the last three characters are the unit, the rest
      is a number (`strip` removes the whitespace `float` would skip anyway);
      `float` is evaluated before the unit is looked up, and the product is
      truncated by `int`. */
  function ParseGpuRam(value: string): (r: Result<int>)
    ensures r.Err? ==> r.error == KeyError || r.error.ValueError?
  {
    ScaleParsed(ParseFloat(PySlice(value, 0, -3)), UnitBytes(PySlice(value, -3, |value|)))
  }

  /** The amount times the unit's bytes, truncated; the amount's error comes first. */
  function ScaleParsed(amount: Result<real>, unit: Result<nat>): (r: Result<int>)
    ensures r.Ok? <==> amount.Ok? && unit.Ok?
    ensures amount.Err? ==> r == Err(amount.error)
    ensures amount.Ok? && unit.Err? ==> r == Err(unit.error)
  {
    match amount
    case Err(e) => Err(e)
    case Ok(v) =>
      match unit
      case Err(e) => Err(e)
      case Ok(bytes) => Ok(Trunc(Scaled(v, bytes)))
  }

  /** `float(value[:-3]) * bytes`. */
  function Scaled(amount: real, bytes: nat): real {
    amount * bytes as real
  }

  /** A whole number, a space and a three-character unit: the number is read,
      then the unit looked up. */
  lemma GpuRamOfAmount(amount: string, unit: string, n: nat)
    requires |unit| == 3 && ParseFloat(amount + " ") == Ok(n as real)
    ensures ParseGpuRam(amount + " " + unit) ==
      if UnitBytes(unit).Ok? then Ok(n * UnitBytes(unit).value) else Err(KeyError)
  {
    SplitUnit(amount, unit);
    GpuRamOfParts(amount + " " + unit, amount + " ", unit, n);
  }

  lemma GpuRamOfParts(value: string, amount: string, unit: string, n: nat)
    requires PySlice(value, 0, -3) == amount && PySlice(value, -3, |value|) == unit && ParseFloat(amount) == Ok(n as real)
    ensures ParseGpuRam(value) == if UnitBytes(unit).Ok? then Ok(n * UnitBytes(unit).value) else Err(KeyError)
  {
    ScaleWhole(n, UnitBytes(unit));
  }

  /** A whole amount times a unit, or the unit's `KeyError`. */
  lemma ScaleWhole(n: nat, bytes: Result<nat>)
    requires bytes.Err? ==> bytes.error == KeyError
    ensures ScaleParsed(Ok(n as real), bytes) == if bytes.Ok? then Ok(n * bytes.value) else Err(KeyError)
  {
    match bytes
    case Ok(b) => TruncProduct(n, b);
    case Err(_) =>
  }

  /** The slices `[:-3]` and `[-3:]` take a three-letter unit off the end. */
  lemma SplitUnit(amount: string, unit: string)
    requires |unit| == 3
    ensures PySlice(amount + " " + unit, 0, -3) == amount + " "
    ensures PySlice(amount + " " + unit, -3, |amount + " " + unit|) == unit
  {
    var s := amount + " " + unit;
    assert s[..|s| - 3] == amount + " ";
    assert s[|s| - 3..] == unit;
  }

  /** A rendered number followed by a space reads back as that number. */
  lemma NumberSpace(n: nat)
    ensures ParseFloat(NatToString(n) + " ") == Ok(n as real)
  {
    var t := NatToString(n);
    ParseFloatOfNat(n, [], " ");
    assert [] + t + " " == t + " ";
  }

  lemma TruncProduct(n: nat, b: nat)
    ensures Trunc(Scaled(n as real, b)) == n * b
  {
    assert n as real * b as real == (n * b) as real;
  }

  /** `n KiB`, `n MiB` and `n GiB` are `n` times 1024, 1024² and 1024³ bytes;
      `n` with any other three-character unit raises `KeyError`. */
  lemma GpuRamOf(n: nat, unit: string)
    requires |unit| == 3
    ensures ParseGpuRam(NatToString(n) + " " + unit) ==
      if UnitBytes(unit).Ok? then Ok(n * UnitBytes(unit).value) else Err(KeyError)
  {
    NumberSpace(n);
    GpuRamOfAmount(NatToString(n), unit, n);
  }

  /** `parse_nvidia_usage`: the last two characters (` %`) go, and the percentage becomes a fraction. */
  function ParseUsage(value: string): (r: Result<real>)
    ensures r.Err? ==> r.error.ValueError?
  {
    match ParseFloat(PySlice(value, 0, -2))
    case Err(e) => Err(e)
    case Ok(v) => Ok(v / 100.0)
  }

  lemma NumberOf(n: nat)
    ensures ParseFloat(NatToString(n)) == Ok(n as real)
  {
    var t := NatToString(n);
    ParseFloatOfNat(n, [], []);
    assert [] + t + [] == t;
  }

  lemma UsageOfAmount(amount: string)
    ensures ParseUsage(amount + " %") ==
      if ParseFloat(amount).Ok? then Ok(ParseFloat(amount).value / 100.0) else ParseFloat(amount)
  {
    var s := amount + " %";
    assert s[..|s| - 2] == amount;
  }

  /** A percentage as `nvidia-smi` prints it: `n %`. */
  function PercentText(n: nat): string {
    NatToString(n) + " %"
  }

  /** `n %` is the fraction `n / 100`. */
  lemma UsageOf(n: nat)
    ensures ParseUsage(PercentText(n)) == Ok(n as real / 100.0)
  {
    UsageOfAmount(NatToString(n));
    NumberOf(n);
  }

  /** `NvidiaGPUStatsRecord` */
  datatype GpuStats = GpuStats(guid: string, totalGpuRam: int, gpuUsage: real, gpuRamUsage: real)

  /** `NvidiaProcessStatsRecord`; the pid has been through `int`. */
  datatype ProcessStats = ProcessStats(pid: int, guid: string, gpuRam: int)

  /** A row that does not have as many fields as the tuple it is unpacked into. */
  const UnpackError := ValueError("wrong number of values to unpack")

  /** `parse_nvidia_gpu_stats`: guid, total memory, GPU usage and memory usage, parsed in that order. */
  function ParseGpuStats(record: seq<string>): (r: Result<GpuStats>)
    ensures r.Err? ==> r.error == KeyError || r.error.ValueError?
  {
    if |record| != 4 then Err(UnpackError)
    else
      match ParseGpuRam(record[1])
      case Err(e) => Err(e)
      case Ok(total) =>
        match ParseUsage(record[2])
        case Err(e) => Err(e)
        case Ok(usage) =>
          match ParseUsage(record[3])
          case Err(e) => Err(e)
          case Ok(ramUsage) => Ok(GpuStats(record[0], total, usage, ramUsage))
  }

  /** `parse_nvidia_process_stats`: pid, guid and used memory. */
  function ParseProcessStats(record: seq<string>): (r: Result<ProcessStats>)
    ensures r.Err? ==> r.error == KeyError || r.error.ValueError?
  {
    if |record| != 3 then Err(UnpackError)
    else
      match ParseInt(record[0])
      case Err(e) => Err(e)
      case Ok(pid) =>
        match ParseGpuRam(record[2])
        case Err(e) => Err(e)
        case Ok(ram) => Ok(ProcessStats(pid, record[1], ram))
  }

  /** A size as `nvidia-smi` prints it: `n MiB`. */
  function MibText(n: nat): string {
    NatToString(n) + " MiB"
  }

  /** A size in MiB parses to that many mebibytes in bytes. */
  lemma MibOf(n: nat)
    ensures ParseGpuRam(MibText(n)) == Ok(n * MB)
  {
    GpuRamOf(n, "MiB");
    var t := NatToString(n);
    assert t + " " + "MiB" == MibText(n);
  }

  lemma GpuStatsOfFields(guid: string, a: string, b: string, c: string, total: int, usage: real, ramUsage: real)
    requires ParseGpuRam(a) == Ok(total) && ParseUsage(b) == Ok(usage) && ParseUsage(c) == Ok(ramUsage)
    ensures ParseGpuStats([guid, a, b, c]) == Ok(GpuStats(guid, total, usage, ramUsage))
  {
  }

  /** A well-formed row of the GPU query parses field by field. */
  lemma GpuStatsOf(guid: string, total: nat, usage: nat, ramUsage: nat)
    ensures ParseGpuStats([guid, MibText(total), PercentText(usage), PercentText(ramUsage)])
      == Ok(GpuStats(guid, total * MB, usage as real / 100.0, ramUsage as real / 100.0))
  {
    UsageOf(usage);
    UsageOf(ramUsage);
    GpuStatsOfMib(guid, total, PercentText(usage), PercentText(ramUsage), usage as real / 100.0, ramUsage as real / 100.0);
  }

  lemma GpuStatsOfMib(guid: string, total: nat, b: string, c: string, usage: real, ramUsage: real)
    requires ParseUsage(b) == Ok(usage) && ParseUsage(c) == Ok(ramUsage)
    ensures ParseGpuStats([guid, MibText(total), b, c]) == Ok(GpuStats(guid, total * MB, usage, ramUsage))
  {
    MibOf(total);
    GpuStatsOfFields(guid, MibText(total), b, c, total * MB, usage, ramUsage);
  }

  lemma ProcessStatsOfFields(a: string, guid: string, c: string, pid: int, ram: int)
    requires ParseInt(a) == Ok(pid) && ParseGpuRam(c) == Ok(ram)
    ensures ParseProcessStats([a, guid, c]) == Ok(ProcessStats(pid, guid, ram))
  {
  }

  /** A well-formed row of the process query parses field by field. */
  lemma ProcessStatsOf(pid: nat, guid: string, ram: nat)
    ensures ParseProcessStats([NatToString(pid), guid, MibText(ram)]) == Ok(ProcessStats(pid, guid, ram * MB))
  {
    ParseIntOfInt(pid);
    MibOf(ram);
    ProcessStatsOfFields(NatToString(pid), guid, MibText(ram), pid, ram * MB);
  }

  /** `parse_nvidia_output`: the lines split on `, `, without the header line;
      `next` on the rows of an output with no line raises `StopIteration`. */
  function ParseNvidiaOutput(output: string): (r: Result<seq<seq<string>>>)
    ensures r.Err? <==> SplitLines(output) == []
    ensures r.Err? ==> r.error == StopIteration
    ensures r.Ok? ==> |r.value| == |SplitLines(output)| - 1
  {
    var lines := SplitLines(output);
    if lines == [] then Err(StopIteration) else Ok(ParseTsv(lines[1..], ", "))
  }

  /** Exactly the header is dropped: an output of a header and rows, one per
      line, gives one record per row, whose fields joined by `, ` are that row. */
  lemma NvidiaOutputOf(header: string, rows: seq<string>)
    requires '\n' !in header && forall k :: 0 <= k < |rows| ==> '\n' !in rows[k]
    ensures ParseNvidiaOutput(Join([header] + rows, "\n") + "\n").Ok?
    ensures var r := ParseNvidiaOutput(Join([header] + rows, "\n") + "\n").value;
      |r| == |rows| && forall k :: 0 <= k < |rows| ==> Join(r[k], ", ") == rows[k]
  {
    var lines := [header] + rows;
    forall k | 0 <= k < |lines| ensures '\n' !in lines[k] {
      if k > 0 {
        assert lines[k] == rows[k - 1];
      }
    }
    SplitLinesOfLines(lines);
    assert lines[1..] == rows;
    ParseTsvJoin(rows, ", ");
  }

  /** A record that parses and is not the one asked for. */
  predicate Passes<R, K(==)>(p: Result<R>, keyOf: R -> K, key: K) {
    p.Ok? && keyOf(p.value) != key
  }

  /** The loop of `nvidia_gpu_stats` and `nvidia_process_stats`: records are
      parsed one at a time until one has the key; a parse error stops the search. */
  function Search<R, K(==)>(records: seq<seq<string>>, parse: seq<string> -> Result<R>, keyOf: R -> K, key: K): Result<Option<R>>
    decreases |records|
  {
    if records == [] then Ok(None)
    else
      match parse(records[0])
      case Err(e) => Err(e)
      case Ok(x) => if keyOf(x) == key then Ok(Some(x)) else Search(records[1..], parse, keyOf, key)
  }

  /** The search finds nothing exactly when every record parses and none has
      the key; otherwise it returns the outcome of the first record that fails
      to parse or has the key, and every record before it parsed to another key. */
  lemma {:induction false} SearchMeaning<R, K>(records: seq<seq<string>>, parse: seq<string> -> Result<R>, keyOf: R -> K, key: K)
    ensures Search(records, parse, keyOf, key) == Ok(None) <==>
      forall j :: 0 <= j < |records| ==> Passes(parse(records[j]), keyOf, key)
    ensures Search(records, parse, keyOf, key) != Ok(None) ==>
      exists i :: 0 <= i < |records| && !Passes(parse(records[i]), keyOf, key) &&
        (forall j :: 0 <= j < i ==> Passes(parse(records[j]), keyOf, key)) &&
        match parse(records[i])
        case Err(e) => Search(records, parse, keyOf, key) == Err(e)
        case Ok(x) => Search(records, parse, keyOf, key) == Ok(Some(x)) && keyOf(x) == key
    decreases |records|
  {
    if records != [] {
      var rest := records[1..];
      SearchMeaning(rest, parse, keyOf, key);
      assert forall j :: 1 <= j < |records| ==> records[j] == rest[j - 1];
      if Passes(parse(records[0]), keyOf, key) && Search(rest, parse, keyOf, key) != Ok(None) {
        var i :| 0 <= i < |rest| && !Passes(parse(rest[i]), keyOf, key) &&
          (forall j :: 0 <= j < i ==> Passes(parse(rest[j]), keyOf, key)) &&
          match parse(rest[i])
          case Err(e) => Search(rest, parse, keyOf, key) == Err(e)
          case Ok(x) => Search(rest, parse, keyOf, key) == Ok(Some(x)) && keyOf(x) == key;
        assert records[i + 1] == rest[i];
      }
    }
  }

  /** The search loop itself. */
  method FirstRecord<R, K(==)>(records: seq<seq<string>>, parse: seq<string> -> Result<R>, keyOf: R -> K, key: K)
    returns (r: Result<Option<R>>)
    ensures r == Search(records, parse, keyOf, key)
  {
    var i := 0;
    while i < |records|
      invariant 0 <= i <= |records|
      invariant Search(records, parse, keyOf, key) == Search(records[i..], parse, keyOf, key)
    {
      assert records[i..][1..] == records[i + 1..];
      var record := parse(records[i]);
      if record.Err? {
        return Err(record.error);
      }
      if keyOf(record.value) == key {
        return Ok(Some(record.value));
      }
      i := i + 1;
    }
    return Ok(None);
  }

  function GpuGuid(g: GpuStats): string {
    g.guid
  }

  function ProcessPid(p: ProcessStats): int {
    p.pid
  }

  /** `nvidia_gpu_stats(guid)` on the output of the GPU query. */
  function GpuLookup(output: string, guid: string): Result<Option<GpuStats>> {
    match ParseNvidiaOutput(output)
    case Err(e) => Err(e)
    case Ok(records) => Search(records, ParseGpuStats, GpuGuid, guid)
  }

  /** `nvidia_process_stats(pid)` on the output of the process query. */
  function ProcessLookup(output: string, pid: int): Result<Option<ProcessStats>> {
    match ParseNvidiaOutput(output)
    case Err(e) => Err(e)
    case Ok(records) => Search(records, ParseProcessStats, ProcessPid, pid)
  }

  method NvidiaGpuStats(output: string, guid: string) returns (r: Result<Option<GpuStats>>)
    ensures r == GpuLookup(output, guid)
  {
    var records := ParseNvidiaOutput(output);
    if records.Err? {
      return Err(records.error);
    }
    r := FirstRecord(records.value, ParseGpuStats, GpuGuid, guid);
  }

  method NvidiaProcessStats(output: string, pid: int) returns (r: Result<Option<ProcessStats>>)
    ensures r == ProcessLookup(output, pid)
  {
    var records := ParseNvidiaOutput(output);
    if records.Err? {
      return Err(records.error);
    }
    r := FirstRecord(records.value, ParseProcessStats, ProcessPid, pid);
  }

  /** `PsStatsRecord` */
  datatype PsStats = PsStats(pid: int, cpuUsage: real, ram: int)

  /** `ps_stats` on the output of `ps -o %cpu,rss`: no output means no process;
      otherwise two fields, a percentage and a size in KiB. */
  function ParsePsStats(pid: int, output: string): (r: Result<Option<PsStats>>)
    ensures SplitWhitespace(output) == [] ==> r == Ok(None)
    ensures |SplitWhitespace(output)| !in {0, 2} ==> r == Err(UnpackError)
    ensures r.Err? ==> r.error.ValueError?
  {
    var parts := SplitWhitespace(output);
    if parts == [] then Ok(None)
    else if |parts| != 2 then Err(UnpackError)
    else
      match ParseFloat(parts[0])
      case Err(e) => Err(e)
      case Ok(cpu) =>
        match ParseInt(parts[1])
        case Err(e) => Err(e)
        case Ok(rss) => Ok(Some(PsStats(pid, cpu / 100.0, rss * KB)))
  }

  lemma PsStatsOfWords(pid: int, output: string, a: string, b: string, cpu: real, rss: int)
    requires SplitWhitespace(output) == [a, b] && ParseFloat(a) == Ok(cpu) && ParseInt(b) == Ok(rss)
    ensures ParsePsStats(pid, output) == Ok(Some(PsStats(pid, cpu / 100.0, rss * KB)))
  {
  }

  lemma PsStatsOfText(pid: int, output: string, w: nat, f: string, rss: nat)
    requires AllDigits(f)
    requires output == " " + DecimalText(w, f) + "  " + NatToString(rss) + "\n"
    ensures ParsePsStats(pid, output) == Ok(Some(PsStats(pid, DecimalOf(w, f) / 100.0, rss * KB)))
  {
    PsWords(w, f, rss);
    PsStatsOfWords(pid, output, DecimalText(w, f), NatToString(rss), DecimalOf(w, f), rss);
  }

  lemma PsWords(w: nat, f: string, rss: nat)
    requires AllDigits(f)
    ensures SplitWhitespace(" " + DecimalText(w, f) + "  " + NatToString(rss) + "\n") == [DecimalText(w, f), NatToString(rss)]
    ensures ParseFloat(DecimalText(w, f)) == Ok(DecimalOf(w, f)) && ParseInt(NatToString(rss)) == Ok(rss)
  {
    var a, b := DecimalText(w, f), NatToString(rss);
    DecimalTextShape(w, f);
    assert NoSpace(b);
    assert AllSpace("  ") && AllSpace("\n");
    SplitTwoWords(" ", a, "  ", b, "\n");
    ParseFloatOfDecimalText(w, f);
    ParseIntOfInt(rss);
  }

  /** A line `  w.f  rss`, as `ps` prints it (`  0.2  18988`), reads as the
      usage fraction `w.f / 100` and `rss` KiB in bytes. */
  lemma PsStatsOf(pid: int, w: nat, f: string, rss: nat)
    requires AllDigits(f)
    ensures ParsePsStats(pid, " " + DecimalText(w, f) + "  " + NatToString(rss) + "\n")
      == Ok(Some(PsStats(pid, DecimalOf(w, f) / 100.0, rss * KB)))
  {
    PsStatsOfText(pid, " " + DecimalText(w, f) + "  " + NatToString(rss) + "\n", w, f, rss);
  }

  /** `docker_find_pid` on the output of `docker inspect`: blank output means
      no container yet; otherwise the output is read by `int`. */
  function DockerPid(output: string): (r: Result<Option<int>>)
    ensures Strip(output) == [] ==> r == Ok(None)
    ensures r.Err? ==> r.error.ValueError?
    ensures Strip(output) != [] ==> (r.Ok? <==> ParseInt(output).Ok?)
    ensures Strip(output) != [] && r.Ok? ==> r.value == Some(ParseInt(output).value)
  {
    var pid := Strip(output);
    StripSurrounded([], pid, []);
    assert [] + pid + [] == pid;
    if pid == [] then Ok(None)
    else
      match ParseInt(pid)
      case Err(e) => Err(e)
      case Ok(n) => Ok(Some(n))
  }

  /** A pid printed by `docker inspect`, with its surrounding whitespace, is read back. */
  lemma DockerPidOf(n: nat, a: string, b: string)
    requires AllSpace(a) && AllSpace(b)
    ensures DockerPid(a + NatToString(n) + b) == Ok(Some(n))
  {
    StripSurrounded(a, NatToString(n), b);
    ParseIntOfNat(n, a, b);
  }

  /** The outcome of call `j` of a function whose successive outcomes are
      `attempts`; calls past the script find nothing. */
  function Attempt<T>(attempts: seq<Result<Option<T>>>, j: nat): Result<Option<T>> {
    if j < |attempts| then attempts[j] else Ok(None)
  }

  /** What `retriable` returns when calls `from` up to `retries` remain: the
      first outcome that is not `None` (a value or an exception), else `None`. */
  function FirstFound<T>(attempts: seq<Result<Option<T>>>, from: nat, retries: nat): (r: Result<Option<T>>)
    decreases retries - from
  {
    if from >= retries then Ok(None)
    else if Attempt(attempts, from) != Ok(None) then Attempt(attempts, from)
    else FirstFound(attempts, from + 1, retries)
  }

  /** The outcome found is that of some remaining call, every call before it finding nothing. */
  lemma {:induction false} FirstFoundMeaning<T>(attempts: seq<Result<Option<T>>>, from: nat, retries: nat)
    ensures FirstFound(attempts, from, retries) == Ok(None) <==>
      forall j :: from <= j < retries ==> Attempt(attempts, j) == Ok(None)
    ensures FirstFound(attempts, from, retries) != Ok(None) ==>
      exists j :: from <= j < retries && Attempt(attempts, j) == FirstFound(attempts, from, retries) &&
        forall k :: from <= k < j ==> Attempt(attempts, k) == Ok(None)
    decreases retries - from
  {
    if from < retries && Attempt(attempts, from) == Ok(None) {
      FirstFoundMeaning(attempts, from + 1, retries);
    }
  }

  /** `retriable`: at most `retries` calls, stopping at the first value that is
      not `None`; an exception raised by a call ends the loop with it. `calls`
      is the number of calls made. */
  method Retriable<T>(attempts: seq<Result<Option<T>>>, retries: nat) returns (r: Result<Option<T>>, calls: nat)
    ensures r == FirstFound(attempts, 0, retries)
    ensures calls <= retries
    ensures forall j :: 0 <= j < calls - 1 ==> Attempt(attempts, j) == Ok(None)
    ensures r == Ok(None) ==> calls == retries && forall j :: 0 <= j < retries ==> Attempt(attempts, j) == Ok(None)
    ensures r != Ok(None) ==> 0 < calls && Attempt(attempts, calls - 1) == r
  {
    calls := 0;
    while calls < retries
      invariant calls <= retries
      invariant forall j :: 0 <= j < calls ==> Attempt(attempts, j) == Ok(None)
      invariant FirstFound(attempts, 0, retries) == FirstFound(attempts, calls, retries)
    {
      var value := Attempt(attempts, calls);
      calls := calls + 1;
      if value != Ok(None) {
        return value, calls;
      }
    }
    return Ok(None), calls;
  }

  /** `if not pid: raise RuntimeError(...)`: no pid, and pid 0, are both refused. */
  function RequirePid(found: Option<int>): (r: Result<int>)
    ensures r.Ok? <==> found.Some? && found.value != 0
    ensures r.Ok? ==> r.value == found.value
    ensures r.Err? ==> r.error == RuntimeError
  {
    if found.None? || found.value == 0 then Err(RuntimeError) else Ok(found.value)
  }

  /** The outcomes of `docker_find_pid` on the successive outputs of `docker inspect`. */
  function DockerPids(outputs: seq<string>): (r: seq<Result<Option<int>>>)
    ensures |r| == |outputs|
    ensures forall j :: 0 <= j < |outputs| ==> r[j] == DockerPid(outputs[j])
  {
    seq(|outputs|, j requires 0 <= j < |outputs| => DockerPid(outputs[j]))
  }

  /** The pid discovery of `bench_docker`: `docker_find_pid` retried on the
      successive outputs of `docker inspect`, then the pid check: the first
      output that is not blank decides, an unparsable one raising its
      `ValueError`, a zero pid or none at all `RuntimeError`. */
  method DiscoverPid(outputs: seq<string>, retries: nat) returns (r: Result<int>)
    ensures r == (match FirstFound(DockerPids(outputs), 0, retries)
                  case Err(e) => Err(e)
                  case Ok(found) => RequirePid(found))
    ensures r.Ok? ==> exists j :: 0 <= j < |outputs| && j < retries && DockerPid(outputs[j]) == Ok(Some(r.value)) && r.value != 0
    ensures (forall j :: 0 <= j < |outputs| && j < retries ==> DockerPid(outputs[j]) == Ok(None)) ==> r == Err(RuntimeError)
  {
    var attempts := seq(|outputs|, j requires 0 <= j < |outputs| => DockerPid(outputs[j]));
    assert attempts == DockerPids(outputs);
    var found, calls := Retriable(attempts, retries);
    if found.Err? {
      return Err(found.error);
    }
    r := RequirePid(found.value);
  }

  /** What `probe_pid` returns: cpu usage, RAM, GPU usage and GPU RAM, each `None` when not found. */
  datatype Probe = Probe(cpuUsage: Option<real>, ram: Option<int>, gpuUsage: Option<real>, gpuRam: Option<int>)

  /** A search fails only with an error of its parser, and finds only a record with the key. */
  lemma {:induction false} SearchOutcome<R, K>(records: seq<seq<string>>, parse: seq<string> -> Result<R>, keyOf: R -> K, key: K)
    requires forall rec :: parse(rec).Err? ==> parse(rec).error != AttributeError
    ensures Search(records, parse, keyOf, key).Err? ==> Search(records, parse, keyOf, key).error != AttributeError
    ensures Search(records, parse, keyOf, key).Ok? && Search(records, parse, keyOf, key).value.Some? ==>
      keyOf(Search(records, parse, keyOf, key).value.value) == key
    decreases |records|
  {
    if records != [] && parse(records[0]).Ok? && keyOf(parse(records[0]).value) != key {
      SearchOutcome(records[1..], parse, keyOf, key);
    }
  }

  /** The GPU lookup never raises `AttributeError`, and finds only the GPU asked for. */
  lemma GpuLookupOutcome(output: string, guid: string)
    ensures GpuLookup(output, guid).Err? ==> GpuLookup(output, guid).error != AttributeError
    ensures GpuLookup(output, guid).Ok? && GpuLookup(output, guid).value.Some? ==> GpuLookup(output, guid).value.value.guid == guid
  {
    var records := ParseNvidiaOutput(output);
    if records.Ok? {
      SearchOutcome(records.value, ParseGpuStats, GpuGuid, guid);
    }
  }

  /** The process lookup never raises `AttributeError`. */
  lemma ProcessLookupOutcome(output: string, pid: int)
    ensures ProcessLookup(output, pid).Err? ==> ProcessLookup(output, pid).error != AttributeError
  {
    var records := ParseNvidiaOutput(output);
    if records.Ok? {
      SearchOutcome(records.value, ParseProcessStats, ProcessPid, pid);
    }
  }

  /** `probe_pid` on the outputs of `ps`, of the process query and of the GPU
      query. A process on a GPU that the GPU query does not list makes
      `stats.gpu_usage` read an attribute of `None`, which raises `AttributeError`. */
  function ProbePid(pid: int, psOutput: string, appsOutput: string, gpusOutput: string): Result<Probe> {
    match ParsePsStats(pid, psOutput)
    case Err(e) => Err(e)
    case Ok(ps) =>
      var cpu := if ps.Some? then Some(ps.value.cpuUsage) else None;
      var ram := if ps.Some? then Some(ps.value.ram) else None;
      match ProcessLookup(appsOutput, pid)
      case Err(e) => Err(e)
      case Ok(None) => Ok(Probe(cpu, ram, None, None))
      case Ok(Some(proc)) =>
        match GpuLookup(gpusOutput, proc.guid)
        case Err(e) => Err(e)
        case Ok(None) => Err(AttributeError)
        case Ok(Some(gpu)) => Ok(Probe(cpu, ram, Some(gpu.gpuUsage), Some(proc.gpuRam)))
  }

  /** The probe fails with `AttributeError` exactly when the process is found on
      a GPU the GPU query does not list; on success the CPU figures are there
      exactly when `ps` found the process, and the two GPU figures are there
      together, exactly when the process query found it, with the usage of the
      process's own GPU. */
  lemma ProbePidMeaning(pid: int, psOutput: string, appsOutput: string, gpusOutput: string)
    ensures var r := ProbePid(pid, psOutput, appsOutput, gpusOutput);
      var ps := ParsePsStats(pid, psOutput);
      var proc := ProcessLookup(appsOutput, pid);
      (r == Err(AttributeError) <==>
        ps.Ok? && proc.Ok? && proc.value.Some? && GpuLookup(gpusOutput, proc.value.value.guid) == Ok(None)) &&
      (r.Ok? ==>
        ps.Ok? && proc.Ok? &&
        (r.value.cpuUsage.Some? <==> ps.value.Some?) && (r.value.ram.Some? <==> ps.value.Some?) &&
        (r.value.gpuRam.Some? <==> proc.value.Some?) && (r.value.gpuUsage.Some? <==> proc.value.Some?) &&
        (proc.value.Some? ==>
          r.value.gpuRam == Some(proc.value.value.gpuRam) &&
          exists g: GpuStats :: GpuLookup(gpusOutput, proc.value.value.guid) == Ok(Some(g)) && g.guid == proc.value.value.guid &&
            r.value.gpuUsage == Some(g.gpuUsage)))
  {
    var ps := ParsePsStats(pid, psOutput);
    var proc := ProcessLookup(appsOutput, pid);
    ProcessLookupOutcome(appsOutput, pid);
    if ps.Ok? && proc.Ok? && proc.value.Some? {
      var guid := proc.value.value.guid;
      GpuLookupOutcome(gpusOutput, guid);
      var gpu := GpuLookup(gpusOutput, guid);
      if gpu.Ok? && gpu.value.Some? {
        assert gpu == Ok(Some(gpu.value.value));
      }
    }
  }
}
