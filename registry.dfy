/** The bench registry of the leaderboard script: one file per run, stored
    as `dir/model/task/{input_size}_{batch_size}_{index:02d}.jl`, found again
    by a regular expression over the file names and queried by field values. */
module Registry {
  import opened Wrappers
  import opened Text
  import opened Numbers

  /** `BenchRegistryRecord` */
  datatype RegistryRecord = RegistryRecord(dir: string, model: string, task: string, inputSize: nat, batchSize: nat, index: nat)

  /** The length of the run of decimal digits a string starts with. */
  function LeadingDigits(s: string): (k: nat)
    ensures k <= |s| && AllDigits(s[..k])
    ensures k < |s| ==> !IsDigit(s[k])
    decreases |s|
  {
    if s == [] || !IsDigit(s[0]) then 0
    else
      var k := 1 + LeadingDigits(s[1..]);
      assert s[..k] == [s[0]] + s[1..][..k - 1];
      k
  }

  /** `(\d+)` followed by the literal `sep`: the value of the digits and what
      follows `sep`. As `sep` never starts with a digit, the greedy run is the
      only one the expression can take. */
  function DigitsThen(s: string, sep: string): (r: Option<(nat, string)>)
  {
    var k := LeadingDigits(s);
    if k > 0 && StartsWith(s[k..], sep) then Some((DigitsValue(s[..k]), s[k + |sep|..])) else None
  }

  /** `re.match(r'(\d+)_(\d+)_(\d+)\.jl', filename)` with its groups read by
      `int`: the match is anchored at the start only, so anything may follow
      `.jl`. */
  function ParseRegistryName(name: string): Option<(nat, nat, nat)> {
    match DigitsThen(name, "_")
    case None => None
    case Some((inputSize, rest)) =>
      match DigitsThen(rest, "_")
      case None => None
      case Some((batchSize, rest')) =>
        match DigitsThen(rest', ".jl")
        case None => None
        case Some((index, _)) => Some((inputSize, batchSize, index))
  }

  /** `f'{input_size}_{batch_size}_{index:02d}.jl'` */
  function RegistryFileName(inputSize: nat, batchSize: nat, index: nat): string {
    NatToString(inputSize) + "_" + NatToString(batchSize) + "_" + Pad2(index) + ".jl"
  }

  /** `registry_bench_path` */
  function RegistryBenchPath(dir: string, model: string, task: string, inputSize: nat, batchSize: nat, index: nat): string {
    PathJoin(PathJoin(PathJoin(dir, model), task), RegistryFileName(inputSize, batchSize, index))
  }

  /** A digit run followed by a separator that does not start with a digit is
      read back whole. */
  lemma DigitsThenOf(t: string, sep: string, rest: string)
    requires t != [] && AllDigits(t) && sep != [] && !IsDigit(sep[0])
    ensures DigitsThen(t + sep + rest, sep) == Some((DigitsValue(t), rest))
  {
    var s := t + sep + rest;
    LeadingDigitsOf(t, sep + rest);
    assert s == t + (sep + rest);
    assert s[..|t|] == t;
    assert s[|t|..] == sep + rest;
    assert s[|t| + |sep|..] == rest;
  }

  lemma {:induction false} LeadingDigitsOf(t: string, u: string)
    requires AllDigits(t) && (u == [] || !IsDigit(u[0]))
    ensures LeadingDigits(t + u) == |t|
    decreases |t|
  {
    if t != [] {
      assert (t + u)[1..] == t[1..] + u;
      LeadingDigitsOf(t[1..], u);
    }
  }

  /** A matched name consists of three digit runs, separated by `_` and
      followed by `.jl`, and the three numbers are their values. */
  lemma ParseRegistryNameSound(name: string)
    requires ParseRegistryName(name).Some?
    ensures exists a, b, c, rest ::
      (a != [] && b != [] && c != [] && AllDigits(a) && AllDigits(b) && AllDigits(c) &&
       name == a + "_" + b + "_" + c + ".jl" + rest &&
       ParseRegistryName(name).value == (DigitsValue(a), DigitsValue(b), DigitsValue(c)))
  {
    var k1 := LeadingDigits(name);
    var a, r1 := name[..k1], name[k1 + 1..];
    assert name == a + "_" + r1 by {
      assert name[k1..][..1] == "_";
    }
    var k2 := LeadingDigits(r1);
    var b, r2 := r1[..k2], r1[k2 + 1..];
    assert r1 == b + "_" + r2 by {
      assert r1[k2..][..1] == "_";
    }
    var k3 := LeadingDigits(r2);
    var c, rest := r2[..k3], r2[k3 + 3..];
    assert r2 == c + ".jl" + rest by {
      assert r2[k3..][..3] == ".jl";
    }
    assert name == a + "_" + b + "_" + c + ".jl" + rest;
  }

  /** Conversely, three digit runs separated by `_` and followed by `.jl`,
      with anything after them, are matched and read as their values. */
  lemma ParseRegistryNameComplete(a: string, b: string, c: string, extra: string)
    requires a != [] && b != [] && c != [] && AllDigits(a) && AllDigits(b) && AllDigits(c)
    ensures ParseRegistryName(a + "_" + b + "_" + c + ".jl" + extra) == Some((DigitsValue(a), DigitsValue(b), DigitsValue(c)))
  {
    var name := a + "_" + b + "_" + c + ".jl" + extra;
    var r2 := c + ".jl" + extra;
    var r1 := b + "_" + r2;
    assert name == a + "_" + r1;
    assert "_"[0] == '_' && ".jl"[0] == '.';
    DigitsThenOf(a, "_", r1);
    DigitsThenOf(b, "_", r2);
    DigitsThenOf(c, ".jl", extra);
    assert DigitsThen(name, "_") == Some((DigitsValue(a), r1));
    assert DigitsThen(r1, "_") == Some((DigitsValue(b), r2));
    assert DigitsThen(r2, ".jl") == Some((DigitsValue(c), extra));
  }

  /** The name `registry_bench_path` renders, with anything after it, is
      matched and gives back the three numbers. */
  lemma ParseRegistryNameOf(inputSize: nat, batchSize: nat, index: nat, extra: string)
    ensures ParseRegistryName(RegistryFileName(inputSize, batchSize, index) + extra) == Some((inputSize, batchSize, index))
  {
    ParseRegistryNameComplete(NatToString(inputSize), NatToString(batchSize), Pad2(index), extra);
  }

  /** The index is rendered with two digits but matched with any number of
      them, so a listed name need not be the one the path of its record
      renders: `2000_32_1.jl` is listed with index 1, whose file is
      `2000_32_01.jl`. */
  lemma ShortIndexName(inputSize: nat, batchSize: nat, index: nat)
    requires index < 10
    ensures var name := NatToString(inputSize) + "_" + NatToString(batchSize) + "_" + NatToString(index) + ".jl";
      ParseRegistryName(name) == Some((inputSize, batchSize, index)) && name != RegistryFileName(inputSize, batchSize, index)
  {
    var name := NatToString(inputSize) + "_" + NatToString(batchSize) + "_" + NatToString(index) + ".jl";
    ParseRegistryNameComplete(NatToString(inputSize), NatToString(batchSize), NatToString(index), "");
    assert name + "" == name;
    assert |name| + 1 == |RegistryFileName(inputSize, batchSize, index)|;
  }

  /** Under a directory without a trailing `/` and model and task names
      without `/`, the path is the directory, model, task and file name
      joined by `/`, and its file name matches back to the three numbers. */
  lemma RegistryBenchPathOf(dir: string, model: string, task: string, inputSize: nat, batchSize: nat, index: nat)
    requires dir != [] && dir[|dir| - 1] != '/' && model != [] && '/' !in model && task != [] && '/' !in task
    ensures var name := RegistryFileName(inputSize, batchSize, index);
      RegistryBenchPath(dir, model, task, inputSize, batchSize, index) == dir + "/" + model + "/" + task + "/" + name &&
      '/' !in name && ParseRegistryName(name) == Some((inputSize, batchSize, index))
  {
    var name := RegistryFileName(inputSize, batchSize, index);
    FileNameNoSlash(inputSize, batchSize, index);
    PathJoinThrice(dir, model, task, name);
    ParseRegistryNameOf(inputSize, batchSize, index, "");
    assert name + "" == name;
  }

  lemma FileNameNoSlash(inputSize: nat, batchSize: nat, index: nat)
    ensures '/' !in RegistryFileName(inputSize, batchSize, index)
    ensures RegistryFileName(inputSize, batchSize, index)[0] != '/'
  {
    var a, b, c := NatToString(inputSize), NatToString(batchSize), Pad2(index);
    assert forall i :: 0 <= i < |a| ==> IsDigit(a[i]);
    assert forall i :: 0 <= i < |b| ==> IsDigit(b[i]);
    assert forall i :: 0 <= i < |c| ==> IsDigit(c[i]);
    assert '/' !in a && '/' !in b && '/' !in c && '/' !in "_" && '/' !in ".jl";
    var name := a + "_" + b + "_" + c + ".jl";
    assert RegistryFileName(inputSize, batchSize, index) == name;
    assert name[0] == a[0];
  }

  /** A field value of a record. */
  datatype Value = Str(s: string) | Int(n: int)

  /** A keyword argument of a query: a tuple or list of accepted values, or a
      single value, which stands for the list holding only it. */
  datatype Accepted = One(value: Value) | Many(values: seq<Value>)

  function AcceptedValues(a: Accepted): (r: seq<Value>)
    ensures a.One? ==> r == [a.value]
    ensures a.Many? ==> r == a.values
  {
    match a
    case One(v) => [v]
    case Many(vs) => vs
  }

  const Fields: set<string> := {"dir", "model", "task", "input_size", "batch_size", "index"}

  /** `getattr(record, key)`, `AttributeError` for a name that is not a field. */
  function Field(record: RegistryRecord, key: string): (r: Result<Value>)
    ensures r.Ok? <==> key in Fields
    ensures r.Err? ==> r.error == AttributeError
    ensures key == "model" ==> r == Ok(Str(record.model))
    ensures key == "task" ==> r == Ok(Str(record.task))
    ensures key == "input_size" ==> r == Ok(Int(record.inputSize))
    ensures key == "batch_size" ==> r == Ok(Int(record.batchSize))
  {
    if key == "dir" then Ok(Str(record.dir))
    else if key == "model" then Ok(Str(record.model))
    else if key == "task" then Ok(Str(record.task))
    else if key == "input_size" then Ok(Int(record.inputSize))
    else if key == "batch_size" then Ok(Int(record.batchSize))
    else if key == "index" then Ok(Int(record.index))
    else Err(AttributeError)
  }

  /** The keyword `key` accepts the record's value of that field. */
  predicate Accepts(record: RegistryRecord, key: string, accepted: Accepted) {
    key in Fields && Field(record, key).value in AcceptedValues(accepted)
  }

  /** `match_bench_registry_record`: the keywords in order; the first one
      whose field value is not accepted answers `False`, and a keyword that is
      not a field raises `AttributeError` once it is reached. */
  function MatchRecord(record: RegistryRecord, kwargs: seq<(string, Accepted)>): (r: Result<bool>)
    ensures r.Err? ==> r.error == AttributeError
    decreases |kwargs|
  {
    if kwargs == [] then Ok(true)
    else
      match Field(record, kwargs[0].0)
      case Err(e) => Err(e)
      case Ok(v) => if v !in AcceptedValues(kwargs[0].1) then Ok(false) else MatchRecord(record, kwargs[1..])
  }

  /** The position of the first keyword that does not accept the record,
      `|kwargs|` when all do. */
  function FirstRejecting(record: RegistryRecord, kwargs: seq<(string, Accepted)>): (k: nat)
    ensures k <= |kwargs|
    ensures forall i :: 0 <= i < k ==> Accepts(record, kwargs[i].0, kwargs[i].1)
    ensures k < |kwargs| ==> !Accepts(record, kwargs[k].0, kwargs[k].1)
    decreases |kwargs|
  {
    if kwargs == [] || !Accepts(record, kwargs[0].0, kwargs[0].1) then 0
    else
      var k := 1 + FirstRejecting(record, kwargs[1..]);
      assert forall i :: 1 <= i < |kwargs| ==> kwargs[1..][i - 1] == kwargs[i];
      k
  }

  /** A record matches exactly when every keyword accepts it; otherwise the
      first keyword that does not decides: `False` when it names a field,
      `AttributeError` when it does not. */
  lemma {:induction false} MatchRecordMeaning(record: RegistryRecord, kwargs: seq<(string, Accepted)>)
    ensures var k := FirstRejecting(record, kwargs);
      MatchRecord(record, kwargs) ==
        if k == |kwargs| then Ok(true)
        else if kwargs[k].0 in Fields then Ok(false)
        else Err(AttributeError)
    decreases |kwargs|
  {
    if kwargs != [] && Accepts(record, kwargs[0].0, kwargs[0].1) {
      MatchRecordMeaning(record, kwargs[1..]);
      assert forall i :: 1 <= i < |kwargs| ==> kwargs[1..][i - 1] == kwargs[i];
    }
  }

  /** Querying by model and task selects the records of that model and task. */
  lemma MatchModelTask(record: RegistryRecord, model: string, task: string)
    ensures MatchRecord(record, [("model", One(Str(model))), ("task", One(Str(task)))]) ==
      Ok(record.model == model && record.task == task)
  {
    var kwargs := [("model", One(Str(model))), ("task", One(Str(task)))];
    var rest := [("task", One(Str(task)))];
    assert kwargs[0].0 == "model" && kwargs[1..] == rest;
    assert rest[0].0 == "task" && rest[1..] == [];
    assert Field(record, "model") == Ok(Str(record.model));
    assert Field(record, "task") == Ok(Str(record.task));
    assert (Str(record.task) in [Str(task)]) == (record.task == task);
    assert MatchRecord(record, rest) == Ok(record.task == task);
    assert (Str(record.model) in [Str(model)]) == (record.model == model);
  }

  /** `query_bench_registry`: the records that match, in their order. The
      generator raises `AttributeError` at the first record whose match does. */
  function QueryRegistry(records: seq<RegistryRecord>, kwargs: seq<(string, Accepted)>): (r: Result<seq<RegistryRecord>>)
    ensures r.Err? ==> r.error == AttributeError
    ensures r.Ok? ==> |r.value| <= |records|
    decreases |records|
  {
    if records == [] then Ok([])
    else
      var n := |records| - 1;
      match QueryRegistry(records[..n], kwargs)
      case Err(e) => Err(e)
      case Ok(found) =>
        match MatchRecord(records[n], kwargs)
        case Err(e) => Err(e)
        case Ok(m) => Ok(if m then found + [records[n]] else found)
  }

  /** The query succeeds exactly when no record's match raises, and then holds
      exactly the matching records, each once for each time it is listed,
      in the order they are listed. */
  lemma {:induction false} QueryRegistryMeaning(records: seq<RegistryRecord>, kwargs: seq<(string, Accepted)>)
    ensures QueryRegistry(records, kwargs).Ok? <==> forall i :: 0 <= i < |records| ==> MatchRecord(records[i], kwargs).Ok?
    ensures QueryRegistry(records, kwargs).Ok? ==>
      QueryRegistry(records, kwargs).value == Selected(records, seq(|records|, i requires 0 <= i < |records| => MatchRecord(records[i], kwargs) == Ok(true)))
    decreases |records|
  {
    if records != [] {
      var n := |records| - 1;
      QueryRegistryMeaning(records[..n], kwargs);
      assert forall i :: 0 <= i < n ==> records[..n][i] == records[i];
      var keep := seq(|records|, i requires 0 <= i < |records| => MatchRecord(records[i], kwargs) == Ok(true));
      var keep' := seq(n, i requires 0 <= i < n => MatchRecord(records[..n][i], kwargs) == Ok(true));
      assert keep[..n] == keep';
      assert records[..n] == records[..|records| - 1];
    }
  }

  /** The entries of `xs` whose flag is set, in order. */
  function Selected(xs: seq<RegistryRecord>, keep: seq<bool>): (r: seq<RegistryRecord>)
    requires |keep| == |xs|
    ensures forall y :: y in r <==> exists i :: 0 <= i < |xs| && keep[i] && xs[i] == y
    decreases |xs|
  {
    if xs == [] then []
    else
      var n := |xs| - 1;
      var done := Selected(xs[..n], keep[..n]);
      assert forall i :: 0 <= i < n ==> xs[..n][i] == xs[i] && keep[..n][i] == keep[i];
      if keep[n] then done + [xs[n]] else done
  }

  /** A query without keywords lists every record. */
  lemma {:induction false} QueryAll(records: seq<RegistryRecord>)
    ensures QueryRegistry(records, []) == Ok(records)
    decreases |records|
  {
    if records != [] {
      var n := |records| - 1;
      QueryAll(records[..n]);
      assert records[..n] + [records[n]] == records;
    }
  }
}
