/** The report script's scores: the published leaderboard table, the metrics
    of a task as a `Score`, the data paths of the tasks, and the choice of the
    best configuration of the jiant grid. */
module Leaderboard {
  import opened Wrappers
  import opened Text
  import opened Numbers
  import opened Tasks

  /** `Score`: the metric of a task, or two metrics for the tasks scored twice. */
  datatype Score = Score(first: real, second: Option<real>)

  /** A row of the parsed leaderboard (model, task, score) or of the grid
      scores (configuration id, task, score). */
  datatype ScoreRow = ScoreRow(key: string, task: string, score: Score)

  const ScoreSep := " / "

  /** `first, second = map(float, parts)`: the values convert left to right
      and a third value, once converted, is one too many. */
  function ParsePair(parts: seq<string>): (r: Result<Score>)
    requires |parts| >= 2
    ensures r.Err? ==> r.error.ValueError?
    ensures r.Ok? ==> |parts| == 2 && r.value.second.Some?
  {
    match ParseFloat(parts[0])
    case Err(e) => Err(e)
    case Ok(a) =>
      match ParseFloat(parts[1])
      case Err(e) => Err(e)
      case Ok(b) =>
        if |parts| == 2 then Ok(Score(a, Some(b)))
        else if ParseFloat(parts[2]).Err? then Err(ParseFloat(parts[2]).error)
        else Err(ValueError("too many values to unpack"))
  }

  /** `parse_leaderboard_score`: `"a / b"` is a pair, anything else one number. */
  function ParseScore(value: string): (r: Result<Score>)
    ensures r.Err? ==> r.error.ValueError?
    ensures r.Ok? ==> (r.value.second.Some? <==> Contains(value, ScoreSep))
  {
    if Contains(value, ScoreSep) then
      SplitFound(value, ScoreSep);
      ParsePair(Split(value, ScoreSep))
    else
      match ParseFloat(value)
      case Err(e) => Err(e)
      case Ok(a) => Ok(Score(a, None))
  }

  lemma SplitFound(s: string, sep: string)
    requires sep != [] && Contains(s, sep)
    ensures |Split(s, sep)| >= 2
  {
  }

  /** A cell `"a / b"` whose halves hold no space and read as floats `x` and
      `y` reads as the pair; a cell `"a"` reads as the single number `x`. */
  lemma ParseScoreOfWords(a: string, b: string, x: real, y: real)
    requires ' ' !in a && ' ' !in b
    requires ParseFloat(a) == Ok(x) && ParseFloat(b) == Ok(y)
    ensures ParseScore(a + ScoreSep + b) == Ok(Score(x, Some(y)))
    ensures ParseScore(a) == Ok(Score(x, None))
  {
    if Contains(b, ScoreSep) {
      ContainsHead(b, ScoreSep);
    }
    if Contains(a, ScoreSep) {
      ContainsHead(a, ScoreSep);
    }
    var s := a + ScoreSep + b;
    SplitAt(a, ScoreSep, b);
    assert s[|a|..|a| + 3] == ScoreSep;
    assert OccursAt(s, ScoreSep, |a|);
  }

  /** A cell `"a / b"` of whole numbers reads as the pair, a cell `"a"` as the
      single number. */
  lemma ParseScoreOf(a: nat, b: nat)
    ensures ParseScore(NatToString(a) + ScoreSep + NatToString(b)) == Ok(Score(a as real, Some(b as real)))
    ensures ParseScore(NatToString(a)) == Ok(Score(a as real, None))
  {
    NatNoSpace(a);
    NatNoSpace(b);
    ParseFloatOfNatText(a);
    ParseFloatOfNatText(b);
    ParseScoreOfWords(NatToString(a), NatToString(b), a as real, b as real);
  }

  lemma NatNoSpace(n: nat)
    ensures ' ' !in NatToString(n)
  {
  }

  /** A cell of two decimals `w1.f1 / w2.f2`, such as `0.301 / 0.441`, reads as
      their values, and a cell `w1.f1` as the single value. */
  lemma ParseScoreOfDecimals(w1: nat, f1: string, w2: nat, f2: string)
    requires AllDigits(f1) && AllDigits(f2)
    ensures ParseScore(DecimalText(w1, f1) + ScoreSep + DecimalText(w2, f2))
         == Ok(Score(DecimalOf(w1, f1), Some(DecimalOf(w2, f2))))
    ensures ParseScore(DecimalText(w1, f1)) == Ok(Score(DecimalOf(w1, f1), None))
  {
    DecimalTextShape(w1, f1);
    DecimalTextShape(w2, f2);
    ParseFloatOfDecimalText(w1, f1);
    ParseFloatOfDecimalText(w2, f2);
    ParseScoreOfWords(DecimalText(w1, f1), DecimalText(w2, f2), DecimalOf(w1, f1), DecimalOf(w2, f2));
  }

  /** `name_offset`: the column of the model name. */
  const NameOffset := 1
  /** `scores_offset`: the first score column. */
  const ScoresOffset := 5

  /** `LEADERBOARD_RENAMES`: the leaderboard's model and task titles to the
      names used everywhere else. */
  const Renames: map<string, string> := map[
    "HUMAN BENCHMARK" := "human",
    "RuBERT plain" := "rubert",
    "RuGPT3Large" := "rugpt3-large",
    "RuBERT conversational" := "rubert-conversational",
    "Multilingual Bert" := "bert-multilingual",
    "RuGPT3Medium" := "rugpt3-medium",
    "RuGPT3Small" := "rugpt3-small",
    "Baseline TF-IDF1.1" := "tfidf",
    "LiDiRus" := "lidirus",
    "RCB" := "rcb",
    "PARus" := "parus",
    "MuSeRC" := "muserc",
    "TERRa" := "terra",
    "RUSSE" := "russe",
    "RWSD" := "rwsd",
    "DaNetQA" := "danetqa",
    "RuCoS" := "rucos"
  ]

  /** `record[scores_offset:]` */
  function ScoreCells(record: seq<string>): seq<string> {
    if |record| > ScoresOffset then record[ScoresOffset..] else []
  }

  /** `[renames[_] for _ in names]` */
  function RenameAll(renames: map<string, string>, names: seq<string>): (r: Result<seq<string>>)
    ensures r.Ok? <==> forall i :: 0 <= i < |names| ==> names[i] in renames
    ensures r.Err? ==> r.error == KeyError
    ensures r.Ok? ==> |r.value| == |names| && forall i :: 0 <= i < |names| ==> r.value[i] == renames[names[i]]
  {
    if forall i :: 0 <= i < |names| ==> names[i] in renames then
      Ok(seq(|names|, i requires 0 <= i < |names| => renames[names[i]]))
    else Err(KeyError)
  }

  /** The rows of one data record: its renamed model with each task and score,
      as far as both the tasks and the scores go (`zip`). */
  function RecordRows(renames: map<string, string>, tasks: seq<string>, record: seq<string>): (r: Result<seq<ScoreRow>>)
  {
    if |record| <= NameOffset then Err(IndexError)
    else if record[NameOffset] !in renames then Err(KeyError)
    else
      var model := renames[record[NameOffset]];
      match MapAll(ParseScore, ScoreCells(record))
      case Err(e) => Err(e)
      case Ok(scores) => Ok(Zip(model, tasks, scores))
  }

  /** `zip(tasks, scores)` with the model of the record. */
  function Zip(model: string, tasks: seq<string>, scores: seq<Score>): (r: seq<ScoreRow>)
    ensures |r| <= |tasks| && |r| <= |scores| && (|r| == |tasks| || |r| == |scores|)
    ensures forall j :: 0 <= j < |r| ==> r[j] == ScoreRow(model, tasks[j], scores[j])
  {
    var n := if |tasks| <= |scores| then |tasks| else |scores|;
    seq(n, j requires 0 <= j < n => ScoreRow(model, tasks[j], scores[j]))
  }

  /** The rows of a record name its model, and there is one per task column
      that has a score cell, holding that cell's score. */
  lemma RecordRowsMeaning(renames: map<string, string>, tasks: seq<string>, record: seq<string>)
    ensures RecordRows(renames, tasks, record).Ok? <==>
      |record| > NameOffset && record[NameOffset] in renames &&
      forall i :: 0 <= i < |ScoreCells(record)| ==> ParseScore(ScoreCells(record)[i]).Ok?
    ensures RecordRows(renames, tasks, record).Ok? ==>
      var rows := RecordRows(renames, tasks, record).value;
      var cells := ScoreCells(record);
      (|rows| == |tasks| || |rows| == |cells|) && |rows| <= |tasks| && |rows| <= |cells| &&
      forall j :: 0 <= j < |rows| ==>
        rows[j] == ScoreRow(renames[record[NameOffset]], tasks[j], ParseScore(cells[j]).value)
  {
    MapAllMeaning(ParseScore, ScoreCells(record));
  }

  /** The rows of a data record under the given task columns. */
  function RowsOf(renames: map<string, string>, tasks: seq<string>): seq<string> -> Result<seq<ScoreRow>> {
    record => RecordRows(renames, tasks, record)
  }

  /** The header names the tasks from column 5 on, renamed; each further
      record gives its renamed model with each task and its score. The header
      is taken with `next` inside a generator, so an empty table raises
      `RuntimeError`. */
  function ParseTable(renames: map<string, string>, records: seq<seq<string>>): Result<seq<ScoreRow>> {
    if records == [] then Err(RuntimeError)
    else
      match RenameAll(renames, ScoreCells(records[0]))
      case Err(e) => Err(e)
      case Ok(tasks) => FlatMapAll(RowsOf(renames, tasks), records[1..])
  }

  /** `parse_leaderboard`, with `LEADERBOARD_RENAMES`. */
  function ParseLeaderboard(records: seq<seq<string>>): Result<seq<ScoreRow>> {
    ParseTable(Renames, records)
  }

  /** A row whose key and task no other row shares is the one found for them. */
  lemma FindAt(rows: seq<ScoreRow>, k: int)
    requires 0 <= k < |rows|
    requires forall i, j :: 0 <= i < j < |rows| ==> !(rows[i].key == rows[j].key && rows[i].task == rows[j].task)
    ensures FindScore(rows, rows[k].key, rows[k].task) == Some(rows[k].score)
  {
    var found := FindScore(rows, rows[k].key, rows[k].task);
    var i :| 0 <= i < |rows| && rows[i].key == rows[k].key && rows[i].task == rows[k].task && rows[i].score == found.value;
    assert i == k;
  }

  /** `find_leaderboard_score` and `find_grid_score`: the score of the first row
      of the key and the task, `None` when there is none. */
  function FindScore(rows: seq<ScoreRow>, key: string, task: string): (r: Option<Score>)
    ensures r.None? <==> forall i :: 0 <= i < |rows| ==> !(rows[i].key == key && rows[i].task == task)
    ensures r.Some? ==>
      exists i :: 0 <= i < |rows| && rows[i].key == key && rows[i].task == task && rows[i].score == r.value &&
        forall j :: 0 <= j < i ==> !(rows[j].key == key && rows[j].task == task)
    decreases |rows|
  {
    if rows == [] then None
    else if rows[0].key == key && rows[0].task == task then Some(rows[0].score)
    else
      var r := FindScore(rows[1..], key, task);
      assert forall i :: 1 <= i < |rows| ==> rows[1..][i - 1] == rows[i];
      if r.Some? then
        var i :| 0 <= i < |rows[1..]| && rows[1..][i].key == key && rows[1..][i].task == task &&
          rows[1..][i].score == r.value && forall j :: 0 <= j < i ==> !(rows[1..][j].key == key && rows[1..][j].task == task);
        assert rows[i + 1] == rows[1..][i];
        r
      else r
  }

  /** The leaderboard answers for every cell: when no other record is renamed
      to the model of record `k` and no other column to the task of column `j`,
      the score found for that model and task is the one the cell holds. */
  lemma TableCell(renames: map<string, string>, records: seq<seq<string>>, k: int, j: int)
    requires ParseTable(renames, records).Ok?
    requires 1 <= k < |records| && 0 <= j && ScoresOffset + j < |records[0]| && ScoresOffset + j < |records[k]|
    requires records[k][NameOffset] in renames && records[0][ScoresOffset + j] in renames
    requires forall m :: 1 <= m < |records| && m != k && |records[m]| > NameOffset && records[m][NameOffset] in renames ==>
      renames[records[m][NameOffset]] != renames[records[k][NameOffset]]
    requires forall c :: ScoresOffset <= c < |records[0]| && c != ScoresOffset + j && records[0][c] in renames ==>
      renames[records[0][c]] != renames[records[0][ScoresOffset + j]]
    ensures ParseScore(records[k][ScoresOffset + j]).Ok?
    ensures FindScore(ParseTable(renames, records).value, renames[records[k][NameOffset]], renames[records[0][ScoresOffset + j]])
      == Some(ParseScore(records[k][ScoresOffset + j]).value)
  {
    var tasks := RenameAll(renames, ScoreCells(records[0])).value;
    assert ParseTable(renames, records) == FlatMapAll(RowsOf(renames, tasks), records[1..]);
    HeaderTasks(renames, records[0], j);
    DataNames(renames, records, k);
    DataCell(renames, tasks, records[1..], k - 1, j);
    assert records[1..][k - 1] == records[k];
  }

  /** Renamed task columns that no other column is renamed like are distinct. */
  lemma HeaderTasks(renames: map<string, string>, header: seq<string>, j: int)
    requires RenameAll(renames, ScoreCells(header)).Ok? && 0 <= j && ScoresOffset + j < |header|
    requires forall c :: ScoresOffset <= c < |header| && c != ScoresOffset + j && header[c] in renames ==>
      renames[header[c]] != renames[header[ScoresOffset + j]]
    ensures var tasks := RenameAll(renames, ScoreCells(header)).value;
      j < |tasks| && tasks[j] == renames[header[ScoresOffset + j]] &&
      forall c :: 0 <= c < |tasks| && c != j ==> tasks[c] != tasks[j]
  {
    var cells := ScoreCells(header);
    var tasks := RenameAll(renames, cells).value;
    assert cells[j] == header[ScoresOffset + j];
    forall c | 0 <= c < |tasks| && c != j ensures tasks[c] != tasks[j] {
      assert cells[c] == header[ScoresOffset + c];
    }
  }

  /** The data records are the records after the header. */
  lemma DataNames(renames: map<string, string>, records: seq<seq<string>>, k: int)
    requires 1 <= k < |records| && |records[k]| > NameOffset && records[k][NameOffset] in renames
    requires forall m :: 1 <= m < |records| && m != k && |records[m]| > NameOffset && records[m][NameOffset] in renames ==>
      renames[records[m][NameOffset]] != renames[records[k][NameOffset]]
    ensures var data := records[1..];
      data[k - 1] == records[k] &&
      forall m :: 0 <= m < |data| && m != k - 1 && |data[m]| > NameOffset && data[m][NameOffset] in renames ==>
        renames[data[m][NameOffset]] != renames[data[k - 1][NameOffset]]
  {
    var data := records[1..];
    forall m | 0 <= m < |data| && m != k - 1 && |data[m]| > NameOffset && data[m][NameOffset] in renames
      ensures renames[data[m][NameOffset]] != renames[data[k - 1][NameOffset]]
    {
      assert data[m] == records[m + 1];
    }
  }

  /** `TableCell` over the task columns and the data records. */
  lemma DataCell(renames: map<string, string>, tasks: seq<string>, data: seq<seq<string>>, m0: int, j: int)
    requires FlatMapAll(RowsOf(renames, tasks), data).Ok?
    requires 0 <= m0 < |data| && 0 <= j < |tasks| && ScoresOffset + j < |data[m0]|
    requires forall c :: 0 <= c < |tasks| && c != j ==> tasks[c] != tasks[j]
    requires data[m0][NameOffset] in renames
    requires forall m :: 0 <= m < |data| && m != m0 && |data[m]| > NameOffset && data[m][NameOffset] in renames ==>
      renames[data[m][NameOffset]] != renames[data[m0][NameOffset]]
    ensures data[m0][NameOffset] in renames && ParseScore(data[m0][ScoresOffset + j]).Ok?
    ensures FindScore(FlatMapAll(RowsOf(renames, tasks), data).value, renames[data[m0][NameOffset]], tasks[j])
      == Some(ParseScore(data[m0][ScoresOffset + j]).value)
  {
    FlatMapAllMeaning(RowsOf(renames, tasks), data);
    assert RowsOf(renames, tasks)(data[m0]).Ok?;
    var cell := CellUnique(renames, tasks, data, m0, j);
    FindUniqueAll(RowsOf(renames, tasks), data, m0, cell);
  }

  /** When a row is among the rows and every row with its key and task is
      that row, the search finds its score. */
  lemma FindUnique(rows: seq<ScoreRow>, cell: ScoreRow)
    requires cell in rows
    requires forall x :: x in rows && x.key == cell.key && x.task == cell.task ==> x == cell
    ensures FindScore(rows, cell.key, cell.task) == Some(cell.score)
  {
    var c :| 0 <= c < |rows| && rows[c] == cell;
    var found := FindScore(rows, cell.key, cell.task);
    var i :| 0 <= i < |rows| && rows[i].key == cell.key && rows[i].task == cell.task && rows[i].score == found.value;
    assert rows[i] in rows;
  }

  /** `FindUnique` over the rows of several records. */
  lemma FindUniqueAll<A>(f: A -> Result<seq<ScoreRow>>, data: seq<A>, m0: int, cell: ScoreRow)
    requires FlatMapAll(f, data).Ok?
    requires 0 <= m0 < |data| && f(data[m0]).Ok? && cell in f(data[m0]).value
    requires forall m, x :: 0 <= m < |data| && f(data[m]).Ok? && x in f(data[m]).value && x.key == cell.key && x.task == cell.task ==> x == cell
    ensures FindScore(FlatMapAll(f, data).value, cell.key, cell.task) == Some(cell.score)
  {
    var rows := FlatMapAll(f, data).value;
    FlatMapAllMeaning(f, data);
    forall x | x in rows && x.key == cell.key && x.task == cell.task ensures x == cell {
      var m :| 0 <= m < |data| && x in f(data[m]).value;
    }
    FindUnique(rows, cell);
  }

  /** With distinct task columns and no other record renamed to the same
      model, the row of record `m0` and column `j`
      is the only one with its model and task. */
  lemma CellUnique(renames: map<string, string>, tasks: seq<string>, data: seq<seq<string>>, m0: int, j: int) returns (cell: ScoreRow)
    requires 0 <= m0 < |data| && 0 <= j < |tasks| && ScoresOffset + j < |data[m0]|
    requires RecordRows(renames, tasks, data[m0]).Ok?
    requires forall c :: 0 <= c < |tasks| && c != j ==> tasks[c] != tasks[j]
    requires forall m :: 0 <= m < |data| && m != m0 && |data[m]| > NameOffset && data[m][NameOffset] in renames ==>
      renames[data[m][NameOffset]] != renames[data[m0][NameOffset]]
    ensures ParseScore(data[m0][ScoresOffset + j]).Ok?
    ensures cell == ScoreRow(renames[data[m0][NameOffset]], tasks[j], ParseScore(data[m0][ScoresOffset + j]).value)
    ensures cell in RecordRows(renames, tasks, data[m0]).value
    ensures forall m, x ::
      (0 <= m < |data| && RecordRows(renames, tasks, data[m]).Ok? && x in RecordRows(renames, tasks, data[m]).value &&
       x.key == cell.key && x.task == cell.task) ==> x == cell
  {
    CellRow(renames, tasks, data[m0], j);
    cell := ScoreRow(renames[data[m0][NameOffset]], tasks[j], ParseScore(data[m0][ScoresOffset + j]).value);
    forall m, x | 0 <= m < |data| && RecordRows(renames, tasks, data[m]).Ok? && x in RecordRows(renames, tasks, data[m]).value &&
      x.key == cell.key && x.task == cell.task
      ensures x == cell
    {
      OwnRow(renames, tasks, data[m], x);
      assert m == m0;
      var c :| 0 <= c < |tasks| && ScoresOffset + c < |data[m0]| && ParseScore(data[m0][ScoresOffset + c]).Ok? &&
        x == ScoreRow(renames[data[m0][NameOffset]], tasks[c], ParseScore(data[m0][ScoresOffset + c]).value);
      assert c == j;
    }
  }

  /** Column `j` of a record that parses is among its rows. */
  lemma CellRow(renames: map<string, string>, tasks: seq<string>, record: seq<string>, j: int)
    requires RecordRows(renames, tasks, record).Ok? && 0 <= j < |tasks| && ScoresOffset + j < |record|
    ensures ParseScore(record[ScoresOffset + j]).Ok?
    ensures ScoreRow(renames[record[NameOffset]], tasks[j], ParseScore(record[ScoresOffset + j]).value) in RecordRows(renames, tasks, record).value
  {
    var cells := ScoreCells(record);
    var scores := MapAll(ParseScore, cells).value;
    var rows := RecordRows(renames, tasks, record).value;
    assert rows == Zip(renames[record[NameOffset]], tasks, scores);
    MapAllMeaning(ParseScore, cells);
    assert cells[j] == record[ScoresOffset + j];
    assert rows[j] == ScoreRow(renames[record[NameOffset]], tasks[j], scores[j]);
  }

  /** Every row of a record is the row of one of its columns. */
  lemma OwnRow(renames: map<string, string>, tasks: seq<string>, record: seq<string>, x: ScoreRow)
    requires RecordRows(renames, tasks, record).Ok? && x in RecordRows(renames, tasks, record).value
    ensures record[NameOffset] in renames && x.key == renames[record[NameOffset]]
    ensures exists c :: (0 <= c < |tasks| && ScoresOffset + c < |record| && ParseScore(record[ScoresOffset + c]).Ok? &&
      x == ScoreRow(renames[record[NameOffset]], tasks[c], ParseScore(record[ScoresOffset + c]).value))
  {
    var cells := ScoreCells(record);
    var scores := MapAll(ParseScore, cells).value;
    var rows := RecordRows(renames, tasks, record).value;
    assert rows == Zip(renames[record[NameOffset]], tasks, scores);
    MapAllMeaning(ParseScore, cells);
    var c :| 0 <= c < |rows| && rows[c] == x;
    assert cells[c] == record[ScoresOffset + c];
    assert rows[c] == ScoreRow(renames[record[NameOffset]], tasks[c], scores[c]);
  }

  /** `TASK_METRICS`: the metric of a task, or the pair of metrics of the
      tasks scored twice. */
  datatype Metric = Single(name: string) | Pair(first: string, second: string)

  const TaskMetrics: map<string, Metric> := map[
    "danetqa" := Single("accuracy"),
    "muserc" := Pair("ans_f1", "em"),
    "parus" := Single("accuracy"),
    "rcb" := Pair("f1", "accuracy"),
    "rucos" := Pair("f1", "em"),
    "russe" := Single("accuracy"),
    "rwsd" := Single("acc"),
    "terra" := Single("accuracy"),
    "lidirus" := Single("all_mcc")
  ]

  /** `metrics_score`: the task's metric from the evaluation results, or its
      two metrics; an unknown task or a missing metric raises `KeyError`. */
  function MetricsScore(task: string, metrics: map<string, real>): (r: Result<Score>)
    ensures r.Err? ==> r.error == KeyError
  {
    if task !in TaskMetrics then Err(KeyError)
    else
      match TaskMetrics[task]
      case Single(name) =>
        if name in metrics then Ok(Score(metrics[name], None)) else Err(KeyError)
      case Pair(a, b) =>
        if a in metrics && b in metrics then Ok(Score(metrics[a], Some(metrics[b]))) else Err(KeyError)
  }

  /** The metric a task is scored by first: F1 for muserc (over answers), rcb
      and rucos, `acc` for rwsd, `all_mcc` for lidirus, accuracy otherwise. */
  function PrimaryMetric(task: string): string {
    if task == "muserc" then "ans_f1"
    else if task == "rcb" || task == "rucos" then "f1"
    else if task == "rwsd" then "acc"
    else if task == "lidirus" then "all_mcc"
    else "accuracy"
  }

  /** The second metric of the tasks scored twice: accuracy for rcb, exact match for muserc and rucos. */
  function SecondaryMetric(task: string): Option<string> {
    if task == "rcb" then Some("accuracy")
    else if task == "muserc" || task == "rucos" then Some("em")
    else None
  }

  /** A known task is scored when the results hold each of its metrics;
      the score is those metrics' values, in order. */
  lemma MetricsScoreMeaning(task: string, metrics: map<string, real>)
    ensures MetricsScore(task, metrics).Ok? <==>
      task in TaskNames && PrimaryMetric(task) in metrics &&
      (SecondaryMetric(task).Some? ==> SecondaryMetric(task).value in metrics)
    ensures MetricsScore(task, metrics).Ok? ==>
      MetricsScore(task, metrics).value.first == metrics[PrimaryMetric(task)] &&
      (MetricsScore(task, metrics).value.second.Some? <==> SecondaryMetric(task).Some?) &&
      (SecondaryMetric(task).Some? ==>
        MetricsScore(task, metrics).value.second.value == metrics[SecondaryMetric(task).value])
  {
  }

  /** `score_value`: the mean of the two metrics when the second is truthy,
      otherwise the first alone (a second of 0.0 counts as absent). */
  function ScoreValue(s: Score): (r: real)
    ensures (s.second.None? || s.second.value == 0.0) ==> r == s.first
    ensures s.second.Some? && s.second.value != 0.0 ==>
      r - s.first == s.second.value - r &&
      (s.first <= r <= s.second.value || s.second.value <= r <= s.first)
  {
    if s.second.Some? && s.second.value != 0.0 then (s.first + s.second.value) / 2.0 else s.first
  }

  /** The file name of a split: the test split is `test_with_answers` in the
      private data and the task title for public lidirus. */
  function SplitFile(task: string, access: string, split: string, title: string): (r: string)
    ensures split != "test" ==> r == split
    ensures split == "test" && access == "private" ==> r == "test_with_answers"
    ensures split == "test" && access == "public" ==> r == if task == "lidirus" then title else "test"
  {
    if split == "test" && access == "public" && task == "lidirus" then title
    else if split == "test" && access == "private" then "test_with_answers"
    else split
  }

  /** `task_path` of the report script: `dir/<access>/<title>/<file>.jsonl`. */
  function TaskPath(task: string, access: string, split: string, dir: string): (r: Result<string>)
    ensures r.Ok? <==> task in TaskNames
    ensures r.Err? ==> r.error == KeyError
  {
    match TaskTitle(task)
    case Err(e) => Err(e)
    case Ok(title) =>
      Ok(PathJoin(PathJoin(PathJoin(dir, access), title), SplitFile(task, access, split, title) + ".jsonl"))
  }

  /** Under a directory without a trailing `/`, an access name free of `/` and
      a relative split name, the path is `dir/<access>/<title>/<file>.jsonl`. */
  lemma TaskPathOf(task: string, access: string, split: string, dir: string, title: string)
    requires dir != [] && dir[|dir| - 1] != '/' && access != [] && '/' !in access && (split == [] || split[0] != '/')
    requires TaskTitle(task) == Ok(title)
    ensures TaskPath(task, access, split, dir) == Ok(dir + "/" + access + "/" + title + "/" + SplitFile(task, access, split, title) + ".jsonl")
  {
    var name := SplitFile(task, access, split, title);
    FileRelative(name, split, title);
    assert TaskPath(task, access, split, dir) == Ok(PathJoin(PathJoin(PathJoin(dir, access), title), name + ".jsonl"));
    PathJoinThrice(dir, access, title, name + ".jsonl");
    var head := dir + "/" + access + "/" + title + "/";
    assert head + (name + ".jsonl") == head + name + ".jsonl";
  }

  lemma FileRelative(name: string, split: string, title: string)
    requires name == split || name == title || name == "test_with_answers"
    requires (split == [] || split[0] != '/') && title != [] && '/' !in title
    ensures (name + ".jsonl")[0] != '/'
  {
    var file := name + ".jsonl";
    if name == [] {
      assert file[0] == '.';
    } else {
      assert file[0] == name[0];
      if name == title {
        assert name[0] in title;
      }
    }
  }

  /** `JiantGridConf`: a configuration of the jiant grid, a model and a seed. */
  datatype GridConf = GridConf(id: string, model: string, seed: int)

  /** `JIANT_GRID_CONFS` */
  const GridConfs: seq<GridConf> := [
    GridConf("01", "rubert-conversational", 111), GridConf("02", "rubert-conversational", 2),
    GridConf("03", "rubert-conversational", 3), GridConf("04", "rubert", 1),
    GridConf("05", "rubert", 2), GridConf("06", "rubert", 3), GridConf("07", "rubert", 4),
    GridConf("08", "rubert", 5), GridConf("09", "rubert", 6), GridConf("10", "rubert", 7),
    GridConf("11", "rubert", 8), GridConf("12", "rubert-conversational", 4),
    GridConf("13", "rubert-conversational", 5), GridConf("14", "rubert-conversational", 6),
    GridConf("15", "rubert-conversational", 7), GridConf("16", "rubert-conversational", 8),
    GridConf("17", "rubert", 9), GridConf("18", "rugpt3-small", 1), GridConf("19", "rugpt3-medium", 1),
    GridConf("20", "bert-multilingual", 1), GridConf("21", "bert-multilingual", 2),
    GridConf("22", "bert-multilingual", 3), GridConf("23", "rugpt3-medium", 2),
    GridConf("24", "rugpt3-medium", 3), GridConf("25", "rugpt3-small", 2), GridConf("26", "rugpt3-small", 3),
    GridConf("27", "rugpt3-large", 1), GridConf("28", "rugpt3-medium", 4), GridConf("29", "rugpt3-small", 4),
    GridConf("30", "rugpt3-large", 2)
  ]

  /** `{_.id: _ for _ in confs}`: each id to its configuration, a later one
      replacing an earlier one of the same id. */
  function ConfIndex(confs: seq<GridConf>): (r: map<string, GridConf>)
    ensures forall id :: id in r <==> exists i :: 0 <= i < |confs| && confs[i].id == id
    ensures forall id :: id in r ==> r[id].id == id && r[id] in confs
    decreases |confs|
  {
    if confs == [] then map[]
    else
      var n := |confs| - 1;
      var r := ConfIndex(confs[..n]);
      assert forall i :: 0 <= i < n ==> confs[..n][i] == confs[i];
      r[confs[n].id := confs[n]]
  }

  /** `confs[i]` is the last configuration with its id. */
  predicate LastOf(confs: seq<GridConf>, i: int) {
    0 <= i < |confs| && forall k :: i < k < |confs| ==> confs[k].id != confs[i].id
  }

  /** Each id is indexed to the last configuration carrying it. */
  lemma {:induction false} ConfIndexLast(confs: seq<GridConf>, id: string)
    requires id in ConfIndex(confs)
    ensures exists i :: LastOf(confs, i) && ConfIndex(confs)[id] == confs[i]
    decreases |confs|
  {
    var n := |confs| - 1;
    var init := confs[..n];
    assert ConfIndex(confs) == ConfIndex(init)[confs[n].id := confs[n]];
    if id == confs[n].id {
      assert LastOf(confs, n);
    } else {
      assert id in ConfIndex(init);
      ConfIndexLast(init, id);
      var i :| LastOf(init, i) && ConfIndex(init)[id] == init[i];
      assert init[i].id == id;
      forall k | i < k < |confs|
        ensures confs[k].id != confs[i].id
      {
        if k < n {
          assert confs[k] == init[k];
        }
      }
      assert LastOf(confs, i);
    }
  }

  /** A grid row of the model and the task, its configuration being known. */
  predicate Candidate(row: ScoreRow, index: map<string, GridConf>, model: string, task: string) {
    row.key in index && index[row.key].model == model && row.task == task
  }

  /** The running choice of `select_top_conf` after some rows: the id chosen so
      far with its score value; a row of an unknown configuration raises `KeyError`. */
  function TopSoFar(rows: seq<ScoreRow>, index: map<string, GridConf>, model: string, task: string): Result<Option<(string, real)>>
    decreases |rows|
  {
    if rows == [] then Ok(None)
    else
      var n := |rows| - 1;
      match TopSoFar(rows[..n], index, model, task)
      case Err(e) => Err(e)
      case Ok(best) =>
        var row := rows[n];
        var score := ScoreValue(row.score);
        if row.key !in index then Err(KeyError)
        else if Candidate(row, index, model, task) && (best.None? || best.value.1 < score) then Ok(Some((row.key, score)))
        else Ok(best)
  }

  /** The result of `select_top_conf`. */
  function TopConf(task: string, model: string, rows: seq<ScoreRow>, confs: seq<GridConf>): Result<Option<string>> {
    match TopSoFar(rows, ConfIndex(confs), model, task)
    case Err(e) => Err(e)
    case Ok(best) => Ok(if best.Some? then Some(best.value.0) else None)
  }

  /** Once a row names an unknown configuration the choice fails for good. */
  lemma {:induction false} TopErrPrefix(rows: seq<ScoreRow>, index: map<string, GridConf>, model: string, task: string, i: nat)
    requires i <= |rows| && TopSoFar(rows[..i], index, model, task).Err?
    ensures TopSoFar(rows, index, model, task) == TopSoFar(rows[..i], index, model, task)
    decreases |rows| - i
  {
    if i < |rows| {
      var n := |rows| - 1;
      assert rows[..n][..i] == rows[..i];
      TopErrPrefix(rows[..n], index, model, task, i);
    } else {
      assert rows[..i] == rows;
    }
  }

  /** `select_top_conf`: scans the grid rows keeping the first row of the
      model and the task whose score value beats every earlier one. */
  method SelectTopConf(task: string, model: string, rows: seq<ScoreRow>, confs: seq<GridConf>) returns (r: Result<Option<string>>)
    ensures r == TopConf(task, model, rows, confs)
  {
    var index := ConfIndex(confs);
    var id: Option<string> := None;
    var maxScore: Option<real> := None;
    var i := 0;
    while i < |rows|
      invariant 0 <= i <= |rows|
      invariant id.Some? == maxScore.Some?
      invariant TopSoFar(rows[..i], index, model, task) == Ok(if id.Some? then Some((id.value, maxScore.value)) else None)
    {
      var score := ScoreValue(rows[i].score);
      assert rows[..i + 1][..i] == rows[..i];
      if rows[i].key !in index {
        TopErrPrefix(rows, index, model, task, i + 1);
        return Err(KeyError);
      }
      var conf := index[rows[i].key];
      if conf.model == model && rows[i].task == task && (maxScore.None? || maxScore.value < score) {
        id := Some(rows[i].key);
        maxScore := Some(score);
      }
      i := i + 1;
    }
    assert rows[..|rows|] == rows;
    return Ok(id);
  }

  /** Row `k` is a candidate whose score value is strictly above every earlier
      candidate's and not below any later one's. */
  predicate IsTop(rows: seq<ScoreRow>, index: map<string, GridConf>, model: string, task: string, k: int)
    requires 0 <= k < |rows|
  {
    Candidate(rows[k], index, model, task) &&
    (forall j :: 0 <= j < k && Candidate(rows[j], index, model, task) ==> ScoreValue(rows[j].score) < ScoreValue(rows[k].score)) &&
    (forall j :: k < j < |rows| && Candidate(rows[j], index, model, task) ==> ScoreValue(rows[j].score) <= ScoreValue(rows[k].score))
  }

  /** The running choice fails exactly on a row of an unknown configuration. */
  lemma {:induction false} TopSoFarErr(rows: seq<ScoreRow>, index: map<string, GridConf>, model: string, task: string)
    ensures TopSoFar(rows, index, model, task).Err? <==> exists i :: 0 <= i < |rows| && rows[i].key !in index
    ensures TopSoFar(rows, index, model, task).Err? ==> TopSoFar(rows, index, model, task).error == KeyError
    decreases |rows|
  {
    if rows != [] {
      var n := |rows| - 1;
      TopSoFarErr(rows[..n], index, model, task);
      assert forall i :: 0 <= i < n ==> rows[..n][i] == rows[i];
    }
  }

  /** The running choice is empty exactly when every configuration is known
      and no row is a candidate. */
  lemma {:induction false} TopSoFarNone(rows: seq<ScoreRow>, index: map<string, GridConf>, model: string, task: string)
    ensures TopSoFar(rows, index, model, task) == Ok(None) <==>
      (forall i :: 0 <= i < |rows| ==> rows[i].key in index) && forall i :: 0 <= i < |rows| ==> !Candidate(rows[i], index, model, task)
    decreases |rows|
  {
    if rows != [] {
      var n := |rows| - 1;
      TopSoFarNone(rows[..n], index, model, task);
      TopSoFarErr(rows[..n], index, model, task);
      assert forall i :: 0 <= i < n ==> rows[..n][i] == rows[i];
    }
  }

  /** A chosen row stays chosen when the next row does not beat it. */
  lemma TopExtend(rows: seq<ScoreRow>, index: map<string, GridConf>, model: string, task: string, k: int)
    requires 0 <= k < |rows| - 1 && IsTop(rows[..|rows| - 1], index, model, task, k)
    requires !Candidate(rows[|rows| - 1], index, model, task) || ScoreValue(rows[|rows| - 1].score) <= ScoreValue(rows[k].score)
    ensures IsTop(rows, index, model, task, k)
  {
    var n := |rows| - 1;
    assert forall i :: 0 <= i < n ==> rows[..n][i] == rows[i];
  }

  /** The last row is chosen when it beats the earlier choice, or when there was none. */
  lemma TopLast(rows: seq<ScoreRow>, index: map<string, GridConf>, model: string, task: string, k: int)
    requires |rows| > 0 && Candidate(rows[|rows| - 1], index, model, task)
    requires k == -1 ==> forall i :: 0 <= i < |rows| - 1 ==> !Candidate(rows[i], index, model, task)
    requires k != -1 ==> (0 <= k < |rows| - 1 && IsTop(rows[..|rows| - 1], index, model, task, k) &&
      ScoreValue(rows[k].score) < ScoreValue(rows[|rows| - 1].score))
    ensures IsTop(rows, index, model, task, |rows| - 1)
  {
    var n := |rows| - 1;
    assert forall i :: 0 <= i < n ==> rows[..n][i] == rows[i];
  }

  /** A non-empty running choice is the top row, with its score value. */
  lemma {:induction false} TopSoFarSome(rows: seq<ScoreRow>, index: map<string, GridConf>, model: string, task: string)
    ensures TopSoFar(rows, index, model, task).Ok? && TopSoFar(rows, index, model, task).value.Some? ==>
      exists k :: 0 <= k < |rows| && IsTop(rows, index, model, task, k) &&
        rows[k].key == TopSoFar(rows, index, model, task).value.value.0 &&
        ScoreValue(rows[k].score) == TopSoFar(rows, index, model, task).value.value.1
    decreases |rows|
  {
    var t := TopSoFar(rows, index, model, task);
    if rows != [] && t.Ok? && t.value.Some? {
      var n := |rows| - 1;
      var prefix := rows[..n];
      TopSoFarSome(prefix, index, model, task);
      var before := TopSoFar(prefix, index, model, task).value;
      var last := rows[n];
      if Candidate(last, index, model, task) && (before.None? || before.value.1 < ScoreValue(last.score)) {
        if before.None? {
          TopSoFarNone(prefix, index, model, task);
          TopLast(rows, index, model, task, -1);
        } else {
          var k :| 0 <= k < n && IsTop(prefix, index, model, task, k) && prefix[k].key == before.value.0 &&
            ScoreValue(prefix[k].score) == before.value.1;
          assert rows[k] == prefix[k];
          TopLast(rows, index, model, task, k);
        }
      } else {
        var k :| 0 <= k < n && IsTop(prefix, index, model, task, k) && prefix[k].key == before.value.0 &&
          ScoreValue(prefix[k].score) == before.value.1;
        assert rows[k] == prefix[k];
        TopExtend(rows, index, model, task, k);
      }
    }
  }

  /** `select_top_conf` fails exactly on a grid row of an unknown
      configuration, gives `None` exactly when no row is of the model and the
      task, and otherwise the id of the earliest row with the strictly largest
      score value. */
  lemma TopConfMeaning(task: string, model: string, rows: seq<ScoreRow>, confs: seq<GridConf>)
    ensures TopConf(task, model, rows, confs).Err? <==>
      exists i :: 0 <= i < |rows| && forall c :: 0 <= c < |confs| ==> confs[c].id != rows[i].key
    ensures TopConf(task, model, rows, confs) == Ok(None) <==>
      (forall i :: 0 <= i < |rows| ==> rows[i].key in ConfIndex(confs)) &&
      forall i :: 0 <= i < |rows| ==> !Candidate(rows[i], ConfIndex(confs), model, task)
    ensures TopConf(task, model, rows, confs).Ok? && TopConf(task, model, rows, confs).value.Some? ==>
      exists k :: 0 <= k < |rows| && IsTop(rows, ConfIndex(confs), model, task, k) &&
        rows[k].key == TopConf(task, model, rows, confs).value.value
  {
    var index := ConfIndex(confs);
    TopSoFarErr(rows, index, model, task);
    TopSoFarNone(rows, index, model, task);
    TopSoFarSome(rows, index, model, task);
  }

  /** `find_grid_score` for the chosen configuration: when no two grid rows
      share a configuration and a task, it finds the chosen row's score, whose
      value no other candidate exceeds. */
  lemma TopConfScore(task: string, model: string, rows: seq<ScoreRow>, confs: seq<GridConf>)
    requires forall i, j :: 0 <= i < j < |rows| ==> !(rows[i].key == rows[j].key && rows[i].task == rows[j].task)
    requires TopConf(task, model, rows, confs).Ok? && TopConf(task, model, rows, confs).value.Some?
    ensures var id := TopConf(task, model, rows, confs).value.value;
      FindScore(rows, id, task).Some? &&
      forall j :: 0 <= j < |rows| && Candidate(rows[j], ConfIndex(confs), model, task) ==>
        ScoreValue(rows[j].score) <= ScoreValue(FindScore(rows, id, task).value)
  {
    var id := TopConf(task, model, rows, confs).value.value;
    var index := ConfIndex(confs);
    TopSoFarSome(rows, index, model, task);
    var k :| 0 <= k < |rows| && IsTop(rows, index, model, task, k) && rows[k].key == id;
    FindAt(rows, k);
    forall j | 0 <= j < |rows| && Candidate(rows[j], index, model, task)
      ensures ScoreValue(rows[j].score) <= ScoreValue(rows[k].score)
    {
      if j < k {
        assert ScoreValue(rows[j].score) < ScoreValue(rows[k].score);
      }
    }
  }
}
