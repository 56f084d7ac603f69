/** What `eval_other` and `eval_muserc` hand to the jiant metrics: predicted
    labels, and target labels joined to the predictions by id. */
module JiantEval {
  import opened Wrappers
  import opened Dicts
  import opened RsgBatching
  import opened RsgPointwise
  import opened JiantLabels

  // Id dictionaries

  /** `d[k] = v` for each pair in turn, starting from `{}`. */
  function Collect<K(==), V>(pairs: seq<(K, V)>): Dict<K, V>
    decreases |pairs|
  {
    if pairs == [] then []
    else
      var n := |pairs| - 1;
      Put(Collect(pairs[..n]), pairs[n].0, pairs[n].1)
  }

  /** The last position whose key is `k`. */
  function LastWith<K(==), V>(pairs: seq<(K, V)>, k: K): (r: Option<nat>)
    ensures r.Some? ==> r.value < |pairs| && pairs[r.value].0 == k
    ensures r.Some? ==> forall j :: r.value < j < |pairs| ==> pairs[j].0 != k
    ensures r.None? ==> forall j :: 0 <= j < |pairs| ==> pairs[j].0 != k
    decreases |pairs|
  {
    if pairs == [] then None
    else if pairs[|pairs| - 1].0 == k then Some(|pairs| - 1)
    else LastWith(pairs[..|pairs| - 1], k)
  }

  /** A key maps to the value of its last pair; a key without a pair is absent. */
  lemma {:induction false} CollectLastWins<K, V>(pairs: seq<(K, V)>, k: K)
    ensures LastWith(pairs, k).None? ==> Get(Collect(pairs), k) == None
    ensures LastWith(pairs, k).Some? ==> Get(Collect(pairs), k) == Some(pairs[LastWith(pairs, k).value].1)
    decreases |pairs|
  {
    if pairs != [] {
      var n := |pairs| - 1;
      CollectLastWins(pairs[..n], k);
      PutGet(Collect(pairs[..n]), pairs[n].0, pairs[n].1, k);
    }
  }

  lemma CollectStep<K, V>(pairs: seq<(K, V)>, i: nat)
    requires i < |pairs|
    ensures Collect(pairs[..i + 1]) == Put(Collect(pairs[..i]), pairs[i].0, pairs[i].1)
  {
    assert pairs[..i + 1][..i] == pairs[..i];
  }

  /** `[d[k] for k in ids]`: `KeyError` at the first missing id. */
  function Lookup<K(==), V>(ids: seq<K>, d: Dict<K, V>): (r: Result<seq<V>>)
    ensures r.Err? ==> r.error == KeyError
    ensures r.Ok? ==> |r.value| == |ids|
    decreases |ids|
  {
    if ids == [] then Ok([])
    else
      var n := |ids| - 1;
      match Lookup(ids[..n], d)
      case Err(e) => Err(e)
      case Ok(vs) =>
        var g := Get(d, ids[n]);
        if g.None? then Err(KeyError) else Ok(vs + [g.value])
  }

  /** The lookup succeeds exactly when every id is a key, and then finds each id's value. */
  lemma {:induction false} LookupMeaning<K, V>(ids: seq<K>, d: Dict<K, V>)
    ensures Lookup(ids, d).Ok? <==> forall i :: 0 <= i < |ids| ==> Get(d, ids[i]).Some?
    ensures Lookup(ids, d).Ok? ==> forall i :: 0 <= i < |ids| ==> Lookup(ids, d).value[i] == Get(d, ids[i]).value
    decreases |ids|
  {
    if ids != [] {
      var n := |ids| - 1;
      LookupMeaning(ids[..n], d);
      assert forall i :: 0 <= i < n ==> ids[..n][i] == ids[i];
    }
  }

  lemma {:induction false} LookupErrPrefix<K, V>(ids: seq<K>, d: Dict<K, V>, i: nat)
    requires i <= |ids| && Lookup(ids[..i], d).Err?
    ensures Lookup(ids, d).Err?
    decreases |ids| - i
  {
    if i < |ids| {
      assert ids[..i + 1][..i] == ids[..i];
      LookupErrPrefix(ids, d, i + 1);
    } else {
      assert ids[..i] == ids;
    }
  }

  /** A successful lookup is also successful on every prefix of the ids. */
  lemma {:induction false} LookupPrefix<K, V>(ids: seq<K>, d: Dict<K, V>, k: nat)
    requires k <= |ids| && Lookup(ids, d).Ok?
    ensures Lookup(ids[..k], d) == Ok(Lookup(ids, d).value[..k])
    decreases |ids|
  {
    if k < |ids| {
      var n := |ids| - 1;
      assert ids[..n][..k] == ids[..k];
      var vs := Lookup(ids[..n], d).value;
      assert Lookup(ids, d).value == vs + [Get(d, ids[n]).value];
      LookupPrefix(ids[..n], d, k);
      assert Lookup(ids, d).value[..k] == vs[..k];
    } else {
      assert ids[..k] == ids;
      assert Lookup(ids, d).value[..k] == Lookup(ids, d).value;
    }
  }

  /** The join loop `[id_labels[_] for _ in ids]`. */
  method LookupAll<K(==), V>(ids: seq<K>, d: Dict<K, V>) returns (r: Result<seq<V>>)
    ensures r == Lookup(ids, d)
  {
    var found: seq<V> := [];
    var i := 0;
    assert ids[..0] == [];
    while i < |ids|
      invariant 0 <= i <= |ids|
      invariant Lookup(ids[..i], d) == Ok(found)
    {
      assert ids[..i + 1][..i] == ids[..i];
      var g := Get(d, ids[i]);
      if g.None? {
        LookupErrPrefix(ids, d, i + 1);
        return Err(KeyError);
      }
      found := found + [g.value];
      i := i + 1;
    }
    assert ids[..i] == ids;
    return Ok(found);
  }

  // The tensors

  /** The signed 64-bit range of a `torch.long` element. */
  predicate Int64(n: int) {
    -0x8000_0000_0000_0000 <= n < 0x8000_0000_0000_0000
  }

  /** A label `torch.tensor` takes as a number: not a string, and an integer within 64 bits. */
  predicate Tensorable(value: Label) {
    !value.Str? && (value.Int? ==> Int64(value.n))
  }

  /** The message `torch.tensor` gives for a list holding a string. */
  const TooManyDimensions := "too many dimensions 'str'"

  /** `torch.tensor(labels)`: a string raises `ValueError`, an integer beyond
      64 bits overflows with `RuntimeError`. Labels reach it renamed, so
      they hold no booleans. */
  function TensorError(labels: seq<Label>): Option<Error> {
    if exists i :: 0 <= i < |labels| && labels[i].Str? then Some(ValueError(TooManyDimensions))
    else if exists i :: 0 <= i < |labels| && !Tensorable(labels[i]) then Some(RuntimeError)
    else None
  }

  /** A class index `one_hot(..., num_classes=n)` accepts. */
  predicate InClass(value: Label, n: nat) {
    value.Int? && 0 <= value.n < n
  }

  /** `one_hot(torch.tensor(labels), num_classes=n)`: first the tensor; then
      `RuntimeError` for the empty list (whose tensor is of floats) and for a
      class outside `[0, n)`. */
  function OneHotError(labels: seq<Label>, n: nat): Option<Error> {
    match TensorError(labels)
    case Some(e) => Some(e)
    case None =>
      if labels == [] || exists i :: 0 <= i < |labels| && !InClass(labels[i], n) then Some(RuntimeError)
      else None
  }

  /** A single list of the model: one-hot succeeds exactly on a non-empty list
      of classes, and otherwise a string is a `ValueError` and anything else a `RuntimeError`. */
  lemma OneHotErrorMeaning(labels: seq<Label>, n: nat)
    requires Int64(n)
    ensures OneHotError(labels, n).None? <==> labels != [] && forall i :: 0 <= i < |labels| ==> InClass(labels[i], n)
    ensures (exists i :: 0 <= i < |labels| && labels[i].Str?) ==> OneHotError(labels, n) == Some(ValueError(TooManyDimensions))
    ensures (forall i :: 0 <= i < |labels| ==> !labels[i].Str?) && OneHotError(labels, n).Some? ==>
      OneHotError(labels, n) == Some(RuntimeError)
  {
    if labels != [] && forall i :: 0 <= i < |labels| ==> InClass(labels[i], n) {
      assert forall i :: 0 <= i < |labels| ==> Tensorable(labels[i]);
    }
  }

  // eval_other

  /** A prediction or target record: `idx` and `label`. */
  datatype Prediction = Prediction(idx: int, verdict: Label)

  /** The arrays handed to the metric: the number of classes, the renamed
      predicted labels, and the renamed target label of each prediction's idx. */
  datatype OtherBatch = OtherBatch(numClasses: nat, predicted: seq<Label>, expected: seq<Label>)

  function PredIds(preds: seq<Prediction>): (r: seq<int>)
    ensures |r| == |preds|
    ensures forall i :: 0 <= i < |preds| ==> r[i] == preds[i].idx
  {
    seq(|preds|, i requires 0 <= i < |preds| => preds[i].idx)
  }

  /** `[renames.get(_, _) for _ in labels]`. */
  function Renamed(preds: seq<Prediction>): (r: seq<Label>)
    ensures |r| == |preds|
    ensures forall i :: 0 <= i < |preds| ==> r[i] == Rename(preds[i].verdict)
  {
    seq(|preds|, i requires 0 <= i < |preds| => Rename(preds[i].verdict))
  }

  /** `id_labels[id] = renames.get(label, label)` for each target. */
  function TargetPairs(targets: seq<Prediction>): (r: seq<(int, Label)>)
    ensures |r| == |targets|
    ensures forall i :: 0 <= i < |targets| ==> r[i] == (targets[i].idx, Rename(targets[i].verdict))
  {
    seq(|targets|, i requires 0 <= i < |targets| => (targets[i].idx, Rename(targets[i].verdict)))
  }

  function EvalOtherBatch(name: string, preds: seq<Prediction>, targets: seq<Prediction>): Result<OtherBatch> {
    match OneHotError(Renamed(preds), NumClasses(name))
    case Some(e) => Err(e)
    case None =>
      match Lookup(PredIds(preds), Collect(TargetPairs(targets)))
      case Err(e) => Err(e)
      case Ok(expected) =>
        match TensorError(expected)
        case Some(e) => Err(e)
        case None => Ok(OtherBatch(NumClasses(name), Renamed(preds), expected))
  }

  /** `eval_other` up to `update_metrics`. */
  method EvalOther(name: string, preds: seq<Prediction>, targets: seq<Prediction>) returns (r: Result<OtherBatch>)
    ensures r == EvalOtherBatch(name, preds, targets)
  {
    var labels := seq(|preds|, i requires 0 <= i < |preds| => Rename(preds[i].verdict));
    var numClasses := if name == "rcb" then 3 else 2;
    var logits := OneHotError(labels, numClasses);
    if logits.Some? {
      return Err(logits.value);
    }
    var idLabels: Dict<int, Label> := [];
    var i := 0;
    assert TargetPairs(targets)[..0] == [];
    while i < |targets|
      invariant 0 <= i <= |targets|
      invariant idLabels == Collect(TargetPairs(targets)[..i])
    {
      idLabels := Put(idLabels, targets[i].idx, Rename(targets[i].verdict));
      CollectStep(TargetPairs(targets), i);
      i := i + 1;
    }
    assert TargetPairs(targets)[..i] == TargetPairs(targets);
    var ids := seq(|preds|, i requires 0 <= i < |preds| => preds[i].idx);
    var expected := LookupAll(ids, idLabels);
    if expected.Err? {
      return Err(expected.error);
    }
    var tensor := TensorError(expected.value);
    if tensor.Some? {
      return Err(tensor.value);
    }
    return Ok(OtherBatch(numClasses, labels, expected.value));
  }

  /** The renamed label of the last target carrying `id`, if any. */
  function TargetLabel(targets: seq<Prediction>, id: int): Option<Label> {
    match LastWith(TargetPairs(targets), id)
    case None => None
    case Some(j) => Some(Rename(targets[j].verdict))
  }

  /** `id_labels` maps each idx to the renamed label of its last target. */
  lemma TargetLabelOf(targets: seq<Prediction>, id: int)
    ensures Get(Collect(TargetPairs(targets)), id) == TargetLabel(targets, id)
    ensures TargetLabel(targets, id).None? <==> forall j :: 0 <= j < |targets| ==> targets[j].idx != id
  {
    var pairs := TargetPairs(targets);
    CollectLastWins(pairs, id);
    if LastWith(pairs, id).None? {
      assert forall j :: 0 <= j < |targets| ==> pairs[j].0 != id;
    }
  }

  lemma TensorErrorMeaning(labels: seq<Label>)
    ensures TensorError(labels).None? <==> forall i :: 0 <= i < |labels| ==> Tensorable(labels[i])
    ensures (exists i :: 0 <= i < |labels| && labels[i].Str?) ==> TensorError(labels) == Some(ValueError(TooManyDimensions))
    ensures TensorError(labels).Some? ==> TensorError(labels) in {Some(ValueError(TooManyDimensions)), Some(RuntimeError)}
  {
  }

  /** Every renamed predicted label is a class of the task, and there is one. */
  predicate Classes(name: string, preds: seq<Prediction>) {
    preds != [] && forall i :: 0 <= i < |preds| ==> InClass(Rename(preds[i].verdict), NumClasses(name))
  }

  /** `eval_other` fails in the order the program reaches each step: a string
      among the renamed predicted labels (`ValueError` of `torch.tensor`), no
      prediction or a label that is no class (`RuntimeError` of `one_hot`), a
      prediction idx no target carries (`KeyError`), and a joined target label
      `torch.tensor` refuses. It succeeds exactly when none of these happens, and
      then prediction `i` is paired with the renamed label of the last target
      carrying its idx. */
  lemma EvalOtherMeaning(name: string, preds: seq<Prediction>, targets: seq<Prediction>)
    ensures (exists i :: 0 <= i < |preds| && Rename(preds[i].verdict).Str?) ==>
      EvalOtherBatch(name, preds, targets) == Err(ValueError(TooManyDimensions))
    ensures (forall i :: 0 <= i < |preds| ==> !Rename(preds[i].verdict).Str?) && !Classes(name, preds) ==>
      EvalOtherBatch(name, preds, targets) == Err(RuntimeError)
    ensures Classes(name, preds) && (exists i :: 0 <= i < |preds| && forall j :: 0 <= j < |targets| ==> targets[j].idx != preds[i].idx) ==>
      EvalOtherBatch(name, preds, targets) == Err(KeyError)
    ensures Classes(name, preds) && (forall i :: 0 <= i < |preds| ==> TargetLabel(targets, preds[i].idx).Some?) &&
            (exists i :: 0 <= i < |preds| && TargetLabel(targets, preds[i].idx).value.Str?) ==>
      EvalOtherBatch(name, preds, targets) == Err(ValueError(TooManyDimensions))
    ensures EvalOtherBatch(name, preds, targets).Ok? <==>
      Classes(name, preds) &&
      forall i :: 0 <= i < |preds| ==> TargetLabel(targets, preds[i].idx).Some? && Tensorable(TargetLabel(targets, preds[i].idx).value)
    ensures EvalOtherBatch(name, preds, targets).Ok? ==>
      var b := EvalOtherBatch(name, preds, targets).value;
      b.numClasses == NumClasses(name) && |b.predicted| == |preds| && |b.expected| == |preds| &&
      forall i :: 0 <= i < |preds| ==>
        b.predicted[i] == Rename(preds[i].verdict) && Some(b.expected[i]) == TargetLabel(targets, preds[i].idx)
  {
    var labels := Renamed(preds);
    OneHotErrorMeaning(labels, NumClasses(name));
    if OneHotError(labels, NumClasses(name)).None? {
      OtherLookup(preds, targets);
      var found := Lookup(PredIds(preds), Collect(TargetPairs(targets)));
      if found.Ok? {
        TensorErrorMeaning(found.value);
      }
    }
  }

  /** The join of `eval_other`: every prediction's idx found, each with its target label. */
  lemma OtherLookup(preds: seq<Prediction>, targets: seq<Prediction>)
    ensures Lookup(PredIds(preds), Collect(TargetPairs(targets))).Ok? <==>
      forall i :: 0 <= i < |preds| ==> TargetLabel(targets, preds[i].idx).Some?
    ensures Lookup(PredIds(preds), Collect(TargetPairs(targets))).Ok? ==>
      forall i :: 0 <= i < |preds| ==>
        Some(Lookup(PredIds(preds), Collect(TargetPairs(targets))).value[i]) == TargetLabel(targets, preds[i].idx)
    ensures forall i :: 0 <= i < |preds| ==>
      (TargetLabel(targets, preds[i].idx).None? <==> forall j :: 0 <= j < |targets| ==> targets[j].idx != preds[i].idx)
  {
    var pairs := TargetPairs(targets);
    var ids := PredIds(preds);
    LookupMeaning(ids, Collect(pairs));
    forall i | 0 <= i < |preds|
      ensures Get(Collect(pairs), ids[i]) == TargetLabel(targets, preds[i].idx)
      ensures TargetLabel(targets, preds[i].idx).None? <==> forall j :: 0 <= j < |targets| ==> targets[j].idx != preds[i].idx
    {
      TargetLabelOf(targets, preds[i].idx);
    }
  }

  // eval_muserc

  datatype EvalAnswer = EvalAnswer(idx: int, verdict: int)

  datatype EvalQuestion = EvalQuestion(idx: int, answers: seq<EvalAnswer>)

  /** A muserc record as read for scoring: `idx` and `passage.questions`. */
  datatype EvalPassage = EvalPassage(idx: int, questions: seq<EvalQuestion>)

  /** One entry of the parallel lists `ids`, `labels`, `passage_ids`, `question_ids`. */
  datatype AnswerRow = AnswerRow(answer: int, verdict: int, passage: int, question: int)

  function QuestionRows(pid: int, q: EvalQuestion): (r: seq<AnswerRow>)
    ensures |r| == |q.answers|
    ensures forall a :: 0 <= a < |r| ==> r[a] == AnswerRow(q.answers[a].idx, q.answers[a].verdict, pid, q.idx)
  {
    seq(|q.answers|, a requires 0 <= a < |q.answers| => AnswerRow(q.answers[a].idx, q.answers[a].verdict, pid, q.idx))
  }

  function QuestionBlocks(p: EvalPassage): (r: seq<seq<AnswerRow>>)
    ensures |r| == |p.questions|
    ensures forall i :: 0 <= i < |p.questions| ==> r[i] == QuestionRows(p.idx, p.questions[i])
  {
    seq(|p.questions|, i requires 0 <= i < |p.questions| => QuestionRows(p.idx, p.questions[i]))
  }

  function PassageBlocks(ps: seq<EvalPassage>): (r: seq<seq<AnswerRow>>)
    ensures |r| == |ps|
    ensures forall i :: 0 <= i < |ps| ==> r[i] == Flatten(QuestionBlocks(ps[i]))
  {
    seq(|ps|, i requires 0 <= i < |ps| => Flatten(QuestionBlocks(ps[i])))
  }

  /** Every answer of every question of every passage, in that order. */
  function AnswerRows(ps: seq<EvalPassage>): seq<AnswerRow> {
    Flatten(PassageBlocks(ps))
  }

  function RowIds(rows: seq<AnswerRow>): (r: seq<int>)
    ensures |r| == |rows|
    ensures forall k :: 0 <= k < |rows| ==> r[k] == rows[k].answer
  {
    seq(|rows|, k requires 0 <= k < |rows| => rows[k].answer)
  }

  function RowPairs(rows: seq<AnswerRow>): (r: seq<(int, int)>)
    ensures |r| == |rows|
    ensures forall k :: 0 <= k < |rows| ==> r[k] == (rows[k].answer, rows[k].verdict)
  {
    seq(|rows|, k requires 0 <= k < |rows| => (rows[k].answer, rows[k].verdict))
  }

  /** The rows of the predictions, and the target label of each row's answer id. */
  datatype MusercBatch = MusercBatch(rows: seq<AnswerRow>, expected: seq<int>)

  /** Integer labels as `torch.tensor` sees them. */
  function IntLabels(ns: seq<int>): (r: seq<Label>)
    ensures |r| == |ns|
    ensures forall k :: 0 <= k < |ns| ==> r[k] == Int(ns[k])
  {
    seq(|ns|, k requires 0 <= k < |ns| => Int(ns[k]))
  }

  function RowVerdicts(rows: seq<AnswerRow>): (r: seq<int>)
    ensures |r| == |rows|
    ensures forall k :: 0 <= k < |rows| ==> r[k] == rows[k].verdict
  {
    seq(|rows|, k requires 0 <= k < |rows| => rows[k].verdict)
  }

  function EvalMusercBatch(preds: seq<EvalPassage>, targets: seq<EvalPassage>): Result<MusercBatch> {
    var rows := AnswerRows(preds);
    match OneHotError(IntLabels(RowVerdicts(rows)), 2)
    case Some(e) => Err(e)
    case None =>
      match Lookup(RowIds(rows), Collect(RowPairs(AnswerRows(targets))))
      case Err(e) => Err(e)
      case Ok(expected) =>
        match TensorError(IntLabels(expected))
        case Some(e) => Err(e)
        case None => Ok(MusercBatch(rows, expected))
  }

  lemma PassageStep(ps: seq<EvalPassage>, p: nat)
    requires p < |ps|
    ensures AnswerRows(ps[..p + 1]) == AnswerRows(ps[..p]) + Flatten(QuestionBlocks(ps[p]))
  {
    assert PassageBlocks(ps[..p + 1]) == PassageBlocks(ps[..p]) + [Flatten(QuestionBlocks(ps[p]))];
    FlattenAppend(PassageBlocks(ps[..p]), Flatten(QuestionBlocks(ps[p])));
  }

  lemma AnswerStep(pid: int, q: EvalQuestion, a: nat, done: seq<AnswerRow>)
    requires a < |q.answers|
    ensures done + QuestionRows(pid, q)[..a + 1]
         == (done + QuestionRows(pid, q)[..a]) + [AnswerRow(q.answers[a].idx, q.answers[a].verdict, pid, q.idx)]
  {
    assert QuestionRows(pid, q)[..a + 1] == QuestionRows(pid, q)[..a] + [QuestionRows(pid, q)[a]];
  }

  lemma RowsAppend(rows: seq<AnswerRow>, row: AnswerRow)
    ensures RowIds(rows + [row]) == RowIds(rows) + [row.answer]
    ensures RowPairs(rows + [row]) == RowPairs(rows) + [(row.answer, row.verdict)]
  {
  }

  /** One question of the prediction loop: its rows appended in answer order. */
  method AppendQuestion(rows: seq<AnswerRow>, pid: int, q: EvalQuestion) returns (r: seq<AnswerRow>)
    ensures r == rows + QuestionRows(pid, q)
  {
    r := rows;
    var a := 0;
    assert QuestionRows(pid, q)[..0] == [];
    while a < |q.answers|
      invariant 0 <= a <= |q.answers|
      invariant r == rows + QuestionRows(pid, q)[..a]
    {
      r := r + [AnswerRow(q.answers[a].idx, q.answers[a].verdict, pid, q.idx)];
      AnswerStep(pid, q, a, rows);
      a := a + 1;
    }
    assert QuestionRows(pid, q)[..a] == QuestionRows(pid, q);
  }

  /** The prediction loop of `eval_muserc`. */
  method PredictionRows(ps: seq<EvalPassage>) returns (rows: seq<AnswerRow>)
    ensures rows == AnswerRows(ps)
  {
    rows := [];
    var p := 0;
    assert AnswerRows(ps[..0]) == [];
    while p < |ps|
      invariant 0 <= p <= |ps|
      invariant rows == AnswerRows(ps[..p])
    {
      var passage := ps[p];
      ghost var done := rows;
      var q := 0;
      assert QuestionBlocks(passage)[..0] == [];
      while q < |passage.questions|
        invariant 0 <= q <= |passage.questions|
        invariant rows == done + Flatten(QuestionBlocks(passage)[..q])
      {
        rows := AppendQuestion(rows, passage.idx, passage.questions[q]);
        FlattenStep(QuestionBlocks(passage), q);
        q := q + 1;
      }
      assert QuestionBlocks(passage)[..q] == QuestionBlocks(passage);
      PassageStep(ps, p);
      p := p + 1;
    }
    assert ps[..p] == ps;
  }

  lemma CollectAppend<K, V>(pairs: seq<(K, V)>, extra: seq<(K, V)>, a: nat)
    requires a < |extra|
    ensures Collect(pairs + extra[..a + 1]) == Put(Collect(pairs + extra[..a]), extra[a].0, extra[a].1)
  {
    assert (pairs + extra[..a + 1])[..|pairs| + a] == pairs + extra[..a];
  }

  /** One question of the target loop: `id_labels[answer['idx']] = answer['label']` for each answer. */
  method CollectQuestion(d: Dict<int, int>, pid: int, q: EvalQuestion, ghost done: seq<AnswerRow>) returns (r: Dict<int, int>)
    requires d == Collect(RowPairs(done))
    ensures r == Collect(RowPairs(done + QuestionRows(pid, q)))
  {
    r := d;
    var rows := QuestionRows(pid, q);
    var a := 0;
    assert RowPairs(done) + RowPairs(rows)[..0] == RowPairs(done);
    while a < |q.answers|
      invariant 0 <= a <= |q.answers|
      invariant r == Collect(RowPairs(done) + RowPairs(rows)[..a])
    {
      r := Put(r, q.answers[a].idx, q.answers[a].verdict);
      CollectAppend(RowPairs(done), RowPairs(rows), a);
      a := a + 1;
    }
    assert RowPairs(rows)[..a] == RowPairs(rows);
    assert RowPairs(done + rows) == RowPairs(done) + RowPairs(rows);
  }

  lemma BlockStep(done: seq<AnswerRow>, p: EvalPassage, q: nat)
    requires q < |p.questions|
    ensures done + Flatten(QuestionBlocks(p)[..q + 1])
         == (done + Flatten(QuestionBlocks(p)[..q])) + QuestionRows(p.idx, p.questions[q])
  {
    FlattenStep(QuestionBlocks(p), q);
  }

  /** One passage of the target loop. */
  method CollectPassage(d: Dict<int, int>, p: EvalPassage, ghost done: seq<AnswerRow>) returns (r: Dict<int, int>)
    requires d == Collect(RowPairs(done))
    ensures r == Collect(RowPairs(done + Flatten(QuestionBlocks(p))))
  {
    r := d;
    var q := 0;
    assert QuestionBlocks(p)[..0] == [];
    assert done + Flatten(QuestionBlocks(p)[..0]) == done;
    while q < |p.questions|
      invariant 0 <= q <= |p.questions|
      invariant r == Collect(RowPairs(done + Flatten(QuestionBlocks(p)[..q])))
    {
      r := CollectQuestion(r, p.idx, p.questions[q], done + Flatten(QuestionBlocks(p)[..q]));
      BlockStep(done, p, q);
      q := q + 1;
    }
    assert QuestionBlocks(p)[..q] == QuestionBlocks(p);
  }

  /** The target loop of `eval_muserc`. */
  method TargetLabels(ps: seq<EvalPassage>) returns (d: Dict<int, int>)
    ensures d == Collect(RowPairs(AnswerRows(ps)))
  {
    d := [];
    var p := 0;
    assert AnswerRows(ps[..0]) == [];
    while p < |ps|
      invariant 0 <= p <= |ps|
      invariant d == Collect(RowPairs(AnswerRows(ps[..p])))
    {
      d := CollectPassage(d, ps[p], AnswerRows(ps[..p]));
      PassageStep(ps, p);
      p := p + 1;
    }
    assert ps[..p] == ps;
  }

  /** `eval_muserc` up to `update_metrics`. */
  method EvalMuserc(preds: seq<EvalPassage>, targets: seq<EvalPassage>) returns (r: Result<MusercBatch>)
    ensures r == EvalMusercBatch(preds, targets)
  {
    var rows := PredictionRows(preds);
    var labels := seq(|rows|, k requires 0 <= k < |rows| => Int(rows[k].verdict));
    assert labels == IntLabels(RowVerdicts(rows));
    var logits := OneHotError(labels, 2);
    if logits.Some? {
      return Err(logits.value);
    }
    var idLabels := TargetLabels(targets);
    var ids := seq(|rows|, k requires 0 <= k < |rows| => rows[k].answer);
    assert ids == RowIds(rows);
    var expected := LookupAll(ids, idLabels);
    if expected.Err? {
      return Err(expected.error);
    }
    var tensor := TensorError(IntLabels(expected.value));
    if tensor.Some? {
      return Err(tensor.value);
    }
    return Ok(MusercBatch(rows, expected.value));
  }

  // What the rows are

  lemma {:induction false} FlattenMembers<T>(blocks: seq<seq<T>>, x: T)
    ensures x in Flatten(blocks) <==> exists b :: 0 <= b < |blocks| && x in blocks[b]
    decreases |blocks|
  {
    if blocks != [] {
      var n := |blocks| - 1;
      FlattenMembers(blocks[..n], x);
      if x in Flatten(blocks[..n]) {
        var b :| 0 <= b < n && x in blocks[..n][b];
        assert x in blocks[b];
      }
      if exists b :: 0 <= b < n && x in blocks[b] {
        var b :| 0 <= b < n && x in blocks[b];
        assert x in blocks[..n][b];
      }
    }
  }

  /** A row is in the lists exactly when it is an answer of a question of a
      passage, labelled with the answer's label and the two enclosing ids. */
  lemma AnswerRowsMembers(ps: seq<EvalPassage>, row: AnswerRow)
    ensures row in AnswerRows(ps) <==>
      exists p, q, a :: 0 <= p < |ps| && 0 <= q < |ps[p].questions| && 0 <= a < |ps[p].questions[q].answers| &&
        row == AnswerRow(ps[p].questions[q].answers[a].idx, ps[p].questions[q].answers[a].verdict, ps[p].idx, ps[p].questions[q].idx)
  {
    FlattenMembers(PassageBlocks(ps), row);
    forall p | 0 <= p < |ps|
      ensures row in Flatten(QuestionBlocks(ps[p])) <==>
        exists q, a :: 0 <= q < |ps[p].questions| && 0 <= a < |ps[p].questions[q].answers| &&
          row == AnswerRow(ps[p].questions[q].answers[a].idx, ps[p].questions[q].answers[a].verdict, ps[p].idx, ps[p].questions[q].idx)
    {
      FlattenMembers(QuestionBlocks(ps[p]), row);
    }
  }

  /** The label of the last target answer carrying `id`, if any. */
  function AnswerLabel(targets: seq<EvalPassage>, id: int): Option<int> {
    match LastWith(RowPairs(AnswerRows(targets)), id)
    case None => None
    case Some(j) => Some(AnswerRows(targets)[j].verdict)
  }

  lemma AnswerLabelOf(targets: seq<EvalPassage>, id: int)
    ensures Get(Collect(RowPairs(AnswerRows(targets))), id) == AnswerLabel(targets, id)
    ensures AnswerLabel(targets, id).None? <==> forall j :: 0 <= j < |AnswerRows(targets)| ==> AnswerRows(targets)[j].answer != id
  {
    var pairs := RowPairs(AnswerRows(targets));
    CollectLastWins(pairs, id);
    if LastWith(pairs, id).None? {
      assert forall j :: 0 <= j < |pairs| ==> pairs[j].0 != id;
    }
  }

  /** There is a predicted answer, and every predicted label is 0 or 1. */
  predicate Binary(rows: seq<AnswerRow>) {
    rows != [] && forall k :: 0 <= k < |rows| ==> rows[k].verdict in {0, 1}
  }

  /** `eval_muserc` fails in the order the program reaches each step: no
      predicted answer or a predicted label other than 0 and 1 (`RuntimeError`
      of `one_hot`), then a predicted answer id no target answer carries
      (`KeyError`), then a joined label beyond 64 bits (`RuntimeError` of
      `torch.tensor`). It succeeds exactly when none of these happens, and then
      each row is paired with the label of the last target answer of its id. */
  lemma EvalMusercMeaning(preds: seq<EvalPassage>, targets: seq<EvalPassage>)
    ensures !Binary(AnswerRows(preds)) ==> EvalMusercBatch(preds, targets) == Err(RuntimeError)
    ensures Binary(AnswerRows(preds)) &&
            (exists k :: 0 <= k < |AnswerRows(preds)| && AnswerLabel(targets, AnswerRows(preds)[k].answer).None?) ==>
      EvalMusercBatch(preds, targets) == Err(KeyError)
    ensures EvalMusercBatch(preds, targets).Err? ==> EvalMusercBatch(preds, targets).error in {KeyError, RuntimeError}
    ensures EvalMusercBatch(preds, targets).Ok? <==>
      Binary(AnswerRows(preds)) &&
      forall k :: 0 <= k < |AnswerRows(preds)| ==>
        AnswerLabel(targets, AnswerRows(preds)[k].answer).Some? && Int64(AnswerLabel(targets, AnswerRows(preds)[k].answer).value)
    ensures EvalMusercBatch(preds, targets).Ok? ==>
      var b := EvalMusercBatch(preds, targets).value;
      b.rows == AnswerRows(preds) && |b.expected| == |b.rows| &&
      forall k :: 0 <= k < |b.rows| ==> Some(b.expected[k]) == AnswerLabel(targets, b.rows[k].answer)
  {
    var rows := AnswerRows(preds);
    BinaryOneHot(rows);
    if Binary(rows) {
      MusercLookup(rows, targets);
      var found := Lookup(RowIds(rows), Collect(RowPairs(AnswerRows(targets))));
      if found.Ok? {
        IntTensor(found.value);
      }
    }
  }

  /** The verdicts of `eval_muserc` one-hot encode exactly when they are all 0 or 1. */
  lemma BinaryOneHot(rows: seq<AnswerRow>)
    ensures OneHotError(IntLabels(RowVerdicts(rows)), 2).None? <==> Binary(rows)
    ensures OneHotError(IntLabels(RowVerdicts(rows)), 2).Some? ==>
      OneHotError(IntLabels(RowVerdicts(rows)), 2) == Some(RuntimeError)
  {
    var labels := IntLabels(RowVerdicts(rows));
    OneHotErrorMeaning(labels, 2);
    if !Binary(rows) && rows != [] {
      var k :| 0 <= k < |rows| && rows[k].verdict !in {0, 1};
      assert !InClass(labels[k], 2);
    }
  }

  /** A list of integers makes a tensor exactly when each fits in 64 bits. */
  lemma IntTensor(ns: seq<int>)
    ensures TensorError(IntLabels(ns)).None? <==> forall k :: 0 <= k < |ns| ==> Int64(ns[k])
    ensures TensorError(IntLabels(ns)).Some? ==> TensorError(IntLabels(ns)) == Some(RuntimeError)
  {
    TensorErrorMeaning(IntLabels(ns));
  }

  /** The join of `eval_muserc`: every row's id found, each with its answer label. */
  lemma MusercLookup(rows: seq<AnswerRow>, targets: seq<EvalPassage>)
    ensures Lookup(RowIds(rows), Collect(RowPairs(AnswerRows(targets)))).Ok? <==>
      forall k :: 0 <= k < |rows| ==> AnswerLabel(targets, rows[k].answer).Some?
    ensures Lookup(RowIds(rows), Collect(RowPairs(AnswerRows(targets)))).Ok? ==>
      forall k :: 0 <= k < |rows| ==>
        Some(Lookup(RowIds(rows), Collect(RowPairs(AnswerRows(targets)))).value[k]) == AnswerLabel(targets, rows[k].answer)
  {
    var pairs := RowPairs(AnswerRows(targets));
    var ids := RowIds(rows);
    LookupMeaning(ids, Collect(pairs));
    forall k | 0 <= k < |rows|
      ensures Get(Collect(pairs), ids[k]) == AnswerLabel(targets, rows[k].answer)
    {
      AnswerLabelOf(targets, rows[k].answer);
    }
  }
}
