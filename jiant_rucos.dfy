/** `eval_rucos`: the entity rows and the answer table handed to the jiant
    rucos metric, built from the generated labels and the gold records. */
module JiantRucos {
  import opened Wrappers
  import opened Text
  import opened Numbers
  import opened Dicts
  import opened RsgBatching
  import opened JiantLabels
  import opened JiantEval
  import RsgRucos

  /** A generated record: `idx` of the question and its `label` text. */
  datatype RucosPrediction = RucosPrediction(idx: int, text: string)

  /** A question of `qas`: `idx` and the `text` of each of its `answers`. */
  datatype RucosQuestion = RucosQuestion(idx: int, answers: seq<string>)

  /** A gold record: `idx`, `passage.text`, `passage.entities` and `qas`. */
  datatype RucosTarget = RucosTarget(idx: int, text: string, entities: seq<RsgRucos.Span>, qas: seq<RucosQuestion>)

  /** One entry of the parallel lists `logits`, `strings`, `passage_ids`, `question_ids`. */
  datatype EntityRow = EntityRow(logit: (real, real), entity: string, passage: string, question: int)

  /** `'test-%d' % idx`. */
  function PassageId(idx: int): string {
    "test-" + IntToString(idx)
  }

  /** The number after `test-` reads back as the passage idx, so distinct
      passages get distinct ids. */
  lemma PassageIdRoundTrip(idx: int)
    ensures PassageId(idx)[..5] == "test-"
    ensures ParseInt(PassageId(idx)[5..]) == Ok(idx)
  {
    assert PassageId(idx)[5..] == IntToString(idx);
    ParseIntOfInt(idx);
  }

  lemma PassageIdInjective(a: int, b: int)
    ensures PassageId(a) == PassageId(b) <==> a == b
  {
    PassageIdRoundTrip(a);
    PassageIdRoundTrip(b);
  }

  /** `id_preds`: each question idx with its stripped label, the last record winning. */
  function PredPairs(preds: seq<RucosPrediction>): (r: seq<(int, string)>)
    ensures |r| == |preds|
    ensures forall i :: 0 <= i < |preds| ==> r[i] == (preds[i].idx, StripRucosLabel(preds[i].text))
  {
    seq(|preds|, i requires 0 <= i < |preds| => (preds[i].idx, StripRucosLabel(preds[i].text)))
  }

  function IdPreds(preds: seq<RucosPrediction>): Dict<int, string> {
    Collect(PredPairs(preds))
  }

  /** `[text[_['start']:_['end']] for _ in entities]`. */
  function Entities(t: RucosTarget): (r: seq<string>)
    ensures |r| == |t.entities|
    ensures forall e :: 0 <= e < |r| ==> r[e] == PySlice(t.text, t.entities[e].start, t.entities[e].end)
  {
    seq(|t.entities|, e requires 0 <= e < |t.entities| => PySlice(t.text, t.entities[e].start, t.entities[e].end))
  }

  /** `if not pred: continue`: a missing prediction and an empty one are skipped alike. */
  predicate Answered(pred: Option<string>) {
    pred.Some? && pred.value != []
  }

  /** The logit of an entity: `[0, 1]` when it is the predicted text, `[1, 0]` otherwise. */
  function Hit(entity: string, pred: string): (real, real) {
    if pred == entity then (0.0, 1.0) else (1.0, 0.0)
  }

  function QuestionRows(pid: string, entities: seq<string>, qid: int, pred: Option<string>): (r: seq<EntityRow>)
    ensures !Answered(pred) ==> r == []
    ensures Answered(pred) ==> |r| == |entities|
    ensures Answered(pred) ==> forall e :: 0 <= e < |r| ==> r[e] == EntityRow(Hit(entities[e], pred.value), entities[e], pid, qid)
  {
    if !Answered(pred) then []
    else seq(|entities|, e requires 0 <= e < |entities| => EntityRow(Hit(entities[e], pred.value), entities[e], pid, qid))
  }

  function TargetBlocks(t: RucosTarget, ip: Dict<int, string>): (r: seq<seq<EntityRow>>)
    ensures |r| == |t.qas|
    ensures forall q :: 0 <= q < |t.qas| ==> r[q] == QuestionRows(PassageId(t.idx), Entities(t), t.qas[q].idx, Get(ip, t.qas[q].idx))
  {
    seq(|t.qas|, q requires 0 <= q < |t.qas| => QuestionRows(PassageId(t.idx), Entities(t), t.qas[q].idx, Get(ip, t.qas[q].idx)))
  }

  function TargetsBlocks(ts: seq<RucosTarget>, ip: Dict<int, string>): (r: seq<seq<EntityRow>>)
    ensures |r| == |ts|
    ensures forall i :: 0 <= i < |ts| ==> r[i] == Flatten(TargetBlocks(ts[i], ip))
  {
    seq(|ts|, i requires 0 <= i < |ts| => Flatten(TargetBlocks(ts[i], ip)))
  }

  /** The rows, question by question of passage by passage. */
  function EntityRows(ts: seq<RucosTarget>, ip: Dict<int, string>): seq<EntityRow> {
    Flatten(TargetsBlocks(ts, ip))
  }

  /** `id_answers[passage_id, question_id] = answers` for the questions of one passage. */
  function QuestionKeys(t: RucosTarget): (r: seq<((string, int), seq<string>)>)
    ensures |r| == |t.qas|
    ensures forall q :: 0 <= q < |t.qas| ==> r[q] == ((PassageId(t.idx), t.qas[q].idx), t.qas[q].answers)
  {
    seq(|t.qas|, q requires 0 <= q < |t.qas| => ((PassageId(t.idx), t.qas[q].idx), t.qas[q].answers))
  }

  function KeyBlocks(ts: seq<RucosTarget>): (r: seq<seq<((string, int), seq<string>)>>)
    ensures |r| == |ts|
    ensures forall i :: 0 <= i < |ts| ==> r[i] == QuestionKeys(ts[i])
  {
    seq(|ts|, i requires 0 <= i < |ts| => QuestionKeys(ts[i]))
  }

  function AnswerPairs(ts: seq<RucosTarget>): seq<((string, int), seq<string>)> {
    Flatten(KeyBlocks(ts))
  }

  /** The entity rows and the `_answers` table of the metric. */
  datatype RucosBatch = RucosBatch(rows: seq<EntityRow>, answers: Dict<(string, int), seq<string>>)

  function EvalRucosBatch(preds: seq<RucosPrediction>, targets: seq<RucosTarget>): RucosBatch {
    RucosBatch(EntityRows(targets, IdPreds(preds)), Collect(AnswerPairs(targets)))
  }

  // The loops

  lemma EntityStep(done: seq<EntityRow>, entities: seq<string>, pred: string, pid: string, qid: int, e: nat)
    requires pred != [] && e < |entities|
    ensures done + QuestionRows(pid, entities, qid, Some(pred))[..e + 1]
         == (done + QuestionRows(pid, entities, qid, Some(pred))[..e]) + [EntityRow(Hit(entities[e], pred), entities[e], pid, qid)]
  {
    var r := QuestionRows(pid, entities, qid, Some(pred));
    assert r[..e + 1] == r[..e] + [r[e]];
  }

  /** `for entity in entities`: one row per entity, in entity order. */
  method AppendEntities(rows: seq<EntityRow>, entities: seq<string>, pred: string, pid: string, qid: int) returns (r: seq<EntityRow>)
    requires pred != []
    ensures r == rows + QuestionRows(pid, entities, qid, Some(pred))
  {
    r := rows;
    var e := 0;
    assert QuestionRows(pid, entities, qid, Some(pred))[..0] == [];
    while e < |entities|
      invariant 0 <= e <= |entities|
      invariant r == rows + QuestionRows(pid, entities, qid, Some(pred))[..e]
    {
      var logit := if pred == entities[e] then (0.0, 1.0) else (1.0, 0.0);
      r := r + [EntityRow(logit, entities[e], pid, qid)];
      EntityStep(rows, entities, pred, pid, qid, e);
      e := e + 1;
    }
    assert QuestionRows(pid, entities, qid, Some(pred))[..e] == QuestionRows(pid, entities, qid, Some(pred));
  }

  lemma RowsStep(rows: seq<EntityRow>, t: RucosTarget, ip: Dict<int, string>, q: nat)
    requires q < |t.qas|
    ensures rows + Flatten(TargetBlocks(t, ip)[..q + 1])
         == (rows + Flatten(TargetBlocks(t, ip)[..q])) + TargetBlocks(t, ip)[q]
  {
    FlattenStep(TargetBlocks(t, ip), q);
  }

  /** One question of a gold passage: its answers are recorded under the
      (passage, question) key, and its entity rows follow the rows so far
      when it has a prediction. */
  lemma ScanStep(rows: seq<EntityRow>, t: RucosTarget, ip: Dict<int, string>, q: nat, rs: seq<EntityRow>,
                 entities: seq<string>, pid: string, done: seq<((string, int), seq<string>)>, ans: Dict<(string, int), seq<string>>)
    requires q < |t.qas| && rs == rows + Flatten(TargetBlocks(t, ip)[..q])
    requires entities == Entities(t) && pid == PassageId(t.idx)
    requires ans == Collect(done + QuestionKeys(t)[..q])
    ensures Put(ans, (pid, t.qas[q].idx), t.qas[q].answers) == Collect(done + QuestionKeys(t)[..q + 1])
    ensures var pred := Get(ip, t.qas[q].idx);
      rows + Flatten(TargetBlocks(t, ip)[..q + 1]) ==
        if pred.Some? && pred.value != [] then rs + QuestionRows(pid, entities, t.qas[q].idx, Some(pred.value)) else rs
  {
    CollectAppend(done, QuestionKeys(t), q);
    RowsStep(rows, t, ip, q);
  }

  /** The questions of one gold passage. */
  method ScanTarget(rows: seq<EntityRow>, answers: Dict<(string, int), seq<string>>, t: RucosTarget,
                    ip: Dict<int, string>, ghost done: seq<((string, int), seq<string>)>)
    returns (rs: seq<EntityRow>, ans: Dict<(string, int), seq<string>>)
    requires answers == Collect(done)
    ensures rs == rows + Flatten(TargetBlocks(t, ip))
    ensures ans == Collect(done + QuestionKeys(t))
  {
    var pid := "test-" + IntToString(t.idx);
    var entities := seq(|t.entities|, e requires 0 <= e < |t.entities| => PySlice(t.text, t.entities[e].start, t.entities[e].end));
    assert entities == Entities(t);
    rs, ans := rows, answers;
    var q := 0;
    assert TargetBlocks(t, ip)[..0] == [];
    assert done + QuestionKeys(t)[..0] == done;
    assert pid == PassageId(t.idx);
    while q < |t.qas|
      invariant 0 <= q <= |t.qas|
      invariant rs == rows + Flatten(TargetBlocks(t, ip)[..q])
      invariant ans == Collect(done + QuestionKeys(t)[..q])
    {
      var question := t.qas[q];
      ScanStep(rows, t, ip, q, rs, entities, pid, done, ans);
      ans := Put(ans, (pid, question.idx), question.answers);
      var pred := Get(ip, question.idx);
      if pred.Some? && pred.value != [] {
        rs := AppendEntities(rs, entities, pred.value, pid, question.idx);
      }
      q := q + 1;
    }
    assert TargetBlocks(t, ip)[..q] == TargetBlocks(t, ip);
    assert QuestionKeys(t)[..q] == QuestionKeys(t);
  }

  lemma TargetsStep(ts: seq<RucosTarget>, ip: Dict<int, string>, i: nat)
    requires i < |ts|
    ensures EntityRows(ts[..i + 1], ip) == EntityRows(ts[..i], ip) + Flatten(TargetBlocks(ts[i], ip))
  {
    var bs := TargetsBlocks(ts[..i + 1], ip);
    assert bs[..i] == TargetsBlocks(ts[..i], ip);
    assert bs == bs[..i] + [bs[i]];
    FlattenAppend(bs[..i], bs[i]);
  }

  lemma KeysStep(ts: seq<RucosTarget>, i: nat)
    requires i < |ts|
    ensures AnswerPairs(ts[..i + 1]) == AnswerPairs(ts[..i]) + QuestionKeys(ts[i])
  {
    var bs := KeyBlocks(ts[..i + 1]);
    assert bs[..i] == KeyBlocks(ts[..i]);
    assert bs == bs[..i] + [bs[i]];
    FlattenAppend(bs[..i], bs[i]);
  }

  /** `id_preds`, the dict comprehension over the generated records. */
  method PredictionTable(preds: seq<RucosPrediction>) returns (ip: Dict<int, string>)
    ensures ip == IdPreds(preds)
  {
    ip := [];
    var i := 0;
    assert PredPairs(preds)[..0] == [];
    while i < |preds|
      invariant 0 <= i <= |preds|
      invariant ip == Collect(PredPairs(preds)[..i])
    {
      ip := Put(ip, preds[i].idx, StripRucosLabel(preds[i].text));
      CollectStep(PredPairs(preds), i);
      i := i + 1;
    }
    assert PredPairs(preds)[..i] == PredPairs(preds);
  }

  /** `eval_rucos` up to `update_metrics`. */
  method EvalRucos(preds: seq<RucosPrediction>, targets: seq<RucosTarget>) returns (b: RucosBatch)
    ensures b == EvalRucosBatch(preds, targets)
  {
    var ip := PredictionTable(preds);
    var rows: seq<EntityRow> := [];
    var answers: Dict<(string, int), seq<string>> := [];
    var i := 0;
    assert targets[..0] == [];
    assert EntityRows([], ip) == [] && AnswerPairs([]) == [];
    while i < |targets|
      invariant 0 <= i <= |targets|
      invariant rows == EntityRows(targets[..i], ip)
      invariant answers == Collect(AnswerPairs(targets[..i]))
    {
      rows, answers := ScanTarget(rows, answers, targets[i], ip, AnswerPairs(targets[..i]));
      TargetsStep(targets, ip, i);
      KeysStep(targets, i);
      i := i + 1;
    }
    assert targets[..i] == targets;
    return RucosBatch(rows, answers);
  }

  // What the batch holds

  /** The prediction of a question is the stripped label of the last
      generated record with its idx. */
  lemma PredictionOf(preds: seq<RucosPrediction>, qid: int)
    ensures LastWith(PredPairs(preds), qid).None? ==> Get(IdPreds(preds), qid) == None
    ensures LastWith(PredPairs(preds), qid).Some? ==>
      Get(IdPreds(preds), qid) == Some(StripRucosLabel(preds[LastWith(PredPairs(preds), qid).value].text))
  {
    CollectLastWins(PredPairs(preds), qid);
  }

  /** A row exists exactly for each entity of each passage whose question has a
      non-empty prediction, and its logit is `[0, 1]` exactly when the entity
      text is that prediction. */
  lemma EntityRowsMembers(ts: seq<RucosTarget>, ip: Dict<int, string>, row: EntityRow)
    ensures row in EntityRows(ts, ip) <==>
      exists i, q, e :: 0 <= i < |ts| && 0 <= q < |ts[i].qas| && 0 <= e < |ts[i].entities| &&
        Answered(Get(ip, ts[i].qas[q].idx)) &&
        row == EntityRow(Hit(Entities(ts[i])[e], Get(ip, ts[i].qas[q].idx).value), Entities(ts[i])[e], PassageId(ts[i].idx), ts[i].qas[q].idx)
  {
    FlattenMembers(TargetsBlocks(ts, ip), row);
    forall i | 0 <= i < |ts|
      ensures row in Flatten(TargetBlocks(ts[i], ip)) <==>
        exists q, e :: 0 <= q < |ts[i].qas| && 0 <= e < |ts[i].entities| &&
          Answered(Get(ip, ts[i].qas[q].idx)) &&
          row == EntityRow(Hit(Entities(ts[i])[e], Get(ip, ts[i].qas[q].idx).value), Entities(ts[i])[e], PassageId(ts[i].idx), ts[i].qas[q].idx)
    {
      FlattenMembers(TargetBlocks(ts[i], ip), row);
    }
  }

  /** Every row is one-hot, and positive exactly on the predicted entity. */
  lemma EntityRowsLogits(ts: seq<RucosTarget>, ip: Dict<int, string>, row: EntityRow)
    requires row in EntityRows(ts, ip)
    ensures Answered(Get(ip, row.question))
    ensures row.logit == (0.0, 1.0) || row.logit == (1.0, 0.0)
    ensures row.logit == (0.0, 1.0) <==> row.entity == Get(ip, row.question).value
  {
    EntityRowsMembers(ts, ip, row);
  }

  /** Every question of every passage is in the answer table under its passage
      id and idx, and the table holds nothing else. */
  lemma AnswerTableMeaning(ts: seq<RucosTarget>, key: (string, int))
    ensures Get(Collect(AnswerPairs(ts)), key).Some? <==>
      exists i, q :: 0 <= i < |ts| && 0 <= q < |ts[i].qas| && key == (PassageId(ts[i].idx), ts[i].qas[q].idx)
    ensures Get(Collect(AnswerPairs(ts)), key).Some? ==>
      exists i, q :: 0 <= i < |ts| && 0 <= q < |ts[i].qas| && key == (PassageId(ts[i].idx), ts[i].qas[q].idx) &&
        Get(Collect(AnswerPairs(ts)), key).value == ts[i].qas[q].answers
  {
    var pairs := AnswerPairs(ts);
    CollectLastWins(pairs, key);
    var w := LastWith(pairs, key);
    if w.Some? {
      FlattenMembers(KeyBlocks(ts), pairs[w.value]);
      var i :| 0 <= i < |ts| && pairs[w.value] in QuestionKeys(ts[i]);
      var q :| 0 <= q < |ts[i].qas| && QuestionKeys(ts[i])[q] == pairs[w.value];
    } else {
      forall i, q | 0 <= i < |ts| && 0 <= q < |ts[i].qas|
        ensures key != (PassageId(ts[i].idx), ts[i].qas[q].idx)
      {
        FlattenMembers(KeyBlocks(ts), QuestionKeys(ts[i])[q]);
        var j :| 0 <= j < |pairs| && pairs[j] == QuestionKeys(ts[i])[q];
      }
    }
  }
}
