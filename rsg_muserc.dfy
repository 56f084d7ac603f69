/** The muserc perplexity baseline: every answer of every question is scored by
    the perplexity of "passage Вопрос: question Ответ: answer", and the answers
    with the lowest perplexity (two among more than three, otherwise one) are
    labelled 1, the others 0. */
module RsgMuserc {
  import opened Wrappers
  import opened Dicts
  import opened Ranking
  import opened RsgBatching
  import opened Tables

  /** An answer: `idx`, `text` and the `label` the baseline writes, as `verdict`. */
  datatype MusercAnswer = MusercAnswer(idx: int, text: string, verdict: Option<int>)

  datatype MusercQuestion = MusercQuestion(idx: int, question: string, answers: seq<MusercAnswer>)

  /** A muserc record: `idx`, `passage.text` and `passage.questions`. */
  datatype MusercItem = MusercItem(idx: int, text: string, questions: seq<MusercQuestion>)

  /** A record as `muserc_get_answer` returns it: the passage text deleted. */
  datatype MusercResult = MusercResult(idx: int, questions: seq<MusercQuestion>)

  /** A batch entry: the phrase to score, the question id and the answer id. */
  datatype MusercPayload = MusercPayload(query: string, question: int, answer: int)

  /** The cleaned passage, the question and the answer text. */
  function MusercQuery(text: string, q: MusercQuestion, a: MusercAnswer): string {
    Clean(text) + " Вопрос: " + q.question + " Ответ: " + a.text
  }

  /** The batch entries of one question, one per answer. */
  function QuestionPayloads(text: string, q: MusercQuestion): (r: seq<MusercPayload>)
    ensures |r| == |q.answers|
    ensures forall j :: 0 <= j < |r| ==> r[j] == MusercPayload(MusercQuery(text, q, q.answers[j]), q.idx, q.answers[j].idx)
  {
    seq(|q.answers|, j requires 0 <= j < |q.answers| =>
      MusercPayload(MusercQuery(text, q, q.answers[j]), q.idx, q.answers[j].idx))
  }

  function PayloadBlocks(text: string, qs: seq<MusercQuestion>): (r: seq<seq<MusercPayload>>)
    ensures |r| == |qs|
    ensures forall i :: 0 <= i < |qs| ==> r[i] == QuestionPayloads(text, qs[i])
  {
    seq(|qs|, i requires 0 <= i < |qs| => QuestionPayloads(text, qs[i]))
  }

  /** Every batch entry of the passage, question by question. */
  function Entries(text: string, qs: seq<MusercQuestion>): seq<MusercPayload> {
    Flatten(PayloadBlocks(text, qs))
  }

  function Qids(qs: seq<MusercQuestion>): (r: seq<int>)
    ensures |r| == |qs|
    ensures forall i :: 0 <= i < |qs| ==> r[i] == qs[i].idx
  {
    seq(|qs|, i requires 0 <= i < |qs| => qs[i].idx)
  }

  function Aids(q: MusercQuestion): (r: seq<int>)
    ensures |r| == |q.answers|
    ensures forall j :: 0 <= j < |q.answers| ==> r[j] == q.answers[j].idx
  {
    seq(|q.answers|, j requires 0 <= j < |q.answers| => q.answers[j].idx)
  }

  /** `dict_perplexity[question_id]["answers"][answer_id] = 0` for each answer. */
  function Zeros(q: MusercQuestion): (r: seq<Score<int, int>>)
    ensures |r| == |q.answers|
    ensures forall j :: 0 <= j < |r| ==> r[j] == Score(q.idx, q.answers[j].idx, 0.0)
  {
    seq(|q.answers|, j requires 0 <= j < |q.answers| => Score(q.idx, q.answers[j].idx, 0.0))
  }

  function ZeroBlocks(qs: seq<MusercQuestion>): (r: seq<seq<Score<int, int>>>)
    ensures |r| == |qs|
    ensures forall i :: 0 <= i < |qs| ==> r[i] == Zeros(qs[i])
  {
    seq(|qs|, i requires 0 <= i < |qs| => Zeros(qs[i]))
  }

  /** The `dict_perplexity` built by `muserc_get_item`. */
  function Init(qs: seq<MusercQuestion>): Table<int, int> {
    OpenAll(Qids(qs), ZeroBlocks(qs))
  }

  /** `dict_perplexity[question_id]["answers"][answer_id] = perplexity of the query`. */
  function MusercScorer(ppl: string -> real): MusercPayload -> Score<int, int> {
    (e: MusercPayload) => Score(e.question, e.answer, ppl(e.query))
  }

  /** The table once every entry of the passage has been scored. */
  function Scored(text: string, qs: seq<MusercQuestion>, ppl: string -> real): Table<int, int> {
    AssignAll(Init(qs), Scores(Entries(text, qs), MusercScorer(ppl)))
  }

  function Mark(a: MusercAnswer, top: seq<int>): MusercAnswer {
    a.(verdict := Some(if a.idx in top then 1 else 0))
  }

  /** The answers before position `m` labelled 1 when selected and 0 otherwise. */
  function MarkPrefix(q: MusercQuestion, top: seq<int>, m: nat): (r: MusercQuestion)
    requires m <= |q.answers|
    ensures r.idx == q.idx && r.question == q.question && |r.answers| == |q.answers|
    ensures forall j :: 0 <= j < |q.answers| ==> r.answers[j] == if j < m then Mark(q.answers[j], top) else q.answers[j]
  {
    q.(answers := seq(|q.answers|, j requires 0 <= j < |q.answers| =>
      if j < m then Mark(q.answers[j], top) else q.answers[j]))
  }

  /** Every answer of the question labelled. */
  function MarkAnswers(q: MusercQuestion, top: seq<int>): MusercQuestion {
    MarkPrefix(q, top, |q.answers|)
  }

  /** The questions before position `m` whose idx is `qid` get their answers labelled. */
  function MarkQuestions(qs: seq<MusercQuestion>, qid: int, top: seq<int>, m: nat): (r: seq<MusercQuestion>)
    ensures |r| == |qs|
    ensures forall i :: 0 <= i < |qs| ==> r[i] == if i < m && qs[i].idx == qid then MarkAnswers(qs[i], top) else qs[i]
  {
    seq(|qs|, i requires 0 <= i < |qs| => if i < m && qs[i].idx == qid then MarkAnswers(qs[i], top) else qs[i])
  }

  /** The second loop of `muserc_process_item`: every question of the table in order. */
  function LabelAll(qs: seq<MusercQuestion>, t: Table<int, int>): (r: seq<MusercQuestion>)
    ensures |r| == |qs|
    decreases |t|
  {
    if t == [] then qs
    else
      var n := |t| - 1;
      var before := LabelAll(qs, t[..n]);
      MarkQuestions(before, t[n].0, Top(t[n].1), |before|)
  }

  /** The questions of a record as `muserc_process_item` labels them. */
  function Processed(item: MusercItem, ppl: string -> real): seq<MusercQuestion> {
    LabelAll(item.questions, Scored(item.text, item.questions, ppl))
  }

  /** A record with its questions labelled. */
  function Answered(item: MusercItem, ppl: string -> real): MusercItem {
    MusercItem(item.idx, item.text, Processed(item, ppl))
  }

  /** `muserc_get_answer`: what the baseline returns with a per-phrase scorer, whatever the batch size. */
  function MusercAnswers(data: seq<MusercItem>, ppl: string -> real): (r: seq<MusercResult>)
    ensures |r| == |data|
  {
    seq(|data|, i requires 0 <= i < |data| => MusercResult(data[i].idx, Processed(data[i], ppl)))
  }

  // The loops

  lemma EntriesStep(text: string, qs: seq<MusercQuestion>, p: nat)
    requires p < |qs|
    ensures Entries(text, qs[..p + 1]) == Entries(text, qs[..p]) + QuestionPayloads(text, qs[p])
  {
    assert PayloadBlocks(text, qs[..p + 1]) == PayloadBlocks(text, qs[..p]) + [QuestionPayloads(text, qs[p])];
    FlattenAppend(PayloadBlocks(text, qs[..p]), QuestionPayloads(text, qs[p]));
  }

  lemma InitStep(qs: seq<MusercQuestion>, p: nat)
    requires p < |qs|
    ensures Init(qs[..p + 1]) == Open(Init(qs[..p]), qs[p].idx, Zeros(qs[p]))
  {
    assert Qids(qs[..p + 1])[..p] == Qids(qs[..p]);
    assert ZeroBlocks(qs[..p + 1])[..p] == ZeroBlocks(qs[..p]);
  }

  lemma ZerosStep(q: MusercQuestion, j: nat, base: Table<int, int>)
    requires j < |q.answers|
    ensures AssignAll(base, Zeros(q)[..j + 1]) == Assign(AssignAll(base, Zeros(q)[..j]), Zeros(q)[j])
  {
    assert Zeros(q)[..j + 1][..j] == Zeros(q)[..j];
  }

  lemma PayloadsStep(text: string, q: MusercQuestion, j: nat, batchSize: int, done: seq<MusercPayload>)
    requires j < |q.answers|
    ensures Batches(done + QuestionPayloads(text, q)[..j + 1], batchSize)
         == Push(Batches(done + QuestionPayloads(text, q)[..j], batchSize), QuestionPayloads(text, q)[j], batchSize)
  {
    var ps := QuestionPayloads(text, q);
    assert done + ps[..j + 1] == (done + ps[..j]) + [ps[j]];
    BatchesAppend(done + ps[..j], ps[j], batchSize);
  }

  /** One answer of the inner loop of `muserc_get_item`. */
  method OpenAnswer(batches: seq<seq<MusercPayload>>, table: Table<int, int>, text: string, q: MusercQuestion,
                    j: nat, batchSize: int, ghost done: seq<MusercPayload>, ghost base: Table<int, int>)
    returns (batches': seq<seq<MusercPayload>>, table': Table<int, int>)
    requires j < |q.answers|
    requires batches == Batches(done + QuestionPayloads(text, q)[..j], batchSize)
    requires table == AssignAll(base, Zeros(q)[..j])
    ensures batches' == Batches(done + QuestionPayloads(text, q)[..j + 1], batchSize)
    ensures table' == AssignAll(base, Zeros(q)[..j + 1])
  {
    var a := q.answers[j];
    var query := Clean(text) + " Вопрос: " + q.question + " Ответ: " + a.text;
    table' := Put(table, q.idx, Put(Inner(table, q.idx), a.idx, 0.0));
    batches' := Push(batches, MusercPayload(query, q.idx, a.idx), batchSize);
    ZerosStep(q, j, base);
    PayloadsStep(text, q, j, batchSize, done);
  }

  /** `muserc_get_item`: the batches of entries of one record and its table of zeros. */
  method MusercGetItem(item: MusercItem, batchSize: int)
    returns (batches: seq<seq<MusercPayload>>, table: Table<int, int>)
    ensures batches == Batches(Entries(item.text, item.questions), batchSize)
    ensures table == Init(item.questions)
  {
    var qs := item.questions;
    batches := [[]];
    table := [];
    var p := 0;
    assert qs[..0] == [];
    assert Entries(item.text, qs[..0]) == [];
    while p < |qs|
      invariant 0 <= p <= |qs|
      invariant batches == Batches(Entries(item.text, qs[..p]), batchSize)
      invariant table == Init(qs[..p])
    {
      var q := qs[p];
      ghost var done := Entries(item.text, qs[..p]);
      var base := Put(table, q.idx, []);
      table := base;
      var j := 0;
      assert done + QuestionPayloads(item.text, q)[..0] == done;
      while j < |q.answers|
        invariant 0 <= j <= |q.answers|
        invariant batches == Batches(done + QuestionPayloads(item.text, q)[..j], batchSize)
        invariant table == AssignAll(base, Zeros(q)[..j])
      {
        batches, table := OpenAnswer(batches, table, item.text, q, j, batchSize, done, base);
        j := j + 1;
      }
      assert QuestionPayloads(item.text, q)[..j] == QuestionPayloads(item.text, q);
      assert Zeros(q)[..j] == Zeros(q);
      EntriesStep(item.text, qs, p);
      InitStep(qs, p);
      p := p + 1;
    }
    assert qs[..p] == qs;
  }

  /** The innermost loop of `muserc_process_item`: label every answer of question `i`. */
  method LabelQuestion(qs: array<MusercQuestion>, i: nat, top: seq<int>)
    requires i < qs.Length
    modifies qs
    ensures qs[..] == old(qs[..])[i := MarkAnswers(old(qs[i]), top)]
  {
    ghost var start := qs[..];
    var q := qs[i];
    var j := 0;
    assert MarkPrefix(q, top, 0) == q;
    while j < |q.answers|
      invariant 0 <= j <= |q.answers|
      invariant qs[..] == start[i := MarkPrefix(q, top, j)]
    {
      var cur := qs[i];
      var a := cur.answers[j];
      qs[i] := cur.(answers := cur.answers[j := a.(verdict := Some(if a.idx in top then 1 else 0))]);
      assert qs[i] == MarkPrefix(q, top, j + 1);
      j := j + 1;
    }
  }

  /** The questions whose idx is `qid` labelled with the selection `top`. */
  method LabelMatching(qs: array<MusercQuestion>, qid: int, top: seq<int>)
    modifies qs
    ensures qs[..] == MarkQuestions(old(qs[..]), qid, top, qs.Length)
  {
    ghost var start := qs[..];
    var i := 0;
    while i < qs.Length
      invariant 0 <= i <= qs.Length
      invariant qs[..] == MarkQuestions(start, qid, top, i)
    {
      if qs[i].idx == qid {
        LabelQuestion(qs, i, top);
      }
      assert qs[..] == MarkQuestions(start, qid, top, i + 1);
      i := i + 1;
    }
  }

  /** The second loop of `muserc_process_item`. */
  method LabelQuestions(qs: array<MusercQuestion>, t: Table<int, int>)
    modifies qs
    ensures qs[..] == LabelAll(old(qs[..]), t)
  {
    ghost var start := qs[..];
    var g := 0;
    assert t[..0] == [];
    while g < |t|
      invariant 0 <= g <= |t|
      invariant qs[..] == LabelAll(start, t[..g])
    {
      var top := DecideBatch(Keys(t[g].1), Values(t[g].1));
      assert t[..g + 1][..g] == t[..g];
      LabelMatching(qs, t[g].0, top);
      g := g + 1;
    }
    assert t[..g] == t;
  }

  /** `muserc_process_item`: the labelled questions of a record. */
  method MusercProcessItem(item: MusercItem, batches: seq<seq<MusercPayload>>, table: Table<int, int>, ppl: string -> real)
    returns (r: seq<MusercQuestion>)
    ensures r == LabelAll(item.questions, AssignAll(table, Scores(Flatten(batches), MusercScorer(ppl))))
  {
    var qs := new MusercQuestion[|item.questions|](i requires 0 <= i < |item.questions| => item.questions[i]);
    assert qs[..] == item.questions;
    var scored := ScoreBatches(batches, table, MusercScorer(ppl));
    LabelQuestions(qs, scored);
    r := qs[..];
  }

  /** One record of the first loop of `muserc_get_answer`. */
  method AnswerItem(item: MusercItem, batchSize: int, ppl: string -> real) returns (r: MusercItem)
    ensures r == Answered(item, ppl)
  {
    var batches, table := MusercGetItem(item, batchSize);
    BatchesFlatten(Entries(item.text, item.questions), batchSize);
    var qs := MusercProcessItem(item, batches, table, ppl);
    r := MusercItem(item.idx, item.text, qs);
  }

  /** The second loop of `muserc_get_answer`: `del line['passage']['text']`. */
  method DropTexts(data: seq<MusercItem>) returns (r: seq<MusercResult>)
    ensures |r| == |data|
    ensures forall k :: 0 <= k < |data| ==> r[k] == MusercResult(data[k].idx, data[k].questions)
  {
    r := [];
    var p := 0;
    while p < |data|
      invariant 0 <= p <= |data|
      invariant |r| == p
      invariant forall k :: 0 <= k < p ==> r[k] == MusercResult(data[k].idx, data[k].questions)
    {
      r := r + [MusercResult(data[p].idx, data[p].questions)];
      p := p + 1;
    }
  }

  /** `muserc_get_answer`: every record labelled, then its passage text deleted;
      with a per-phrase scorer, batching does not change the answers. */
  method MusercGetAnswer(data: seq<MusercItem>, batchSize: int, ppl: string -> real) returns (r: seq<MusercResult>)
    ensures r == MusercAnswers(data, ppl)
  {
    var newData := data;
    var i := 0;
    while i < |newData|
      invariant 0 <= i <= |newData| == |data|
      invariant forall p :: 0 <= p < i ==> newData[p] == Answered(data[p], ppl)
      invariant forall p :: i <= p < |data| ==> newData[p] == data[p]
    {
      var item := AnswerItem(newData[i], batchSize, ppl);
      newData := newData[i := item];
      i := i + 1;
    }
    r := DropTexts(newData);
    forall k | 0 <= k < |data|
      ensures r[k] == MusercAnswers(data, ppl)[k]
    {
      assert newData[k] == Answered(data[k], ppl);
    }
  }

  // What the labels mean when ids are distinct

  /** The perplexity of each answer's query, in answer order. */
  function Costs(text: string, q: MusercQuestion, ppl: string -> real): (r: seq<real>)
    ensures |r| == |q.answers|
    ensures forall j :: 0 <= j < |r| ==> r[j] == ppl(MusercQuery(text, q, q.answers[j]))
  {
    seq(|q.answers|, j requires 0 <= j < |q.answers| => ppl(MusercQuery(text, q, q.answers[j])))
  }

  /** How many answers `muserc_decide_batch` selects among `n`. */
  function Quota(n: nat): nat {
    if n > 3 then 2 else 1
  }

  /** The question with answer `j` labelled 1 when position `j` is among the
      `Quota` least perplexing positions (ties to the earlier one), 0 otherwise. */
  function Expected(text: string, q: MusercQuestion, ppl: string -> real): (r: MusercQuestion)
    ensures r.idx == q.idx && r.question == q.question && |r.answers| == |q.answers|
  {
    var top := TopK(Costs(text, q, ppl), Quota(|q.answers|));
    q.(answers := seq(|q.answers|, j requires 0 <= j < |q.answers| =>
      q.answers[j].(verdict := Some(if j in top then 1 else 0))))
  }

  /** Question ids are distinct, and answer ids are distinct within each question. */
  ghost predicate DistinctIds(qs: seq<MusercQuestion>) {
    Distinct(Qids(qs)) && forall i :: 0 <= i < |qs| ==> Distinct(Aids(qs[i]))
  }

  function ScoreBlocks(text: string, qs: seq<MusercQuestion>, ppl: string -> real): (r: seq<seq<Score<int, int>>>)
    ensures |r| == |qs|
    ensures forall i :: 0 <= i < |qs| ==> r[i] == Scores(QuestionPayloads(text, qs[i]), MusercScorer(ppl))
  {
    seq(|qs|, i requires 0 <= i < |qs| => Scores(QuestionPayloads(text, qs[i]), MusercScorer(ppl)))
  }

  /** A question's answer table once scored. */
  function FinalTable(text: string, q: MusercQuestion, ppl: string -> real): Dict<int, real> {
    PutScores(PutScores([], Zeros(q)), Scores(QuestionPayloads(text, q), MusercScorer(ppl)))
  }

  lemma {:induction false} ScoresFlatten(text: string, qs: seq<MusercQuestion>, ppl: string -> real, m: nat)
    requires m <= |qs|
    ensures Scores(Flatten(PayloadBlocks(text, qs)[..m]), MusercScorer(ppl)) == Flatten(ScoreBlocks(text, qs, ppl)[..m])
  {
    if m == 0 {
      assert PayloadBlocks(text, qs)[..0] == [];
      assert ScoreBlocks(text, qs, ppl)[..0] == [];
    } else {
      ScoresFlatten(text, qs, ppl, m - 1);
      FlattenStep(PayloadBlocks(text, qs), m - 1);
      FlattenStep(ScoreBlocks(text, qs, ppl), m - 1);
      ScoresConcat(Flatten(PayloadBlocks(text, qs)[..m - 1]), QuestionPayloads(text, qs[m - 1]), MusercScorer(ppl));
    }
  }

  lemma InitShape(qs: seq<MusercQuestion>)
    requires Distinct(Qids(qs))
    ensures Init(qs) == Opened(Qids(qs), ZeroBlocks(qs), |qs|)
    ensures Keys(Init(qs)) == Qids(qs)
  {
    var qids := Qids(qs);
    var zb := ZeroBlocks(qs);
    assert KeyedBy(zb, qids);
    OpenAllShape(qids, zb);
    var t := Opened(qids, zb, |qs|);
    assert Keys(t) == qids;
  }

  lemma EntriesScores(text: string, qs: seq<MusercQuestion>, ppl: string -> real)
    ensures Scores(Entries(text, qs), MusercScorer(ppl)) == Flatten(ScoreBlocks(text, qs, ppl))
  {
    var n := |qs|;
    ScoresFlatten(text, qs, ppl, n);
    assert PayloadBlocks(text, qs)[..n] == PayloadBlocks(text, qs);
    assert ScoreBlocks(text, qs, ppl)[..n] == ScoreBlocks(text, qs, ppl);
  }

  ghost predicate ShapedBy(text: string, qs: seq<MusercQuestion>, ppl: string -> real, t: Table<int, int>) {
    |t| == |qs| && forall i :: 0 <= i < |qs| ==> t[i] == (qs[i].idx, FinalTable(text, qs[i], ppl))
  }

  /** With distinct question ids the scored table has one entry per question, in
      order, holding that question's own scored answer table. */
  lemma ScoredShape(text: string, qs: seq<MusercQuestion>, ppl: string -> real)
    requires Distinct(Qids(qs))
    ensures ShapedBy(text, qs, ppl, Scored(text, qs, ppl))
  {
    var n := |qs|;
    var sb := ScoreBlocks(text, qs, ppl);
    InitShape(qs);
    var t := Init(qs);
    assert KeyedBy(sb, Keys(t));
    AssignBlocks(t, sb, n);
    assert sb[..n] == sb;
    EntriesScores(text, qs, ppl);
    var a := Applied(t, sb, n);
    assert Scored(text, qs, ppl) == a;
    forall i | 0 <= i < |qs| ensures a[i] == (qs[i].idx, FinalTable(text, qs[i], ppl)) {
      assert t[i] == (qs[i].idx, PutScores([], Zeros(qs[i])));
    }
  }

  /** With distinct answer ids a question's scored table lists every answer id
      once, in answer order, with the perplexity of its query. */
  lemma FinalTableShape(text: string, q: MusercQuestion, ppl: string -> real)
    requires Distinct(Aids(q))
    ensures Keys(FinalTable(text, q, ppl)) == Aids(q)
    ensures Values(FinalTable(text, q, ppl)) == Costs(text, q, ppl)
  {
    var zeros := Zeros(q);
    assert Cands(zeros) == Aids(q);
    FreshScores(zeros);
    var d := ScorePairs(zeros);
    assert Keys(d) == Aids(q);
    var scores := Scores(QuestionPayloads(text, q), MusercScorer(ppl));
    assert Cands(scores) == Aids(q);
    RescorePairs(d, scores);
    var t := ScorePairs(scores);
    assert Keys(t) == Aids(q);
    assert Values(t) == Costs(text, q, ppl);
  }

  /** Labelling a question with the selection of its own scored table gives the expected labels. */
  lemma MarkExpected(text: string, q: MusercQuestion, ppl: string -> real)
    requires Distinct(Aids(q))
    ensures MarkAnswers(q, Top(FinalTable(text, q, ppl))) == Expected(text, q, ppl)
  {
    FinalTableShape(text, q, ppl);
    var costs := Costs(text, q, ppl);
    var k := Quota(|q.answers|);
    var top := Top(FinalTable(text, q, ppl));
    assert top == TopKeys(Aids(q), costs, k);
    var r := MarkAnswers(q, top);
    var e := Expected(text, q, ppl);
    forall j | 0 <= j < |q.answers| ensures r.answers[j] == e.answers[j] {
      TopKeysMember(Aids(q), costs, k, j);
    }
  }

  /** The first `g` questions with their expected labels, the rest untouched. */
  function Labelled(text: string, qs: seq<MusercQuestion>, ppl: string -> real, g: nat): (r: seq<MusercQuestion>)
    ensures |r| == |qs|
    ensures forall i :: 0 <= i < |qs| ==> r[i] == if i < g then Expected(text, qs[i], ppl) else qs[i]
  {
    seq(|qs|, i requires 0 <= i < |qs| => if i < g then Expected(text, qs[i], ppl) else qs[i])
  }

  lemma LabelStep(text: string, qs: seq<MusercQuestion>, ppl: string -> real, g: nat)
    requires DistinctIds(qs) && g < |qs|
    ensures MarkQuestions(Labelled(text, qs, ppl, g), qs[g].idx, Top(FinalTable(text, qs[g], ppl)), |qs|)
         == Labelled(text, qs, ppl, g + 1)
  {
    var before := Labelled(text, qs, ppl, g);
    var top := Top(FinalTable(text, qs[g], ppl));
    var r := MarkQuestions(before, qs[g].idx, top, |qs|);
    var after := Labelled(text, qs, ppl, g + 1);
    MarkExpected(text, qs[g], ppl);
    forall i | 0 <= i < |qs| ensures r[i] == after[i] {
      if i != g {
        assert Qids(qs)[i] != Qids(qs)[g];
        assert before[i].idx == qs[i].idx;
      }
    }
  }

  lemma {:induction false} LabelPrefix(text: string, qs: seq<MusercQuestion>, ppl: string -> real, t: Table<int, int>, g: nat)
    requires DistinctIds(qs) && ShapedBy(text, qs, ppl, t) && g <= |qs|
    ensures LabelAll(qs, t[..g]) == Labelled(text, qs, ppl, g)
  {
    if g == 0 {
      assert t[..0] == [];
      assert Labelled(text, qs, ppl, 0) == qs;
    } else {
      LabelPrefix(text, qs, ppl, t, g - 1);
      assert t[..g][..g - 1] == t[..g - 1];
      assert t[..g][g - 1] == (qs[g - 1].idx, FinalTable(text, qs[g - 1], ppl));
      LabelStep(text, qs, ppl, g - 1);
    }
  }

  /** With distinct question ids and distinct answer ids per question,
      `muserc_process_item` labels answer `j` of a question 1 exactly when `j`
      is among the two (more than three answers) or the one least perplexing
      positions, ties going to the earlier answer, and 0 otherwise; nothing
      else changes. */
  lemma MusercMeaning(item: MusercItem, ppl: string -> real)
    requires DistinctIds(item.questions)
    ensures |Processed(item, ppl)| == |item.questions|
    ensures forall i :: 0 <= i < |item.questions| ==>
      Processed(item, ppl)[i].idx == item.questions[i].idx &&
      Processed(item, ppl)[i].question == item.questions[i].question &&
      |Processed(item, ppl)[i].answers| == |item.questions[i].answers|
    ensures forall i, j :: 0 <= i < |item.questions| && 0 <= j < |item.questions[i].answers| ==>
      Processed(item, ppl)[i].answers[j] == item.questions[i].answers[j].(verdict :=
        Some(if j in TopK(Costs(item.text, item.questions[i], ppl), Quota(|item.questions[i].answers|)) then 1 else 0))
  {
    var qs := item.questions;
    var t := Scored(item.text, qs, ppl);
    ScoredShape(item.text, qs, ppl);
    LabelPrefix(item.text, qs, ppl, t, |qs|);
    assert t[..|qs|] == t;
  }

  /** Among the answers of one question, exactly `min(Quota, n)` are labelled 1,
      and each of them is less perplexing than, or as perplexing as and earlier
      than, every answer labelled 0. */
  lemma ExpectedSelects(text: string, q: MusercQuestion, ppl: string -> real)
    ensures |set j | 0 <= j < |q.answers| && Expected(text, q, ppl).answers[j].verdict == Some(1)|
         == if Quota(|q.answers|) < |q.answers| then Quota(|q.answers|) else |q.answers|
    ensures forall i, j ::
      (0 <= i < |q.answers| && 0 <= j < |q.answers| &&
       Expected(text, q, ppl).answers[i].verdict == Some(1) && Expected(text, q, ppl).answers[j].verdict == Some(0)) ==>
      Before(Costs(text, q, ppl), i, j)
  {
    var costs := Costs(text, q, ppl);
    var top := TopK(costs, Quota(|q.answers|));
    var e := Expected(text, q, ppl);
    assert forall j :: 0 <= j < |q.answers| ==> (e.answers[j].verdict == Some(1) <==> j in top);
    assert (set j | 0 <= j < |q.answers| && e.answers[j].verdict == Some(1)) == (set x: nat | x in top);
    TopKCount(costs, Quota(|q.answers|));
    TopKSelects(costs, Quota(|q.answers|));
  }
}
