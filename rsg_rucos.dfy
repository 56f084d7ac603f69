/** The rucos perplexity baseline: every entity of a passage is put in place of
    `@placeholder` in the passage's first query, and the passage is answered with
    the entity text whose query is least perplexing. Entities are keyed by their
    text, so repeated entity strings share one slot. */
module RsgRucos {
  import opened Wrappers
  import opened Text
  import opened Dicts
  import opened Ranking
  import opened RsgBatching
  import opened RsgPointwise
  import opened Tables

  /** An entity mention: `passage.text[start:end]`. */
  datatype Span = Span(start: int, end: int)

  /** A rucos record: `idx`, `passage.text`, `passage.entities` and the `query` of each of `qas`. */
  datatype RucosItem = RucosItem(idx: int, text: string, entities: seq<Span>, queries: seq<string>)

  /** A batch entry: the phrase to score, the entity text and the passage id. */
  datatype RucosPayload = RucosPayload(query: string, answer: string, passage: int)

  function RucosIdx(item: RucosItem): int {
    item.idx
  }

  /** The entity texts of a passage, in mention order, repeats included. */
  function Candidates(item: RucosItem): (r: seq<string>)
    ensures |r| == |item.entities|
    ensures forall j :: 0 <= j < |r| ==> r[j] == PySlice(item.text, item.entities[j].start, item.entities[j].end)
  {
    seq(|item.entities|, j requires 0 <= j < |item.entities| =>
      PySlice(item.text, item.entities[j].start, item.entities[j].end))
  }

  /** The passage, the word "Заголовок:", and the query with `@placeholder` replaced by the entity text. */
  function RucosQuery(text: string, question: string, answer: string): string {
    text + " Заголовок: " + Replace(question, "@placeholder", answer)
  }

  /** Every passage has a query (`qas[0]` exists). */
  predicate HasQuery(items: seq<RucosItem>) {
    forall p :: 0 <= p < |items| ==> items[p].queries != []
  }

  /** The batch entries of one passage, one per entity mention. */
  function ItemPayloads(item: RucosItem): (r: seq<RucosPayload>)
    requires item.queries != []
    ensures |r| == |item.entities|
    ensures forall j :: 0 <= j < |r| ==>
      r[j] == RucosPayload(RucosQuery(item.text, item.queries[0], Candidates(item)[j]), Candidates(item)[j], item.idx)
  {
    var cands := Candidates(item);
    seq(|cands|, j requires 0 <= j < |cands| =>
      RucosPayload(RucosQuery(item.text, item.queries[0], cands[j]), cands[j], item.idx))
  }

  function PayloadBlocks(items: seq<RucosItem>): (r: seq<seq<RucosPayload>>)
    requires HasQuery(items)
    ensures |r| == |items|
    ensures forall p :: 0 <= p < |items| ==> r[p] == ItemPayloads(items[p])
  {
    seq(|items|, p requires 0 <= p < |items| && HasQuery(items) => ItemPayloads(items[p]))
  }

  /** Every batch entry of every passage, in order. */
  function Entries(items: seq<RucosItem>): seq<RucosPayload>
    requires HasQuery(items)
  {
    Flatten(PayloadBlocks(items))
  }

  function Pids(items: seq<RucosItem>): (r: seq<int>)
    ensures |r| == |items|
    ensures forall p :: 0 <= p < |items| ==> r[p] == items[p].idx
  {
    seq(|items|, p requires 0 <= p < |items| => items[p].idx)
  }

  /** `dict_perplexity[passage_id][a] = 0` for each entity text of a passage. */
  function Zeros(item: RucosItem): (r: seq<Score<int, string>>)
    ensures |r| == |item.entities|
    ensures forall j :: 0 <= j < |r| ==> r[j] == Score(item.idx, Candidates(item)[j], 0.0)
  {
    var cands := Candidates(item);
    seq(|cands|, j requires 0 <= j < |cands| => Score(item.idx, cands[j], 0.0))
  }

  function ZeroBlocks(items: seq<RucosItem>): (r: seq<seq<Score<int, string>>>)
    ensures |r| == |items|
    ensures forall p :: 0 <= p < |items| ==> r[p] == Zeros(items[p])
  {
    seq(|items|, p requires 0 <= p < |items| => Zeros(items[p]))
  }

  /** The `dict_perplexity` built by `rucos_get_items`. */
  function Init(items: seq<RucosItem>): Table<int, string> {
    OpenAll(Pids(items), ZeroBlocks(items))
  }

  /** `dict_perplexity[passage_id][answer] = perplexity of the query`. */
  function RucosScorer(ppl: string -> real): RucosPayload -> Score<int, string> {
    (e: RucosPayload) => Score(e.passage, e.answer, ppl(e.query))
  }

  function Triples(entries: seq<RucosPayload>, ppl: string -> real): seq<Score<int, string>> {
    Scores(entries, RucosScorer(ppl))
  }

  /** The table once every entry has been scored. */
  function Scored(items: seq<RucosItem>, ppl: string -> real): Table<int, string>
    requires HasQuery(items)
  {
    AssignAll(Init(items), Triples(Entries(items), ppl))
  }

  /** The rows before position `m` whose idx is `pid` replaced by `{'idx', 'label': top[0]}`. */
  function Relabel(rows: seq<Row<RucosItem>>, pid: int, top: seq<string>, m: nat): (r: seq<Row<RucosItem>>)
    ensures |r| == |rows|
    ensures forall i :: 0 <= i < |rows| ==>
      r[i] == if i < m && top != [] && IdxOf(rows[i], RucosIdx) == pid then Done(Answer(pid, Str(top[0]))) else rows[i]
  {
    seq(|rows|, i requires 0 <= i < |rows| =>
      if i < m && top != [] && IdxOf(rows[i], RucosIdx) == pid then Done(Answer(pid, Str(top[0]))) else rows[i])
  }

  /** One passage of the second loop of `rucos_process_items`: `top_ind_res[0]`
      raises `IndexError` when a row has the passage's idx and nothing was selected. */
  function LabelPassage(rows: seq<Row<RucosItem>>, pid: int, top: seq<string>): (r: Result<seq<Row<RucosItem>>>)
    ensures r.Err? ==> r.error == IndexError
    ensures r.Ok? ==> |r.value| == |rows|
  {
    if top == [] && exists i :: 0 <= i < |rows| && IdxOf(rows[i], RucosIdx) == pid then Err(IndexError)
    else Ok(Relabel(rows, pid, top, |rows|))
  }

  /** The second loop of `rucos_process_items`: every passage of the table in order. */
  function LabelAll(rows: seq<Row<RucosItem>>, t: Table<int, string>): (r: Result<seq<Row<RucosItem>>>)
    ensures r.Err? ==> r.error == IndexError
    ensures r.Ok? ==> |r.value| == |rows|
    decreases |t|
  {
    if t == [] then Ok(rows)
    else
      var n := |t| - 1;
      match LabelAll(rows, t[..n])
      case Err(e) => Err(e)
      case Ok(rs) => LabelPassage(rs, t[n].0, Top(t[n].1))
  }

  /** `rucos_get_answer`: what the baseline returns with a per-phrase scorer, whatever the batch size. */
  function RucosAnswers(items: seq<RucosItem>, ppl: string -> real): Result<seq<Row<RucosItem>>> {
    if !HasQuery(items) then Err(IndexError) else LabelAll(Pendings(items), Scored(items, ppl))
  }

  // The loops

  lemma EntriesStep(items: seq<RucosItem>, p: nat)
    requires p < |items| && HasQuery(items[..p + 1])
    ensures HasQuery(items[..p])
    ensures Entries(items[..p + 1]) == Entries(items[..p]) + ItemPayloads(items[p])
  {
    assert HasQuery(items[..p]) by {
      forall q | 0 <= q < p ensures items[..p][q].queries != [] {
        assert items[..p][q] == items[..p + 1][q];
      }
    }
    var blocks := PayloadBlocks(items[..p + 1]);
    assert blocks == PayloadBlocks(items[..p]) + [ItemPayloads(items[p])];
    FlattenAppend(PayloadBlocks(items[..p]), ItemPayloads(items[p]));
  }

  lemma InitStep(items: seq<RucosItem>, p: nat)
    requires p < |items|
    ensures Init(items[..p + 1]) == Open(Init(items[..p]), items[p].idx, Zeros(items[p]))
  {
    assert Pids(items[..p + 1])[..p] == Pids(items[..p]);
    assert ZeroBlocks(items[..p + 1])[..p] == ZeroBlocks(items[..p]);
  }

  lemma ZerosStep(item: RucosItem, j: nat, base: Table<int, string>)
    requires j < |item.entities|
    ensures AssignAll(base, Zeros(item)[..j + 1]) == Assign(AssignAll(base, Zeros(item)[..j]), Zeros(item)[j])
  {
    assert Zeros(item)[..j + 1][..j] == Zeros(item)[..j];
  }

  lemma PayloadsStep(item: RucosItem, j: nat, batchSize: int, done: seq<RucosPayload>)
    requires item.queries != [] && j < |item.entities|
    ensures Batches(done + ItemPayloads(item)[..j + 1], batchSize)
         == Push(Batches(done + ItemPayloads(item)[..j], batchSize), ItemPayloads(item)[j], batchSize)
  {
    assert done + ItemPayloads(item)[..j + 1] == (done + ItemPayloads(item)[..j]) + [ItemPayloads(item)[j]];
    BatchesAppend(done + ItemPayloads(item)[..j], ItemPayloads(item)[j], batchSize);
  }

  /** One entity of the inner loop of `rucos_get_items`. */
  method OpenEntity(batches: seq<seq<RucosPayload>>, table: Table<int, string>, item: RucosItem, j: nat, batchSize: int,
                    ghost done: seq<RucosPayload>, ghost base: Table<int, string>)
    returns (batches': seq<seq<RucosPayload>>, table': Table<int, string>)
    requires item.queries != [] && j < |item.entities|
    requires batches == Batches(done + ItemPayloads(item)[..j], batchSize)
    requires table == AssignAll(base, Zeros(item)[..j])
    ensures batches' == Batches(done + ItemPayloads(item)[..j + 1], batchSize)
    ensures table' == AssignAll(base, Zeros(item)[..j + 1])
  {
    var a := PySlice(item.text, item.entities[j].start, item.entities[j].end);
    var query := RucosQuery(item.text, item.queries[0], a);
    table' := Put(table, item.idx, Put(Inner(table, item.idx), a, 0.0));
    batches' := Push(batches, RucosPayload(query, a, item.idx), batchSize);
    ZerosStep(item, j, base);
    PayloadsStep(item, j, batchSize, done);
  }

  /** `for entity in entities`: every entity mention of one passage, in order. */
  method OpenPassage(batches: seq<seq<RucosPayload>>, table: Table<int, string>, item: RucosItem, batchSize: int,
                     ghost done: seq<RucosPayload>, ghost base: Table<int, string>)
    returns (batches': seq<seq<RucosPayload>>, table': Table<int, string>)
    requires item.queries != []
    requires batches == Batches(done, batchSize) && table == base
    ensures batches' == Batches(done + ItemPayloads(item), batchSize)
    ensures table' == AssignAll(base, Zeros(item))
  {
    batches', table' := batches, table;
    var j := 0;
    assert done + ItemPayloads(item)[..0] == done;
    while j < |item.entities|
      invariant 0 <= j <= |item.entities|
      invariant batches' == Batches(done + ItemPayloads(item)[..j], batchSize)
      invariant table' == AssignAll(base, Zeros(item)[..j])
    {
      batches', table' := OpenEntity(batches', table', item, j, batchSize, done, base);
      j := j + 1;
    }
    assert ItemPayloads(item)[..j] == ItemPayloads(item);
    assert Zeros(item)[..j] == Zeros(item);
  }

  /** A passage with a query extends the entries by its own, and the table by
      its row of zeros. */
  lemma PassageStep(items: seq<RucosItem>, p: nat)
    requires p < |items| && HasQuery(items[..p]) && items[p].queries != []
    ensures HasQuery(items[..p + 1])
    ensures Entries(items[..p + 1]) == Entries(items[..p]) + ItemPayloads(items[p])
    ensures Init(items[..p + 1]) == AssignAll(Put(Init(items[..p]), items[p].idx, []), Zeros(items[p]))
  {
    var pre := items[..p + 1];
    forall q | 0 <= q < |pre| ensures pre[q].queries != [] {
      if q < p {
        assert pre[q] == items[..p][q];
      }
    }
    EntriesStep(items, p);
    InitStep(items, p);
  }

  /** `rucos_get_items`: the batches of entries and the table of zeros, or the
      `IndexError` of the first passage without a query. */
  method RucosGetItems(items: seq<RucosItem>, batchSize: int)
    returns (r: Result<(seq<seq<RucosPayload>>, Table<int, string>)>)
    ensures !HasQuery(items) ==> r == Err(IndexError)
    ensures HasQuery(items) ==> r == Ok((Batches(Entries(items), batchSize), Init(items)))
  {
    var batches: seq<seq<RucosPayload>> := [[]];
    var table: Table<int, string> := [];
    var p := 0;
    assert items[..0] == [];
    assert Entries(items[..0]) == [];
    while p < |items|
      invariant 0 <= p <= |items|
      invariant HasQuery(items[..p])
      invariant batches == Batches(Entries(items[..p]), batchSize)
      invariant table == Init(items[..p])
    {
      var item := items[p];
      ghost var done := Entries(items[..p]);
      var base := Put(table, item.idx, []);
      table := base;
      if item.queries == [] {
        return Err(IndexError);
      }
      PassageStep(items, p);
      batches, table := OpenPassage(batches, table, item, batchSize, done, base);
      p := p + 1;
    }
    assert items[..p] == items;
    return Ok((batches, table));
  }

  /** The rows of one passage of the second loop; `false` when `top_ind_res[0]` raises. */
  method LabelPassageRows(rows: array<Row<RucosItem>>, pid: int, top: seq<string>) returns (ok: bool)
    modifies rows
    ensures ok <==> LabelPassage(old(rows[..]), pid, top).Ok?
    ensures ok ==> rows[..] == LabelPassage(old(rows[..]), pid, top).value
  {
    ghost var start := rows[..];
    var p := 0;
    while p < rows.Length
      invariant 0 <= p <= rows.Length
      invariant rows[..] == Relabel(start, pid, top, p)
      invariant top == [] ==> forall i :: 0 <= i < p ==> IdxOf(start[i], RucosIdx) != pid
    {
      if IdxOf(rows[p], RucosIdx) == pid {
        if |top| == 0 {
          assert IdxOf(start[p], RucosIdx) == pid;
          return false;
        }
        rows[p] := Done(Answer(IdxOf(rows[p], RucosIdx), Str(top[0])));
      }
      p := p + 1;
    }
    return true;
  }

  lemma {:induction false} LabelAllErr(rows: seq<Row<RucosItem>>, t: Table<int, string>, g: nat)
    requires g <= |t| && LabelAll(rows, t[..g]).Err?
    ensures LabelAll(rows, t).Err?
    decreases |t| - g
  {
    if g < |t| {
      assert t[..g + 1][..g] == t[..g];
      LabelAllErr(rows, t, g + 1);
    } else {
      assert t[..g] == t;
    }
  }

  lemma LabelAllStep(rows: seq<Row<RucosItem>>, t: Table<int, string>, g: nat)
    requires g < |t| && LabelAll(rows, t[..g]).Ok?
    ensures LabelAll(rows, t[..g + 1]) == LabelPassage(LabelAll(rows, t[..g]).value, t[g].0, Top(t[g].1))
  {
    assert t[..g + 1][..g] == t[..g];
  }

  /** The second loop of `rucos_process_items`; `false` when it raises. */
  method LabelRows(rows: array<Row<RucosItem>>, t: Table<int, string>) returns (ok: bool)
    modifies rows
    ensures ok <==> LabelAll(old(rows[..]), t).Ok?
    ensures ok ==> rows[..] == LabelAll(old(rows[..]), t).value
  {
    ghost var start := rows[..];
    var g := 0;
    while g < |t|
      invariant 0 <= g <= |t|
      invariant LabelAll(start, t[..g]).Ok? && rows[..] == LabelAll(start, t[..g]).value
    {
      var pid := t[g].0;
      var answers := t[g].1;
      var top := DecideBatch(Keys(answers), Values(answers));
      LabelAllStep(start, t, g);
      ok := LabelPassageRows(rows, pid, top);
      if !ok {
        LabelAllErr(start, t, g + 1);
        return;
      }
      g := g + 1;
    }
    assert t[..g] == t;
    return true;
  }

  /** `rucos_process_items`. */
  method RucosProcessItems(items: seq<RucosItem>, batches: seq<seq<RucosPayload>>, table: Table<int, string>, ppl: string -> real)
    returns (r: Result<seq<Row<RucosItem>>>)
    ensures r == LabelAll(Pendings(items), AssignAll(table, Triples(Flatten(batches), ppl)))
  {
    var rows := new Row<RucosItem>[|items|](i requires 0 <= i < |items| => Pending(items[i]));
    assert rows[..] == Pendings(items);
    var scored := ScoreBatches(batches, table, RucosScorer(ppl));
    var ok := LabelRows(rows, scored);
    if ok {
      r := Ok(rows[..]);
    } else {
      r := Err(IndexError);
    }
  }

  /** `rucos_get_answer`: with a per-phrase scorer, batching does not change the answers. */
  method RucosGetAnswer(items: seq<RucosItem>, batchSize: int, ppl: string -> real) returns (r: Result<seq<Row<RucosItem>>>)
    ensures r == RucosAnswers(items, ppl)
  {
    var got := RucosGetItems(items, batchSize);
    if got.Err? {
      return Err(got.error);
    }
    var batches := got.value.0;
    var table := got.value.1;
    BatchesFlatten(Entries(items), batchSize);
    r := RucosProcessItems(items, batches, table, ppl);
  }

  // What the answers mean when passage ids are distinct

  /** The perplexity of the query built for entity text `a` of a passage. */
  function EntityCost(item: RucosItem, ppl: string -> real): string -> real
    requires item.queries != []
  {
    a => ppl(RucosQuery(item.text, item.queries[0], a))
  }

  /** The perplexity of each entity mention, in mention order. */
  function Costs(item: RucosItem, ppl: string -> real): (r: seq<real>)
    requires item.queries != []
    ensures |r| == |item.entities|
  {
    Map(EntityCost(item, ppl), Candidates(item))
  }

  /** The expected label: the text of the first mention whose query is least perplexing. */
  function Winner(item: RucosItem, ppl: string -> real): string
    requires item.queries != [] && item.entities != []
  {
    Candidates(item)[ArgMin(Costs(item, ppl))]
  }

  function ScoreBlocks(items: seq<RucosItem>, ppl: string -> real): (r: seq<seq<Score<int, string>>>)
    requires HasQuery(items)
    ensures |r| == |items|
    ensures forall p :: 0 <= p < |items| ==> r[p] == Triples(ItemPayloads(items[p]), ppl)
  {
    seq(|items|, p requires 0 <= p < |items| && HasQuery(items) => Triples(ItemPayloads(items[p]), ppl))
  }

  /** A passage's entity table once scored: every distinct entity text with its perplexity. */
  function FinalTable(item: RucosItem, ppl: string -> real): Dict<string, real>
    requires item.queries != []
  {
    PutScores(PutScores([], Zeros(item)), Triples(ItemPayloads(item), ppl))
  }

  lemma {:induction false} TriplesFlatten(items: seq<RucosItem>, ppl: string -> real, m: nat)
    requires HasQuery(items) && m <= |items|
    ensures Triples(Flatten(PayloadBlocks(items)[..m]), ppl) == Flatten(ScoreBlocks(items, ppl)[..m])
  {
    if m == 0 {
      assert PayloadBlocks(items)[..0] == [];
      assert ScoreBlocks(items, ppl)[..0] == [];
    } else {
      TriplesFlatten(items, ppl, m - 1);
      FlattenStep(PayloadBlocks(items), m - 1);
      FlattenStep(ScoreBlocks(items, ppl), m - 1);
      ScoresConcat(Flatten(PayloadBlocks(items)[..m - 1]), ItemPayloads(items[m - 1]), RucosScorer(ppl));
    }
  }

  /** With distinct passage ids the scored table has one entry per passage, in
      order, holding that passage's own scored entity table. */
  lemma InitShape(items: seq<RucosItem>)
    requires Distinct(Pids(items))
    ensures Init(items) == Opened(Pids(items), ZeroBlocks(items), |items|)
    ensures Keys(Init(items)) == Pids(items)
  {
    var pids := Pids(items);
    var zb := ZeroBlocks(items);
    assert KeyedBy(zb, pids);
    OpenAllShape(pids, zb);
    var t := Opened(pids, zb, |items|);
    assert Keys(t) == pids;
  }

  lemma EntriesTriples(items: seq<RucosItem>, ppl: string -> real)
    requires HasQuery(items)
    ensures Triples(Entries(items), ppl) == Flatten(ScoreBlocks(items, ppl))
  {
    var n := |items|;
    TriplesFlatten(items, ppl, n);
    assert PayloadBlocks(items)[..n] == PayloadBlocks(items);
    assert ScoreBlocks(items, ppl)[..n] == ScoreBlocks(items, ppl);
  }

  /** With distinct passage ids the scored table has one entry per passage, in
      order, holding that passage's own scored entity table. */
  lemma ScoredShape(items: seq<RucosItem>, ppl: string -> real)
    requires HasQuery(items) && Distinct(Pids(items))
    ensures ShapedBy(items, ppl, Scored(items, ppl))
  {
    ScoredApplied(items, ppl);
    InitShape(items);
    var t := Init(items);
    var a := Applied(t, ScoreBlocks(items, ppl), |items|);
    forall q | 0 <= q < |items| ensures a[q] == (items[q].idx, FinalTable(items[q], ppl)) {
      assert t[q] == (items[q].idx, PutScores([], Zeros(items[q])));
    }
  }

  /** Scoring applies each passage's block to its own entry of the table. */
  lemma ScoredApplied(items: seq<RucosItem>, ppl: string -> real)
    requires HasQuery(items) && Distinct(Pids(items))
    ensures |Init(items)| == |items| && Scored(items, ppl) == Applied(Init(items), ScoreBlocks(items, ppl), |items|)
  {
    var n := |items|;
    var sb := ScoreBlocks(items, ppl);
    InitShape(items);
    var t := Init(items);
    KeyedScores(items, ppl);
    AssignBlocks(t, sb, n);
    assert sb[..n] == sb;
    EntriesTriples(items, ppl);
    assert Scored(items, ppl) == AssignAll(t, Flatten(sb));
  }

  /** Block `p` of the scores only assigns under the id of passage `p`. */
  lemma KeyedScores(items: seq<RucosItem>, ppl: string -> real)
    requires HasQuery(items)
    ensures KeyedBy(ScoreBlocks(items, ppl), Pids(items))
  {
    var sb: seq<seq<Score<int, string>>> := ScoreBlocks(items, ppl);
    forall p: int, j: int | 0 <= p < |sb| && 0 <= j < |sb[p]| ensures sb[p][j].key == Pids(items)[p] {
      assert sb[p][j] == RucosScorer(ppl)(ItemPayloads(items[p])[j]);
    }
  }

  lemma CandsOfZeros(item: RucosItem)
    ensures Cands(Zeros(item)) == Candidates(item)
  {
  }

  lemma CandsOfTriples(item: RucosItem, ppl: string -> real)
    requires item.queries != []
    ensures Cands(Triples(ItemPayloads(item), ppl)) == Candidates(item)
  {
  }

  /** A passage's scored table lists each distinct entity text once, in order of
      first mention, with the perplexity of its query. */
  lemma FinalTableShape(item: RucosItem, ppl: string -> real)
    requires item.queries != []
    ensures Keys(FinalTable(item, ppl)) == Dedup(Candidates(item))
    ensures Values(FinalTable(item, ppl)) == Map(EntityCost(item, ppl), Dedup(Candidates(item)))
  {
    var c := Candidates(item);
    var f := EntityCost(item, ppl);
    var t0 := PutScores([], Zeros(item));
    PutScoresKeys(Zeros(item));
    CandsOfZeros(item);
    DedupMembers(c, "");
    assert DistinctKeys(t0);
    var scores := Triples(ItemPayloads(item), ppl);
    forall j | 0 <= j < |scores| ensures scores[j].cand in Keys(t0) && scores[j].value == f(scores[j].cand) {
      DedupMembers(c, c[j]);
    }
    Rescore(t0, scores, f);
    CandsOfTriples(item, ppl);
    var t := FinalTable(item, ppl);
    forall i | 0 <= i < |t| ensures Values(t)[i] == Map(f, Dedup(c))[i] {
      DedupMembers(c, t[i].0);
      assert Keys(t)[i] == t[i].0;
    }
  }

  /** `rucos_decide_batch` on a passage's scored table selects nothing exactly when
      the passage has no entity, and otherwise selects the winner first. */
  lemma TopOfFinal(item: RucosItem, ppl: string -> real)
    requires item.queries != []
    ensures Top(FinalTable(item, ppl)) == [] <==> item.entities == []
    ensures item.entities != [] ==> Top(FinalTable(item, ppl))[0] == Winner(item, ppl)
  {
    var c := Candidates(item);
    var t := FinalTable(item, ppl);
    FinalTableShape(item, ppl);
    if c != [] {
      DedupMembers(c, c[0]);
      var values := Values(t);
      var k := if |Keys(t)| > 3 then 2 else 1;
      TopKHeadIsArgMin(values, k);
      DedupArgMin(c, EntityCost(item, ppl));
    }
  }

  predicate NoneEmptyBefore(items: seq<RucosItem>, g: nat) {
    forall p :: 0 <= p < g && p < |items| ==> items[p].entities != []
  }

  /** The first `g` passages answered with their winners, the rest untouched. */
  function Labelled(items: seq<RucosItem>, ppl: string -> real, g: nat): (r: seq<Row<RucosItem>>)
    requires HasQuery(items) && NoneEmptyBefore(items, g)
    ensures |r| == |items|
  {
    seq(|items|, p requires 0 <= p < |items| && HasQuery(items) && NoneEmptyBefore(items, g) =>
      if p < g then Done(Answer(items[p].idx, Str(Winner(items[p], ppl)))) else Pending(items[p]))
  }

  ghost predicate ShapedBy(items: seq<RucosItem>, ppl: string -> real, t: Table<int, string>)
    requires HasQuery(items)
  {
    |t| == |items| && forall q :: 0 <= q < |items| ==> t[q] == (items[q].idx, FinalTable(items[q], ppl))
  }

  /** In the partly labelled rows, only the row of passage `g` carries its id. */
  lemma OnlyOwnRow(items: seq<RucosItem>, ppl: string -> real, g: nat)
    requires HasQuery(items) && Distinct(Pids(items)) && g < |items| && NoneEmptyBefore(items, g)
    ensures forall i :: 0 <= i < |items| ==> (IdxOf(Labelled(items, ppl, g)[i], RucosIdx) == items[g].idx <==> i == g)
  {
    var rows := Labelled(items, ppl, g);
    forall i | 0 <= i < |items| ensures (IdxOf(rows[i], RucosIdx) == items[g].idx <==> i == g) {
      assert IdxOf(rows[i], RucosIdx) == items[i].idx;
      if i != g {
        assert Pids(items)[i] != Pids(items)[g];
      }
    }
  }

  lemma RelabelOwnRow(items: seq<RucosItem>, ppl: string -> real, g: nat)
    requires HasQuery(items) && Distinct(Pids(items)) && g < |items| && NoneEmptyBefore(items, g)
    requires items[g].entities != []
    ensures NoneEmptyBefore(items, g + 1)
    ensures Relabel(Labelled(items, ppl, g), items[g].idx, Top(FinalTable(items[g], ppl)), |items|) == Labelled(items, ppl, g + 1)
  {
    TopOfFinal(items[g], ppl);
    RelabelWith(items, ppl, g, Top(FinalTable(items[g], ppl)));
  }

  /** Relabelling with a selection that starts with the winner of passage `g`. */
  lemma RelabelWith(items: seq<RucosItem>, ppl: string -> real, g: nat, top: seq<string>)
    requires HasQuery(items) && Distinct(Pids(items)) && g < |items| && NoneEmptyBefore(items, g)
    requires items[g].entities != [] && top != [] && top[0] == Winner(items[g], ppl)
    ensures NoneEmptyBefore(items, g + 1)
    ensures Relabel(Labelled(items, ppl, g), items[g].idx, top, |items|) == Labelled(items, ppl, g + 1)
  {
    var rows := Labelled(items, ppl, g);
    var pid := items[g].idx;
    var r := Relabel(rows, pid, top, |rows|);
    var after := Labelled(items, ppl, g + 1);
    forall i | 0 <= i < |items| ensures r[i] == after[i] {
      assert IdxOf(rows[i], RucosIdx) == items[i].idx;
      if i == g {
        assert r[i] == Done(Answer(pid, Str(top[0])));
      } else {
        assert Pids(items)[i] != Pids(items)[g];
        assert r[i] == rows[i];
      }
    }
  }

  lemma LabelStep(items: seq<RucosItem>, ppl: string -> real, t: Table<int, string>, g: nat)
    requires HasQuery(items) && Distinct(Pids(items)) && ShapedBy(items, ppl, t)
    requires g < |items| && NoneEmptyBefore(items, g)
    ensures items[g].entities == [] ==> LabelPassage(Labelled(items, ppl, g), t[g].0, Top(t[g].1)) == Err(IndexError)
    ensures items[g].entities != [] ==> NoneEmptyBefore(items, g + 1)
    ensures items[g].entities != [] ==>
      LabelPassage(Labelled(items, ppl, g), t[g].0, Top(t[g].1)) == Ok(Labelled(items, ppl, g + 1))
  {
    var pid := items[g].idx;
    assert t[g] == (pid, FinalTable(items[g], ppl));
    TopOfFinal(items[g], ppl);
    if items[g].entities == [] {
      OnlyOwnRow(items, ppl, g);
      assert IdxOf(Labelled(items, ppl, g)[g], RucosIdx) == pid;
    } else {
      RelabelOwnRow(items, ppl, g);
    }
  }

  lemma {:induction false} LabelPrefix(items: seq<RucosItem>, ppl: string -> real, t: Table<int, string>, g: nat)
    requires HasQuery(items) && Distinct(Pids(items)) && ShapedBy(items, ppl, t) && g <= |items|
    ensures NoneEmptyBefore(items, g) ==> LabelAll(Pendings(items), t[..g]) == Ok(Labelled(items, ppl, g))
    ensures !NoneEmptyBefore(items, g) ==> LabelAll(Pendings(items), t[..g]) == Err(IndexError)
  {
    if g == 0 {
      assert t[..0] == [];
      assert Labelled(items, ppl, 0) == Pendings(items);
    } else {
      LabelPrefix(items, ppl, t, g - 1);
      assert t[..g][..g - 1] == t[..g - 1];
      assert t[..g][g - 1] == t[g - 1];
      if NoneEmptyBefore(items, g - 1) {
        LabelStep(items, ppl, t, g - 1);
      }
    }
  }

  /** With a query per passage and distinct passage ids, `rucos_get_answer`
      raises `IndexError` exactly when some passage has no entity, and otherwise
      labels every passage with the text of its first least perplexing entity. */
  lemma RucosAnswersMeaning(items: seq<RucosItem>, ppl: string -> real)
    requires HasQuery(items) && Distinct(Pids(items))
    ensures RucosAnswers(items, ppl).Err? <==> exists p :: 0 <= p < |items| && items[p].entities == []
    ensures RucosAnswers(items, ppl).Ok? ==>
      |RucosAnswers(items, ppl).value| == |items| &&
      forall p :: 0 <= p < |items| ==>
        RucosAnswers(items, ppl).value[p] == Done(Answer(items[p].idx, Str(Winner(items[p], ppl))))
  {
    var t := Scored(items, ppl);
    ScoredShape(items, ppl);
    LabelPrefix(items, ppl, t, |items|);
    assert t[..|items|] == t;
  }
}
