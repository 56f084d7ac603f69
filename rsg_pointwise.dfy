/** The perplexity baselines whose decision is made item by item: rcb, terra
    (a threshold on one perplexity), danetqa, parus, russe and lidirus (a
    comparison of two). `calc_ppl_batch` is the scorer `ppl`, applied to each
    phrase of a batch on its own, as the code intends; `RsgBatchLoss` models
    what it computes as written. */
module RsgPointwise {
  import opened Wrappers
  import opened Text
  import opened RsgBatching

  /** A label as written to the output: a string, an integer or a boolean. */
  datatype Label = Str(s: string) | Int(n: int) | Bool(b: bool)

  /** The `{'idx': ..., 'label': ...}` record an answered item is replaced with. */
  datatype Answer = Answer(idx: int, verdict: Label)

  /** An element of `new_items`: still the input item, or already answered. */
  datatype Row<I> = Pending(item: I) | Done(answer: Answer)

  /** `new_items[i]['idx']`, whichever form the element has. */
  function IdxOf<I>(row: Row<I>, idx: I -> int): int {
    match row
    case Pending(item) => idx(item)
    case Done(a) => a.idx
  }

  predicate IdsBelow<P>(entries: seq<Entry<P>>, n: nat) {
    forall k :: 0 <= k < |entries| ==> entries[k].id < n
  }

  /** The rows after each entry in turn replaced the row it came from with its answer. */
  function Fill<I, P>(rows: seq<Row<I>>, entries: seq<Entry<P>>, idx: I -> int, decide: P -> Label): (r: seq<Row<I>>)
    requires IdsBelow(entries, |rows|)
    ensures |r| == |rows|
    decreases |entries|
  {
    if entries == [] then rows
    else
      var before := Fill(rows, entries[..|entries| - 1], idx, decide);
      var e := entries[|entries| - 1];
      before[e.id := Done(Answer(IdxOf(before[e.id], idx), decide(e.payload)))]
  }

  function Pendings<I>(items: seq<I>): (r: seq<Row<I>>)
    ensures |r| == |items|
  {
    seq(|items|, i requires 0 <= i < |items| => Pending(items[i]))
  }

  /** Every item answered by the decision on its own payload. */
  function Answers<I, P>(items: seq<I>, payload: I -> P, idx: I -> int, decide: P -> Label): (r: seq<Row<I>>)
    ensures |r| == |items|
  {
    seq(|items|, i requires 0 <= i < |items| => Done(Answer(idx(items[i]), decide(payload(items[i])))))
  }

  lemma {:induction false} FillPrefix<I, P>(items: seq<I>, payload: I -> P, idx: I -> int, decide: P -> Label, k: nat)
    requires k <= |items|
    ensures IdsBelow(Enumerate(items, payload)[..k], |items|)
    ensures Fill(Pendings(items), Enumerate(items, payload)[..k], idx, decide)
         == Answers(items, payload, idx, decide)[..k] + Pendings(items)[k..]
  {
    var entries := Enumerate(items, payload);
    if k > 0 {
      FillPrefix(items, payload, idx, decide, k - 1);
      assert entries[..k][..k - 1] == entries[..k - 1];
    }
  }

  /** Answering the enumerated items, in whatever batches, answers each item by its own payload. */
  lemma FillEnumerated<I, P>(items: seq<I>, payload: I -> P, idx: I -> int, decide: P -> Label)
    ensures IdsBelow(Enumerate(items, payload), |items|)
    ensures Fill(Pendings(items), Enumerate(items, payload), idx, decide) == Answers(items, payload, idx, decide)
  {
    FillPrefix(items, payload, idx, decide, |items|);
    assert Enumerate(items, payload)[..|items|] == Enumerate(items, payload);
  }

  predicate BatchIdsBelow<P>(batches: seq<seq<Entry<P>>>, n: nat) {
    forall b, j :: 0 <= b < |batches| && 0 <= j < |batches[b]| ==> batches[b][j].id < n
  }

  lemma {:induction false} FlattenIdsBelow<P>(batches: seq<seq<Entry<P>>>, n: nat)
    requires BatchIdsBelow(batches, n)
    ensures IdsBelow(Flatten(batches), n)
    decreases |batches|
  {
    if batches != [] {
      var init := batches[..|batches| - 1];
      assert BatchIdsBelow(init, n);
      FlattenIdsBelow(init, n);
    }
  }

  lemma FillAppend<I, P>(rows: seq<Row<I>>, entries: seq<Entry<P>>, e: Entry<P>, idx: I -> int, decide: P -> Label)
    requires IdsBelow(entries + [e], |rows|) && e.id < |rows|
    ensures IdsBelow(entries, |rows|)
    ensures Fill(rows, entries + [e], idx, decide)
         == var before := Fill(rows, entries, idx, decide);
            before[e.id := Done(Answer(IdxOf(before[e.id], idx), decide(e.payload)))]
  {
    assert (entries + [e])[..|entries|] == entries;
    assert forall k :: 0 <= k < |entries| ==> entries[k] == (entries + [e])[k];
  }

  /** The inner loop of the pointwise `*_process_items`: each entry of one
      batch, in order, replaces the element of `new_items` it came from. */
  method ProcessBatch<I, P>(rows: array<Row<I>>, batch: seq<Entry<P>>, idx: I -> int, decide: P -> Label,
                            ghost start: seq<Row<I>>, ghost done: seq<Entry<P>>)
    requires IdsBelow(done + batch, |start|) && |start| == rows.Length
    requires IdsBelow(done, |start|) && rows[..] == Fill(start, done, idx, decide)
    modifies rows
    ensures rows[..] == Fill(start, done + batch, idx, decide)
  {
    var j := 0;
    assert done + batch[..j] == done;
    while j < |batch|
      invariant 0 <= j <= |batch|
      invariant IdsBelow(done + batch[..j], |start|)
      invariant rows[..] == Fill(start, done + batch[..j], idx, decide)
    {
      var e := batch[j];
      assert e == (done + batch)[|done| + j];
      assert done + batch[..j] + [e] == done + batch[..j + 1];
      assert IdsBelow(done + batch[..j + 1], |start|) by {
        assert forall k :: 0 <= k < |done| + j + 1 ==> (done + batch[..j + 1])[k] == (done + batch)[k];
      }
      FillAppend(start, done + batch[..j], e, idx, decide);
      rows[e.id] := Done(Answer(IdxOf(rows[e.id], idx), decide(e.payload)));
      j := j + 1;
    }
    assert batch[..j] == batch;
  }

  /** The loop shared by the pointwise `*_process_items`: each entry of each
      batch, in order, replaces the element of `new_items` it came from. */
  method Process<I, P>(rows: array<Row<I>>, batches: seq<seq<Entry<P>>>, idx: I -> int, decide: P -> Label)
    requires BatchIdsBelow(batches, rows.Length)
    modifies rows
    ensures IdsBelow(Flatten(batches), rows.Length)
    ensures rows[..] == Fill(old(rows[..]), Flatten(batches), idx, decide)
  {
    ghost var start := rows[..];
    var b := 0;
    while b < |batches|
      invariant 0 <= b <= |batches|
      invariant IdsBelow(Flatten(batches[..b]), rows.Length)
      invariant rows[..] == Fill(start, Flatten(batches[..b]), idx, decide)
    {
      assert batches[..b + 1] == batches[..b] + [batches[b]];
      FlattenAppend(batches[..b], batches[b]);
      assert BatchIdsBelow(batches[..b + 1], rows.Length);
      FlattenIdsBelow(batches[..b + 1], rows.Length);
      ProcessBatch(rows, batches[b], idx, decide, start, Flatten(batches[..b]));
      b := b + 1;
    }
    assert batches[..b] == batches;
  }

  lemma EnumeratedIdsBelow<I, P>(items: seq<I>, payload: I -> P, batchSize: int)
    ensures BatchIdsBelow(Batches(Enumerate(items, payload), batchSize), |items|)
  {
    var batches: seq<seq<Entry<P>>> := Batches(Enumerate(items, payload), batchSize);
    BatchesFlatten(Enumerate(items, payload), batchSize);
    forall b, j | 0 <= b < |batches| && 0 <= j < |batches[b]| ensures batches[b][j].id < |items| {
      FlattenMember(batches, b, j);
      EnumeratedId(items, payload, batches[b][j]);
    }
  }

  lemma EnumeratedId<I, P>(items: seq<I>, payload: I -> P, e: Entry<P>)
    requires e in Enumerate(items, payload)
    ensures e.id < |items|
  {
    var i :| 0 <= i < |items| && Enumerate(items, payload)[i] == e;
  }

  lemma {:induction false} FlattenMember<T>(batches: seq<seq<T>>, b: nat, j: nat)
    requires b < |batches| && j < |batches[b]|
    ensures batches[b][j] in Flatten(batches)
    decreases |batches|
  {
    var init := batches[..|batches| - 1];
    if b < |batches| - 1 {
      FlattenMember(init, b, j);
    }
  }

  /** `*_get_items` then `*_process_items` for a pointwise task: batch, then answer every entry. */
  method AnswerAll<I, P>(items: seq<I>, batchSize: int, payload: I -> P, idx: I -> int, decide: P -> Label)
    returns (r: seq<Row<I>>)
    ensures r == Answers(items, payload, idx, decide)
  {
    var batches := GetItems(items, batchSize, payload);
    var rows := new Row<I>[|items|](i requires 0 <= i < |items| => Pending(items[i]));
    assert rows[..] == Pendings(items);
    EnumeratedIdsBelow(items, payload, batchSize);
    Process(rows, batches, idx, decide);
    FillEnumerated(items, payload, idx, decide);
    r := rows[..];
  }

  /** `x[0].lower() + x[1:]` for a non-empty `x`; the empty case raises before this is used. */
  function LowerHead(s: string): (r: string)
    ensures s != [] ==> Ok(r) == LowerFirst(s)
  {
    if s == [] then [] else [LowerChar(s[0])] + s[1..]
  }

  // rcb

  datatype RcbItem = RcbItem(idx: int, premise: string, hypothesis: string)

  function RcbQuery(item: RcbItem): string {
    Clean(item.premise) + " Из этого следует, что " + LowerHead(item.hypothesis)
  }

  /** `rcb_get_answer`: "neutral" when the perplexity exceeds 20, otherwise
      "entailment" (so exactly 20 is "entailment"); an empty hypothesis raises `IndexError`. */
  method RcbGetAnswer(items: seq<RcbItem>, batchSize: int, ppl: string -> real) returns (r: Result<seq<Row<RcbItem>>>)
    ensures r.Err? <==> exists i :: 0 <= i < |items| && items[i].hypothesis == []
    ensures r.Err? ==> r.error == IndexError
    ensures r.Ok? ==> |r.value| == |items| && forall i :: 0 <= i < |items| ==>
      r.value[i] == Done(Answer(items[i].idx, Str(if ppl(RcbQuery(items[i])) > 20.0 then "neutral" else "entailment")))
  {
    if exists i :: 0 <= i < |items| && items[i].hypothesis == [] {
      return Err(IndexError);
    }
    var rows := AnswerAll(items, batchSize, RcbQuery, (it: RcbItem) => it.idx,
                       (q: string) => Str(if ppl(q) > 20.0 then "neutral" else "entailment"));
    return Ok(rows);
  }

  // terra

  datatype TerraItem = TerraItem(idx: int, premise: string, hypothesis: string)

  function TerraQuery(item: TerraItem): string {
    Clean(item.premise) + " " + item.hypothesis
  }

  /** `terra_get_answer`: "entailment" when the perplexity is below 22, otherwise "not_entailment". */
  method TerraGetAnswer(items: seq<TerraItem>, batchSize: int, ppl: string -> real) returns (r: seq<Row<TerraItem>>)
    ensures |r| == |items|
    ensures forall i :: 0 <= i < |items| ==>
      r[i] == Done(Answer(items[i].idx, Str(if ppl(TerraQuery(items[i])) < 22.0 then "entailment" else "not_entailment")))
  {
    r := AnswerAll(items, batchSize, TerraQuery, (it: TerraItem) => it.idx,
                (q: string) => Str(if ppl(q) < 22.0 then "entailment" else "not_entailment"));
  }

  // danetqa

  datatype DanetqaItem = DanetqaItem(idx: int, question: string)

  /** `danetqa_get_answer`: "true" exactly when the question followed by " Да" is strictly less
      perplexing than followed by " Нет"; a tie gives "false". */
  method DanetqaGetAnswer(items: seq<DanetqaItem>, batchSize: int, ppl: string -> real) returns (r: seq<Row<DanetqaItem>>)
    ensures |r| == |items|
    ensures forall i :: 0 <= i < |items| ==>
      var q := items[i].question;
      r[i] == Done(Answer(items[i].idx, Str(if ppl(q + " Да") < ppl(q + " Нет") then "true" else "false")))
  {
    r := AnswerAll(items, batchSize, (it: DanetqaItem) => it.question, (it: DanetqaItem) => it.idx,
                (q: string) => Str(if ppl(q + " Да") < ppl(q + " Нет") then "true" else "false"));
  }

  // russe

  datatype RusseItem = RusseItem(idx: int, word: string, sentence1: string, sentence2: string)

  /** The two phrases scored for a russe item: the same prompt ending in "верно" and in "неверно". */
  function RusseChoices(item: RusseItem): (string, string) {
    var prompt := "Слово " + item.word + " значит одно и то же в предложениях: Предложение 1: "
                  + item.sentence1 + " Предложение 2: " + item.sentence2;
    (Clean(prompt + " Ответ: верно"), Clean(prompt + " Ответ: неверно"))
  }

  /** `russe_get_answer`: "true" exactly when the "верно" phrase has the higher perplexity. */
  method RusseGetAnswer(items: seq<RusseItem>, batchSize: int, ppl: string -> real) returns (r: seq<Row<RusseItem>>)
    ensures |r| == |items|
    ensures forall i :: 0 <= i < |items| ==>
      var (yes, no) := RusseChoices(items[i]);
      r[i] == Done(Answer(items[i].idx, Str(if ppl(yes) > ppl(no) then "true" else "false")))
  {
    r := AnswerAll(items, batchSize, RusseChoices, (it: RusseItem) => it.idx,
                (c: (string, string)) => Str(if ppl(c.0) > ppl(c.1) then "true" else "false"));
  }

  // lidirus

  datatype LidirusItem = LidirusItem(idx: int, sentence1: string, sentence2: string)

  function LidirusChoices(item: LidirusItem): (string, string) {
    (item.sentence1 + " Из этого следует, что " + item.sentence2,
     item.sentence1 + " Из этого не следует, что " + item.sentence2)
  }

  /** `lidirus_get_answer`: "entailment" exactly when "follows" is strictly less perplexing than "does not follow". */
  method LidirusGetAnswer(items: seq<LidirusItem>, batchSize: int, ppl: string -> real) returns (r: seq<Row<LidirusItem>>)
    ensures |r| == |items|
    ensures forall i :: 0 <= i < |items| ==>
      var (follows, not_follows) := LidirusChoices(items[i]);
      r[i] == Done(Answer(items[i].idx, Str(if ppl(follows) < ppl(not_follows) then "entailment" else "not_entailment")))
  {
    r := AnswerAll(items, batchSize, LidirusChoices, (it: LidirusItem) => it.idx,
                (c: (string, string)) => Str(if ppl(c.0) < ppl(c.1) then "entailment" else "not_entailment"));
  }

  // parus

  datatype ParusItem = ParusItem(idx: int, premise: string, choice1: string, choice2: string, question: string)

  /** `question_conv[question]`, or the `KeyError` it raises. */
  function Connective(question: string): (r: Result<string>)
    ensures r.Ok? <==> question == "effect" || question == "cause"
  {
    if question == "effect" then Ok(" Из-за этого ")
    else if question == "cause" then Ok(" Потому что ")
    else Err(KeyError)
  }

  /** The phrase for one choice: cleaned premise, connective, choice with its first letter lowered. */
  function ParusPhrase(item: ParusItem, choice: string): (r: Result<string>)
    ensures r.Err? ==> r.error == KeyError || r.error == IndexError
    ensures r.Err? <==> Connective(item.question).Err? || choice == []
  {
    match Connective(item.question)
    case Err(e) => Err(e)
    case Ok(conv) => if choice == [] then Err(IndexError) else Ok(Clean(item.premise) + conv + LowerHead(choice))
  }

  /** A parus batch entry carries the whole item. */
  function ParusPayload(item: ParusItem): ParusItem {
    item
  }

  predicate ParusValid(item: ParusItem) {
    ParusPhrase(item, item.choice1).Ok? && ParusPhrase(item, item.choice2).Ok?
  }

  /** The error of the first phrase that fails in `[phrase(e) for e in batch]`. */
  function FirstPhraseError(batch: seq<Entry<ParusItem>>, second: bool): (r: Option<Error>)
    ensures r.None? <==> forall j :: 0 <= j < |batch| ==>
      ParusPhrase(batch[j].payload, if second then batch[j].payload.choice2 else batch[j].payload.choice1).Ok?
  {
    if batch == [] then None
    else
      var it := batch[0].payload;
      var p := ParusPhrase(it, if second then it.choice2 else it.choice1);
      if p.Err? then Some(p.error)
      else
        var rest := FirstPhraseError(batch[1..], second);
        assert forall j :: 1 <= j < |batch| ==> batch[j] == batch[1..][j - 1];
        rest
  }

  /** The exception `parus_process_items` meets: batch by batch, all first phrases of a batch before its second phrases. */
  function ParusError(batches: seq<seq<Entry<ParusItem>>>): (r: Option<Error>)
    ensures r.None? <==> forall b, j :: 0 <= b < |batches| && 0 <= j < |batches[b]| ==> ParusValid(batches[b][j].payload)
  {
    if batches == [] then None
    else
      var first := FirstPhraseError(batches[0], false);
      if first.Some? then first
      else
        var second := FirstPhraseError(batches[0], true);
        if second.Some? then second
        else
          var rest := ParusError(batches[1..]);
          assert forall b :: 1 <= b < |batches| ==> batches[b] == batches[1..][b - 1];
          rest
  }

  function ParusScore(ppl: string -> real, item: ParusItem): Label {
    var c1 := ParusPhrase(item, item.choice1);
    var c2 := ParusPhrase(item, item.choice2);
    if c1.Ok? && c2.Ok? && ppl(c1.value) > ppl(c2.value) then Int(1) else Int(0)
  }

  lemma ParusErrorIffInvalid(items: seq<ParusItem>, batchSize: int)
    ensures ParusError(Batches(Enumerate(items, ParusPayload), batchSize)).None?
        <==> forall i :: 0 <= i < |items| ==> ParusValid(items[i])
  {
    var entries: seq<Entry<ParusItem>> := Enumerate(items, ParusPayload);
    var batches: seq<seq<Entry<ParusItem>>> := Batches(entries, batchSize);
    BatchesFlatten(entries, batchSize);
    forall b, j | 0 <= b < |batches| && 0 <= j < |batches[b]| ensures batches[b][j] in entries {
      FlattenMember(batches, b, j);
    }
    forall i | 0 <= i < |items| ensures exists b, j :: 0 <= b < |batches| && 0 <= j < |batches[b]| && batches[b][j] == entries[i] {
      FlattenLocate(batches, i);
    }
  }

  lemma {:induction false} FlattenLocate<T>(batches: seq<seq<T>>, k: nat)
    requires k < |Flatten(batches)|
    ensures exists b, j :: 0 <= b < |batches| && 0 <= j < |batches[b]| && batches[b][j] == Flatten(batches)[k]
    decreases |batches|
  {
    var init := batches[..|batches| - 1];
    var last := batches[|batches| - 1];
    if k < |Flatten(init)| {
      FlattenLocate(init, k);
      var b, j :| 0 <= b < |init| && 0 <= j < |init[b]| && init[b][j] == Flatten(init)[k];
      assert batches[b][j] == Flatten(batches)[k];
    } else {
      assert Flatten(batches)[k] == last[k - |Flatten(init)|];
    }
  }

  /** `parus_get_answer`: label 1 exactly when the first choice is strictly more perplexing than
      the second, the item keeping only `idx` and `label`; a question other than "effect" or
      "cause" raises `KeyError` and an empty choice `IndexError`, the error being that of the
      first phrase to fail: batch by batch, first choices before second choices. */
  method ParusGetAnswer(items: seq<ParusItem>, batchSize: int, ppl: string -> real) returns (r: Result<seq<Row<ParusItem>>>)
    ensures r.Err? <==> exists i :: 0 <= i < |items| && !ParusValid(items[i])
    ensures r.Err? ==> r.error == KeyError || r.error == IndexError
    ensures r.Err? ==> Some(r.error) == ParusError(Batches(Enumerate(items, ParusPayload), batchSize))
    ensures r.Ok? ==> |r.value| == |items| && forall i :: 0 <= i < |items| ==>
      r.value[i] == Done(Answer(items[i].idx, Int(
        if ppl(ParusPhrase(items[i], items[i].choice1).value) > ppl(ParusPhrase(items[i], items[i].choice2).value) then 1 else 0)))
  {
    var batches := GetItems(items, batchSize, ParusPayload);
    ParusErrorIffInvalid(items, batchSize);
    var failure := ParusError(batches);
    if failure.Some? {
      ParusErrorKind(batches);
      return Err(failure.value);
    }
    var rows := AnswerAll(items, batchSize, ParusPayload, (it: ParusItem) => it.idx,
                       (it: ParusItem) => ParusScore(ppl, it));
    assert forall i :: 0 <= i < |items| ==> ParusValid(items[i]);
    return Ok(rows);
  }

  lemma {:induction false} ParusErrorKind(batches: seq<seq<Entry<ParusItem>>>)
    ensures ParusError(batches).Some? ==> ParusError(batches).value == KeyError || ParusError(batches).value == IndexError
    decreases |batches|
  {
    if batches != [] {
      FirstPhraseErrorKind(batches[0], false);
      FirstPhraseErrorKind(batches[0], true);
      ParusErrorKind(batches[1..]);
    }
  }

  lemma {:induction false} FirstPhraseErrorKind(batch: seq<Entry<ParusItem>>, second: bool)
    ensures FirstPhraseError(batch, second).Some? ==> FirstPhraseError(batch, second).value == KeyError || FirstPhraseError(batch, second).value == IndexError
    decreases |batch|
  {
    if batch != [] {
      FirstPhraseErrorKind(batch[1..], second);
    }
  }
}
