/** The TF-IDF baseline around its vectorizer and classifier: the per-task
    text encoders, the parallel lists of `encode`, the pairing of `infer`,
    and the answer selection of `infer_rucos` and `infer_muserc` over
    similarities supplied from outside. */
module Tfidf {
  import opened Wrappers
  import opened Text
  import opened Ranking
  import opened RsgPointwise
  import opened RsgRucos
  import opened RsgMuserc
  import opened JiantEval

  // Encoders

  /** A record as read from JSONL: `idx`, its text fields by name, the fields
      of its `target` object, and its `label` when it has one. */
  datatype Item = Item(idx: int, fields: map<string, string>, target: map<string, string>, verdict: Option<Label>)

  /** What an encoder returns: the text for the vectorizer and `item.get('label')`. */
  datatype Encoded = Encoded(text: string, verdict: Option<Label>)

  /** The encoders of `TASK_ENCODERS`; `terra_encode` and `rcb_encode` are the same function. */
  datatype Encoder = PairEncoder(first: string, second: string) | DanetqaEncoder | ParusEncoder | RusseEncoder | RwsdEncoder

  /** `TASK_ENCODERS[task]`: muserc, rucos and any unknown task raise `KeyError`. */
  function TaskEncoder(task: string): (r: Result<Encoder>)
    ensures r.Ok? <==> task in ["danetqa", "lidirus", "parus", "rcb", "russe", "rwsd", "terra"]
    ensures r.Err? ==> r.error == KeyError
    ensures task == "terra" || task == "rcb" ==> r == Ok(PairEncoder("premise", "hypothesis"))
    ensures task == "lidirus" ==> r == Ok(PairEncoder("sentence1", "sentence2"))
  {
    if task == "danetqa" then Ok(DanetqaEncoder)
    else if task == "lidirus" then Ok(PairEncoder("sentence1", "sentence2"))
    else if task == "parus" then Ok(ParusEncoder)
    else if task == "rcb" || task == "terra" then Ok(PairEncoder("premise", "hypothesis"))
    else if task == "russe" then Ok(RusseEncoder)
    else if task == "rwsd" then Ok(RwsdEncoder)
    else Err(KeyError)
  }

  /** The question parus puts between the premise and the choices. */
  function ParusQuestion(question: string): string {
    if question == "cause" then "Что было ПРИЧИНОЙ этого?" else "Что случилось в РЕЗУЛЬТАТЕ?"
  }

  /** Every field the encoder reads is there. */
  predicate Present(enc: Encoder, item: Item) {
    var f := item.fields;
    match enc
    case PairEncoder(first, second) => first in f && second in f
    case DanetqaEncoder => "question" in f
    case ParusEncoder => "premise" in f && "choice1" in f && "choice2" in f && "question" in f
    case RusseEncoder => "sentence1" in f && "sentence2" in f && "word" in f
    case RwsdEncoder => "text" in f && "span1_text" in item.target && "span2_text" in item.target
  }

  /** One encoder on one record; a missing field raises `KeyError`. */
  function Encode(enc: Encoder, item: Item): Result<Encoded> {
    var f := item.fields;
    match enc
    case PairEncoder(first, second) =>
      if first !in f || second !in f then Err(KeyError)
      else Ok(Encoded(Strip(f[first]) + " " + f[second], item.verdict))
    case DanetqaEncoder =>
      if "question" !in f then Err(KeyError)
      else Ok(Encoded(Strip(f["question"]), item.verdict))
    case ParusEncoder =>
      if "premise" !in f || "choice1" !in f || "choice2" !in f || "question" !in f then Err(KeyError)
      else Ok(Encoded(Strip(f["premise"]) + " " + ParusQuestion(f["question"]) + " " + f["choice1"] + " " + f["choice2"], item.verdict))
    case RusseEncoder =>
      if "sentence1" !in f || "sentence2" !in f || "word" !in f then Err(KeyError)
      else Ok(Encoded(Strip(f["sentence1"]) + " " + Strip(f["sentence2"]) + " " + Strip(f["word"]), item.verdict))
    case RwsdEncoder =>
      if "text" !in f || "span1_text" !in item.target || "span2_text" !in item.target then Err(KeyError)
      else Ok(Encoded(Strip(f["text"]) + " " + item.target["span1_text"] + " " + item.target["span2_text"], item.verdict))
  }

  /** The texts whose words make up the encoded text, in order. */
  function Parts(enc: Encoder, item: Item): seq<string>
    requires Present(enc, item)
  {
    var f := item.fields;
    match enc
    case PairEncoder(first, second) => [f[first], f[second]]
    case DanetqaEncoder => [f["question"]]
    case ParusEncoder => [f["premise"], ParusQuestion(f["question"]), f["choice1"], f["choice2"]]
    case RusseEncoder => [f["sentence1"], f["sentence2"], f["word"]]
    case RwsdEncoder => [f["text"], item.target["span1_text"], item.target["span2_text"]]
  }

  function WordsOf(parts: seq<string>): seq<string>
    decreases |parts|
  {
    if parts == [] then [] else SplitWhitespace(parts[0]) + WordsOf(parts[1..])
  }

  lemma WordsCons(a: string, rest: seq<string>)
    ensures WordsOf([a] + rest) == SplitWhitespace(a) + WordsOf(rest)
  {
    assert ([a] + rest)[1..] == rest;
  }

  lemma WordsOne(a: string)
    ensures WordsOf([a]) == SplitWhitespace(a)
  {
    WordsCons(a, []);
    assert [a] + [] == [a];
  }

  lemma WordsTwo(a: string, b: string)
    ensures WordsOf([a, b]) == SplitWhitespace(a) + SplitWhitespace(b)
  {
    WordsOne(b);
    WordsCons(a, [b]);
    assert [a] + [b] == [a, b];
  }

  lemma ConcatAssoc<T>(x: seq<T>, y: seq<T>, z: seq<T>)
    ensures x + (y + z) == x + y + z
  {
  }

  lemma WordsThree(a: string, b: string, c: string)
    ensures WordsOf([a, b, c]) == SplitWhitespace(a) + SplitWhitespace(b) + SplitWhitespace(c)
  {
    WordsTwo(b, c);
    WordsCons(a, [b, c]);
    assert [a] + [b, c] == [a, b, c];
    ConcatAssoc(SplitWhitespace(a), SplitWhitespace(b), SplitWhitespace(c));
  }

  lemma WordsFour(a: string, b: string, c: string, d: string)
    ensures WordsOf([a, b, c, d]) == SplitWhitespace(a) + SplitWhitespace(b) + SplitWhitespace(c) + SplitWhitespace(d)
  {
    WordsThree(b, c, d);
    WordsCons(a, [b, c, d]);
    assert [a] + [b, c, d] == [a, b, c, d];
    Regroup(SplitWhitespace(a), SplitWhitespace(b), SplitWhitespace(c), SplitWhitespace(d));
  }

  lemma JoinWords(a: string, b: string)
    ensures SplitWhitespace(a + " " + b) == SplitWhitespace(a) + SplitWhitespace(b)
  {
    SplitWhitespaceConcat(a, " ", b);
  }

  /** An encoder fails exactly on a missing field, keeps the label, and its text
      holds the words of its fields in order: stripping and the single spaces
      neither lose nor merge a word. */
  lemma EncodeMeaning(enc: Encoder, item: Item)
    ensures Encode(enc, item).Ok? <==> Present(enc, item)
    ensures Encode(enc, item).Err? ==> Encode(enc, item).error == KeyError
    ensures Encode(enc, item).Ok? ==>
      Encode(enc, item).value.verdict == item.verdict &&
      SplitWhitespace(Encode(enc, item).value.text) == WordsOf(Parts(enc, item))
  {
    var f := item.fields;
    if Present(enc, item) {
      var ps := Parts(enc, item);
      match enc
      case PairEncoder(first, second) =>
        SplitWhitespaceStrip(f[first]);
        JoinWords(Strip(f[first]), f[second]);
        WordsTwo(ps[0], ps[1]);
      case DanetqaEncoder =>
        SplitWhitespaceStrip(f["question"]);
        WordsOne(ps[0]);
      case ParusEncoder =>
        var a := Strip(f["premise"]);
        var q := ParusQuestion(f["question"]);
        SplitWhitespaceStrip(f["premise"]);
        JoinWords(a, q);
        JoinWords(a + " " + q, f["choice1"]);
        JoinWords(a + " " + q + " " + f["choice1"], f["choice2"]);
        WordsFour(ps[0], ps[1], ps[2], ps[3]);
      case RusseEncoder =>
        var a := Strip(f["sentence1"]);
        var b := Strip(f["sentence2"]);
        SplitWhitespaceStrip(f["sentence1"]);
        SplitWhitespaceStrip(f["sentence2"]);
        SplitWhitespaceStrip(f["word"]);
        JoinWords(a, b);
        JoinWords(a + " " + b, Strip(f["word"]));
        WordsThree(ps[0], ps[1], ps[2]);
      case RwsdEncoder =>
        var a := Strip(f["text"]);
        SplitWhitespaceStrip(f["text"]);
        JoinWords(a, item.target["span1_text"]);
        JoinWords(a + " " + item.target["span1_text"], item.target["span2_text"]);
        WordsThree(ps[0], ps[1], ps[2]);
    }
  }

  /** parus asks for the cause exactly when the record's question is `cause`. */
  lemma ParusQuestionMeaning(question: string)
    ensures ParusQuestion(question) == "Что было ПРИЧИНОЙ этого?" <==> question == "cause"
  {
  }

  // encode and infer

  /** The parallel lists `ids`, `texts`, `labels` of `encode`. */
  datatype Encoding = Encoding(ids: seq<int>, texts: seq<string>, labels: seq<Option<Label>>)

  function EncodeItems(items: seq<Item>, enc: Encoder): (r: Result<Encoding>)
    ensures r.Err? ==> r.error == KeyError
    decreases |items|
  {
    if items == [] then Ok(Encoding([], [], []))
    else
      var n := |items| - 1;
      match EncodeItems(items[..n], enc)
      case Err(e) => Err(e)
      case Ok(done) =>
        match Encode(enc, items[n])
        case Err(e) => Err(e)
        case Ok(x) => Ok(Encoding(done.ids + [items[n].idx], done.texts + [x.text], done.labels + [x.verdict]))
  }

  /** An encoded record keeps its label. */
  lemma EncodeVerdict(enc: Encoder, item: Item)
    ensures Encode(enc, item).Ok? ==> Encode(enc, item).value.verdict == item.verdict
  {
  }

  /** The lists succeed exactly when every record encodes. */
  lemma {:induction false} EncodeItemsOk(items: seq<Item>, enc: Encoder)
    ensures EncodeItems(items, enc).Ok? <==> forall i :: 0 <= i < |items| ==> Encode(enc, items[i]).Ok?
    decreases |items|
  {
    if items != [] {
      var n := |items| - 1;
      EncodeItemsOk(items[..n], enc);
      if EncodeItems(items, enc).Ok? {
        assert EncodeItems(items[..n], enc).Ok? && Encode(enc, items[n]).Ok?;
        forall i | 0 <= i < |items| ensures Encode(enc, items[i]).Ok? {
          if i < n {
            assert items[..n][i] == items[i];
          } else {
            assert i == n;
          }
        }
      } else if EncodeItems(items[..n], enc).Ok? {
        assert Encode(enc, items[n]).Err?;
      } else {
        var i :| 0 <= i < n && Encode(enc, items[..n][i]).Err?;
        assert items[..n][i] == items[i];
      }
    }
  }

  /** A record that fails to encode after a prefix that encodes makes the whole
      list fail with that record's error. */
  lemma EncodeItemsErrAt(items: seq<Item>, enc: Encoder, i: nat)
    requires i < |items| && EncodeItems(items[..i], enc).Ok? && Encode(enc, items[i]).Err?
    ensures EncodeItems(items, enc) == Err(Encode(enc, items[i]).error)
  {
    assert items[..i + 1][..i] == items[..i];
    EncodeItemsErrPrefix(items, enc, i + 1);
  }

  /** The next record either fails, and with it the whole list, or extends the
      lists of the records before it by its entry. */
  lemma EncodeNext(items: seq<Item>, enc: Encoder, i: nat, done: Encoding)
    requires i < |items| && EncodeItems(items[..i], enc) == Ok(done)
    ensures Encode(enc, items[i]).Err? ==> EncodeItems(items, enc) == Err(Encode(enc, items[i]).error)
    ensures Encode(enc, items[i]).Ok? ==>
      (EncodeItems(items[..i + 1], enc) ==
         Ok(Encoding(done.ids + [items[i].idx], done.texts + [Encode(enc, items[i]).value.text], done.labels + [Encode(enc, items[i]).value.verdict])))
  {
    if Encode(enc, items[i]).Err? {
      EncodeItemsErrAt(items, enc, i);
    } else {
      EncodeItemsStep(items, enc, i, done);
    }
  }

  /** One more record that encodes extends the lists by its entry. */
  lemma EncodeItemsStep(items: seq<Item>, enc: Encoder, i: nat, done: Encoding)
    requires i < |items| && EncodeItems(items[..i], enc) == Ok(done) && Encode(enc, items[i]).Ok?
    ensures EncodeItems(items[..i + 1], enc) ==
      Ok(Encoding(done.ids + [items[i].idx], done.texts + [Encode(enc, items[i]).value.text], done.labels + [Encode(enc, items[i]).value.verdict]))
  {
    assert items[..i + 1][..i] == items[..i];
  }

  /** Successful lists hold one entry per record, in record order. */
  lemma {:induction false} EncodeItemsValues(items: seq<Item>, enc: Encoder)
    requires EncodeItems(items, enc).Ok?
    ensures var e := EncodeItems(items, enc).value;
      |e.ids| == |items| && |e.texts| == |items| && |e.labels| == |items| &&
      forall i :: 0 <= i < |items| ==>
        Encode(enc, items[i]).Ok? && e.ids[i] == items[i].idx && e.texts[i] == Encode(enc, items[i]).value.text && e.labels[i] == items[i].verdict
    decreases |items|
  {
    if items != [] {
      var n := |items| - 1;
      var prev := EncodeItems(items[..n], enc);
      assert prev.Ok?;
      EncodeItemsValues(items[..n], enc);
      var x := Encode(enc, items[n]);
      assert x.Ok?;
      EncodeVerdict(enc, items[n]);
      var p := prev.value;
      assert EncodeItems(items, enc).value == Encoding(p.ids + [items[n].idx], p.texts + [x.value.text], p.labels + [x.value.verdict]);
      EncodedSnoc(items, enc, p, x.value);
    }
  }

  /** Appending the last record's encoding to the entries of the others keeps
      one entry per record, in record order. */
  lemma EncodedSnoc(items: seq<Item>, enc: Encoder, p: Encoding, x: Encoded)
    requires items != [] && Encode(enc, items[|items| - 1]) == Ok(x) && x.verdict == items[|items| - 1].verdict
    requires var n := |items| - 1;
      |p.ids| == n && |p.texts| == n && |p.labels| == n &&
      forall i :: 0 <= i < n ==>
        Encode(enc, items[..n][i]).Ok? && p.ids[i] == items[..n][i].idx && p.texts[i] == Encode(enc, items[..n][i]).value.text && p.labels[i] == items[..n][i].verdict
    ensures var e := Encoding(p.ids + [items[|items| - 1].idx], p.texts + [x.text], p.labels + [x.verdict]);
      |e.ids| == |items| && |e.texts| == |items| && |e.labels| == |items| &&
      forall i :: 0 <= i < |items| ==>
        Encode(enc, items[i]).Ok? && e.ids[i] == items[i].idx && e.texts[i] == Encode(enc, items[i]).value.text && e.labels[i] == items[i].verdict
  {
    var n := |items| - 1;
    var e := Encoding(p.ids + [items[n].idx], p.texts + [x.text], p.labels + [x.verdict]);
    forall i | 0 <= i < |items|
      ensures Encode(enc, items[i]).Ok? && e.ids[i] == items[i].idx && e.texts[i] == Encode(enc, items[i]).value.text && e.labels[i] == items[i].verdict
    {
      if i < n {
        assert items[..n][i] == items[i];
        assert e.ids[i] == p.ids[i] && e.texts[i] == p.texts[i] && e.labels[i] == p.labels[i];
      } else {
        assert e.ids[i] == items[n].idx && e.texts[i] == x.text && e.labels[i] == x.verdict;
      }
    }
  }

  lemma {:induction false} EncodeItemsErrPrefix(items: seq<Item>, enc: Encoder, i: nat)
    requires i <= |items| && EncodeItems(items[..i], enc).Err?
    ensures EncodeItems(items, enc).Err?
    decreases |items| - i
  {
    if i < |items| {
      assert items[..i + 1][..i] == items[..i];
      EncodeItemsErrPrefix(items, enc, i + 1);
    } else {
      assert items[..i] == items;
    }
  }

  /** `encode` up to the vectorizer. */
  method EncodeAll(items: seq<Item>, enc: Encoder) returns (r: Result<Encoding>)
    ensures r == EncodeItems(items, enc)
  {
    var ids: seq<int> := [];
    var texts: seq<string> := [];
    var labels: seq<Option<Label>> := [];
    var i := 0;
    assert items[..0] == [];
    while i < |items|
      invariant 0 <= i <= |items|
      invariant EncodeItems(items[..i], enc) == Ok(Encoding(ids, texts, labels))
    {
      EncodeNext(items, enc, i, Encoding(ids, texts, labels));
      var x := Encode(enc, items[i]);
      if x.Err? {
        return Err(x.error);
      }
      ids := ids + [items[i].idx];
      texts := texts + [x.value.text];
      labels := labels + [x.value.verdict];
      i := i + 1;
    }
    assert items[..i] == items;
    return Ok(Encoding(ids, texts, labels));
  }

  /** `infer`: one `{'idx': id, 'label': label}` per pair of `zip(ids, preds)`, which stops at the shorter list. */
  function Infer(ids: seq<int>, preds: seq<Label>): (r: seq<Prediction>)
    ensures |r| == if |ids| < |preds| then |ids| else |preds|
  {
    var n := if |ids| < |preds| then |ids| else |preds|;
    seq(n, i requires 0 <= i < n => Prediction(ids[i], preds[i]))
  }

  /** With one classifier output per encoded record, prediction `i` carries the
      idx of record `i` and output `i`. */
  lemma InferEncoded(items: seq<Item>, enc: Encoder, preds: seq<Label>)
    requires EncodeItems(items, enc).Ok? && |preds| == |items|
    ensures |Infer(EncodeItems(items, enc).value.ids, preds)| == |items|
    ensures forall i :: 0 <= i < |items| ==> Infer(EncodeItems(items, enc).value.ids, preds)[i] == Prediction(items[i].idx, preds[i])
  {
    EncodeItemsValues(items, enc);
  }

  // infer_rucos

  /** `cosine_similarity` refuses an empty list of options. */
  const NoOptions := ValueError("no options to compare")

  /** The first position of the largest value: numpy's `argmax`. */
  function FirstMax(xs: seq<real>): (m: nat)
    requires xs != []
    ensures m < |xs|
    ensures forall j :: 0 <= j < |xs| ==> xs[j] <= xs[m]
    ensures forall j :: 0 <= j < m ==> xs[j] < xs[m]
    decreases |xs|
  {
    if |xs| == 1 then 0
    else
      var m := FirstMax(xs[..|xs| - 1]);
      if xs[|xs| - 1] > xs[m] then |xs| - 1 else m
  }

  /** The passage text as embedded: `text.replace('\n@highlight\n', ' ')`. */
  function Flattened(text: string): string {
    Replace(text, "\n@highlight\n", " ")
  }

  /** The similarity of the passage to each query with `@placeholder` replaced by an entity. */
  function OptionSims(sim: (string, string) -> real, text: string, query: string, entities: seq<string>): (r: seq<real>)
    ensures |r| == |entities|
    ensures forall e :: 0 <= e < |entities| ==> r[e] == sim(text, Replace(query, "@placeholder", entities[e]))
  {
    seq(|entities|, e requires 0 <= e < |entities| => sim(text, Replace(query, "@placeholder", entities[e])))
  }

  /** The entity picked for one query. */
  function Pick(sim: (string, string) -> real, item: RucosItem, query: string): Result<string> {
    var entities := Candidates(item);
    if entities == [] then Err(NoOptions)
    else Ok(entities[FirstMax(OptionSims(sim, Flattened(item.text), query, entities))])
  }

  /** The picks of the first `n` queries. */
  function Picks(sim: (string, string) -> real, item: RucosItem, n: nat): (r: Result<seq<string>>)
    requires n <= |item.queries|
    ensures r.Ok? ==> |r.value| == n
  {
    if n == 0 then Ok([])
    else
      match Picks(sim, item, n - 1)
      case Err(e) => Err(e)
      case Ok(ps) =>
        match Pick(sim, item, item.queries[n - 1])
        case Err(e) => Err(e)
        case Ok(p) => Ok(ps + [p])
  }

  /** The prediction of one passage: `' '.join(parts)`. */
  function RucosPrediction(sim: (string, string) -> real, item: RucosItem): Result<Prediction> {
    match Picks(sim, item, |item.queries|)
    case Err(e) => Err(e)
    case Ok(parts) => Ok(Prediction(item.idx, Str(Join(parts, " "))))
  }

  function RucosPredictions(sim: (string, string) -> real, items: seq<RucosItem>): (r: Result<seq<Prediction>>)
    ensures r.Ok? ==> |r.value| == |items|
    decreases |items|
  {
    if items == [] then Ok([])
    else
      var n := |items| - 1;
      match RucosPredictions(sim, items[..n])
      case Err(e) => Err(e)
      case Ok(ps) =>
        match RucosPrediction(sim, items[n])
        case Err(e) => Err(e)
        case Ok(p) => Ok(ps + [p])
  }

  /** The query loop of one passage. */
  method PickAll(sim: (string, string) -> real, item: RucosItem) returns (r: Result<seq<string>>)
    ensures r == Picks(sim, item, |item.queries|)
  {
    var text := item.text;
    var entities := seq(|item.entities|, j requires 0 <= j < |item.entities| =>
      PySlice(text, item.entities[j].start, item.entities[j].end));
    assert entities == Candidates(item);
    text := Replace(text, "\n@highlight\n", " ");
    assert text == Flattened(item.text);
    var parts: seq<string> := [];
    var q := 0;
    while q < |item.queries|
      invariant 0 <= q <= |item.queries|
      invariant Picks(sim, item, q) == Ok(parts)
    {
      var query := item.queries[q];
      var similarities := seq(|entities|, e requires 0 <= e < |entities| => sim(text, Replace(query, "@placeholder", entities[e])));
      if entities == [] {
        PicksErr(sim, item, |item.queries|);
        return Err(NoOptions);
      }
      assert similarities == OptionSims(sim, text, query, entities);
      var index := FirstMax(similarities);
      PickStep(sim, item, q, parts);
      parts := parts + [entities[index]];
      q := q + 1;
    }
    return Ok(parts);
  }

  /** One more query picks the entity of the first highest similarity. */
  lemma PickStep(sim: (string, string) -> real, item: RucosItem, q: nat, parts: seq<string>)
    requires q < |item.queries| && Picks(sim, item, q) == Ok(parts) && item.entities != []
    ensures Candidates(item) != []
    ensures Picks(sim, item, q + 1) ==
      Ok(parts + [Candidates(item)[FirstMax(OptionSims(sim, Flattened(item.text), item.queries[q], Candidates(item)))]])
  {
    assert |Candidates(item)| == |item.entities|;
  }

  lemma {:induction false} PicksErr(sim: (string, string) -> real, item: RucosItem, n: nat)
    requires 0 < n <= |item.queries| && item.entities == []
    ensures Picks(sim, item, n) == Err(NoOptions)
    decreases n
  {
    if n > 1 {
      PicksErr(sim, item, n - 1);
    }
  }

  lemma RucosStep(sim: (string, string) -> real, items: seq<RucosItem>, i: nat)
    requires i < |items|
    ensures RucosPredictions(sim, items[..i + 1]) ==
      match RucosPredictions(sim, items[..i])
      case Err(e) => Err(e)
      case Ok(ps) =>
        match RucosPrediction(sim, items[i])
        case Err(e) => Err(e)
        case Ok(p) => Ok(ps + [p])
  {
    assert items[..i + 1][..i] == items[..i];
  }

  lemma {:induction false} RucosErrPrefix(sim: (string, string) -> real, items: seq<RucosItem>, i: nat)
    requires i <= |items| && RucosPredictions(sim, items[..i]).Err?
    ensures RucosPredictions(sim, items) == RucosPredictions(sim, items[..i])
    decreases |items| - i
  {
    if i < |items| {
      RucosStep(sim, items, i);
      RucosErrPrefix(sim, items, i + 1);
    } else {
      assert items[..i] == items;
    }
  }

  /** `infer_rucos` over all passages. */
  method InferRucos(sim: (string, string) -> real, items: seq<RucosItem>) returns (r: Result<seq<Prediction>>)
    ensures r == RucosPredictions(sim, items)
  {
    var preds: seq<Prediction> := [];
    var i := 0;
    assert items[..0] == [];
    while i < |items|
      invariant 0 <= i <= |items|
      invariant RucosPredictions(sim, items[..i]) == Ok(preds)
    {
      RucosStep(sim, items, i);
      var parts := PickAll(sim, items[i]);
      if parts.Err? {
        RucosErrPrefix(sim, items, i + 1);
        return Err(parts.error);
      }
      preds := preds + [Prediction(items[i].idx, Str(Join(parts.value, " ")))];
      i := i + 1;
    }
    assert items[..i] == items;
    return Ok(preds);
  }

  /** A query fails exactly when the passage has no entity. */
  lemma PickOk(sim: (string, string) -> real, item: RucosItem, query: string)
    ensures Pick(sim, item, query).Ok? <==> item.entities != []
  {
    assert |Candidates(item)| == |item.entities|;
  }

  /** The first `n` picks succeed exactly when there is no query to pick for or
      an entity to pick, and then pick `q` is the pick for query `q`. */
  lemma {:induction false} PicksMeaning(sim: (string, string) -> real, item: RucosItem, n: nat)
    requires n <= |item.queries|
    ensures Picks(sim, item, n).Ok? <==> n == 0 || item.entities != []
    ensures Picks(sim, item, n).Ok? ==> forall q :: 0 <= q < n ==> Pick(sim, item, item.queries[q]) == Ok(Picks(sim, item, n).value[q])
    decreases n
  {
    if n > 0 {
      PicksMeaning(sim, item, n - 1);
      PickOk(sim, item, item.queries[n - 1]);
      if Picks(sim, item, n).Ok? {
        var ps := Picks(sim, item, n - 1).value;
        var p := Pick(sim, item, item.queries[n - 1]).value;
        assert Picks(sim, item, n).value == ps + [p];
        forall q | 0 <= q < n ensures Pick(sim, item, item.queries[q]) == Ok(Picks(sim, item, n).value[q]) {
          if q < n - 1 {
            assert Picks(sim, item, n).value[q] == ps[q];
          }
        }
      }
    }
  }

  /** A passage fails exactly when it has a query and no entity. Otherwise the
      label is the picks joined by spaces, one per query in order: each pick is
      an entity of highest similarity with no earlier entity as high; and when
      no entity contains a space, splitting the label on spaces gives the picks back. */
  lemma RucosPredictionMeaning(sim: (string, string) -> real, item: RucosItem)
    ensures RucosPrediction(sim, item).Ok? <==> item.queries == [] || item.entities != []
    ensures RucosPrediction(sim, item).Err? ==> RucosPrediction(sim, item).error == NoOptions
    ensures RucosPrediction(sim, item).Ok? ==>
      var picks := Picks(sim, item, |item.queries|).value;
      var entities := Candidates(item);
      RucosPrediction(sim, item).value == Prediction(item.idx, Str(Join(picks, " "))) &&
      |picks| == |item.queries| &&
      forall q :: 0 <= q < |item.queries| ==>
        var sims := OptionSims(sim, Flattened(item.text), item.queries[q], entities);
        exists m :: 0 <= m < |entities| && picks[q] == entities[m] &&
          (forall j :: 0 <= j < |entities| ==> sims[j] <= sims[m]) &&
          (forall j :: 0 <= j < m ==> sims[j] < sims[m])
    ensures RucosPrediction(sim, item).Ok? && item.queries != [] &&
            (forall e :: 0 <= e < |Candidates(item)| ==> ' ' !in Candidates(item)[e]) ==>
      Split(Join(Picks(sim, item, |item.queries|).value, " "), " ") == Picks(sim, item, |item.queries|).value
  {
    var n := |item.queries|;
    PicksMeaning(sim, item, n);
    if Picks(sim, item, n).Err? {
      PicksErrIs(sim, item, n);
    }
    if Picks(sim, item, n).Ok? {
      PicksFirstMax(sim, item, Picks(sim, item, n).value);
      if n > 0 && forall e :: 0 <= e < |Candidates(item)| ==> ' ' !in Candidates(item)[e] {
        PicksRoundTrip(sim, item, Picks(sim, item, n).value);
      }
    }
  }

  /** Each pick is an entity of highest similarity with no earlier entity as high. */
  lemma PicksFirstMax(sim: (string, string) -> real, item: RucosItem, picks: seq<string>)
    requires Picks(sim, item, |item.queries|) == Ok(picks)
    ensures forall q :: 0 <= q < |item.queries| ==>
      var sims := OptionSims(sim, Flattened(item.text), item.queries[q], Candidates(item));
      exists m :: 0 <= m < |Candidates(item)| && picks[q] == Candidates(item)[m] &&
        (forall j :: 0 <= j < |Candidates(item)| ==> sims[j] <= sims[m]) &&
        (forall j :: 0 <= j < m ==> sims[j] < sims[m])
  {
    PicksMeaning(sim, item, |item.queries|);
    forall q | 0 <= q < |item.queries|
      ensures
        var sims := OptionSims(sim, Flattened(item.text), item.queries[q], Candidates(item));
        exists m :: 0 <= m < |Candidates(item)| && picks[q] == Candidates(item)[m] &&
          (forall j :: 0 <= j < |Candidates(item)| ==> sims[j] <= sims[m]) &&
          (forall j :: 0 <= j < m ==> sims[j] < sims[m])
    {
      PickIs(sim, item, item.queries[q], picks[q]);
    }
  }

  /** A pick is an entity of highest similarity with no earlier entity as high. */
  lemma PickIs(sim: (string, string) -> real, item: RucosItem, query: string, p: string)
    requires Pick(sim, item, query) == Ok(p)
    ensures var sims := OptionSims(sim, Flattened(item.text), query, Candidates(item));
      exists m :: 0 <= m < |Candidates(item)| && p == Candidates(item)[m] &&
        (forall j :: 0 <= j < |Candidates(item)| ==> sims[j] <= sims[m]) &&
        (forall j :: 0 <= j < m ==> sims[j] < sims[m])
  {
    var m := FirstMax(OptionSims(sim, Flattened(item.text), query, Candidates(item)));
    assert p == Candidates(item)[m];
  }

  /** Picks from space-free entities survive joining by spaces and splitting back. */
  lemma PicksRoundTrip(sim: (string, string) -> real, item: RucosItem, picks: seq<string>)
    requires Picks(sim, item, |item.queries|) == Ok(picks) && item.queries != []
    requires forall e :: 0 <= e < |Candidates(item)| ==> ' ' !in Candidates(item)[e]
    ensures Split(Join(picks, " "), " ") == picks
  {
    var n := |item.queries|;
    var entities := Candidates(item);
    PicksMeaning(sim, item, n);
    forall k | 0 <= k < |picks| ensures ' ' !in picks[k] {
      var m := FirstMax(OptionSims(sim, Flattened(item.text), item.queries[k], entities));
      assert picks[k] == entities[m];
    }
    SplitJoin(picks, ' ');
  }

  lemma {:induction false} PicksErrIs(sim: (string, string) -> real, item: RucosItem, n: nat)
    requires n <= |item.queries| && Picks(sim, item, n).Err?
    ensures Picks(sim, item, n).error == NoOptions
    decreases n
  {
    if Picks(sim, item, n - 1).Err? {
      PicksErrIs(sim, item, n - 1);
    }
  }

  // infer_muserc

  /** `similarity.argsort().flatten()[-2:]`: the last two positions of the
      stable ascending order, that is the two highest similarities, ties going
      to the later position. */
  function TopTwo(xs: seq<real>): (r: seq<nat>)
    ensures |r| == if |xs| < 2 then |xs| else 2
    ensures InRange(r, |xs|)
  {
    var n := |xs|;
    var sorted := SortIdx(xs, n);
    sorted[n - (if n < 2 then n else 2)..]
  }

  /** The positions a selection holds. */
  function Chosen(top: seq<nat>): set<nat> {
    set x: nat | x in top
  }

  /** The two selected positions are distinct and each comes after every
      unselected position in the stable ascending order. */
  lemma TopTwoSelects(xs: seq<real>)
    ensures |Chosen(TopTwo(xs))| == if |xs| < 2 then |xs| else 2
    ensures forall i: nat, j: nat :: i in TopTwo(xs) && j < |xs| && j !in TopTwo(xs) ==> Before(xs, j, i)
  {
    var n := |xs|;
    var sorted := SortIdx(xs, n);
    var k := if n < 2 then n else 2;
    var r := TopTwo(xs);
    SortIdxOrdered(xs, n);
    assert r == sorted[n - k..];
    forall a, b | 0 <= a < b < |r| ensures r[a] != r[b] {
      assert Before(xs, sorted[n - k + a], sorted[n - k + b]);
    }
    NoRepeatsCard(r);
    assert Chosen(r) == set x: nat | x in r;
    forall i: nat, j: nat | i in r && j < n && j !in r ensures Before(xs, j, i) {
      var a :| 0 <= a < |r| && r[a] == i;
      assert j in sorted;
      var b :| 0 <= b < n && sorted[b] == j;
      if b >= n - k {
        assert false;
      }
      assert sorted[n - k + a] == i;
    }
  }

  /** The similarity of the passage to `question + ' ' + answer` for each answer. */
  function AnswerSims(sim: (string, string) -> real, text: string, q: MusercQuestion): (r: seq<real>)
    ensures |r| == |q.answers|
  {
    seq(|q.answers|, a requires 0 <= a < |q.answers| => sim(text, q.question + " " + q.answers[a].text))
  }

  /** The labelled answers of one question: 1 for the two most similar answers, 0 for the rest. */
  function QuestionPrediction(sim: (string, string) -> real, text: string, q: MusercQuestion): Result<EvalQuestion> {
    if q.answers == [] then Err(NoOptions)
    else
      var top := TopTwo(AnswerSims(sim, text, q));
      Ok(EvalQuestion(q.idx, seq(|q.answers|, a requires 0 <= a < |q.answers| =>
        EvalAnswer(q.answers[a].idx, if a in top then 1 else 0))))
  }

  function QuestionPredictions(sim: (string, string) -> real, text: string, qs: seq<MusercQuestion>): (r: Result<seq<EvalQuestion>>)
    ensures r.Ok? ==> |r.value| == |qs|
    decreases |qs|
  {
    if qs == [] then Ok([])
    else
      var n := |qs| - 1;
      match QuestionPredictions(sim, text, qs[..n])
      case Err(e) => Err(e)
      case Ok(ps) =>
        match QuestionPrediction(sim, text, qs[n])
        case Err(e) => Err(e)
        case Ok(p) => Ok(ps + [p])
  }

  function PassagePrediction(sim: (string, string) -> real, item: MusercItem): Result<EvalPassage> {
    match QuestionPredictions(sim, item.text, item.questions)
    case Err(e) => Err(e)
    case Ok(qs) => Ok(EvalPassage(item.idx, qs))
  }

  function MusercPredictions(sim: (string, string) -> real, items: seq<MusercItem>): (r: Result<seq<EvalPassage>>)
    ensures r.Ok? ==> |r.value| == |items|
    decreases |items|
  {
    if items == [] then Ok([])
    else
      var n := |items| - 1;
      match MusercPredictions(sim, items[..n])
      case Err(e) => Err(e)
      case Ok(ps) =>
        match PassagePrediction(sim, items[n])
        case Err(e) => Err(e)
        case Ok(p) => Ok(ps + [p])
  }

  /** The answer loop of one question. */
  method PredictQuestion(sim: (string, string) -> real, text: string, q: MusercQuestion) returns (r: Result<EvalQuestion>)
    ensures r == QuestionPrediction(sim, text, q)
  {
    var similarity := seq(|q.answers|, a requires 0 <= a < |q.answers| => sim(text, q.question + " " + q.answers[a].text));
    if q.answers == [] {
      return Err(NoOptions);
    }
    assert similarity == AnswerSims(sim, text, q);
    var top := TopTwo(similarity);
    ghost var labelled := seq(|q.answers|, a requires 0 <= a < |q.answers| =>
      EvalAnswer(q.answers[a].idx, if a in top then 1 else 0));
    var answerPreds: seq<EvalAnswer> := [];
    var a := 0;
    while a < |q.answers|
      invariant 0 <= a <= |q.answers|
      invariant answerPreds == labelled[..a]
    {
      assert labelled[..a + 1] == labelled[..a] + [labelled[a]];
      answerPreds := answerPreds + [EvalAnswer(q.answers[a].idx, if a in top then 1 else 0)];
      a := a + 1;
    }
    assert labelled[..a] == labelled;
    return Ok(EvalQuestion(q.idx, answerPreds));
  }

  lemma QuestionsStep(sim: (string, string) -> real, text: string, qs: seq<MusercQuestion>, i: nat)
    requires i < |qs|
    ensures QuestionPredictions(sim, text, qs[..i + 1]) ==
      match QuestionPredictions(sim, text, qs[..i])
      case Err(e) => Err(e)
      case Ok(ps) =>
        match QuestionPrediction(sim, text, qs[i])
        case Err(e) => Err(e)
        case Ok(p) => Ok(ps + [p])
  {
    assert qs[..i + 1][..i] == qs[..i];
  }

  lemma {:induction false} QuestionsErrPrefix(sim: (string, string) -> real, text: string, qs: seq<MusercQuestion>, i: nat)
    requires i <= |qs| && QuestionPredictions(sim, text, qs[..i]).Err?
    ensures QuestionPredictions(sim, text, qs) == QuestionPredictions(sim, text, qs[..i])
    decreases |qs| - i
  {
    if i < |qs| {
      QuestionsStep(sim, text, qs, i);
      QuestionsErrPrefix(sim, text, qs, i + 1);
    } else {
      assert qs[..i] == qs;
    }
  }

  /** The question loop of one passage. */
  method PredictPassage(sim: (string, string) -> real, item: MusercItem) returns (r: Result<EvalPassage>)
    ensures r == PassagePrediction(sim, item)
  {
    var qs := item.questions;
    var questionPreds: seq<EvalQuestion> := [];
    var i := 0;
    assert qs[..0] == [];
    while i < |qs|
      invariant 0 <= i <= |qs|
      invariant QuestionPredictions(sim, item.text, qs[..i]) == Ok(questionPreds)
    {
      QuestionsStep(sim, item.text, qs, i);
      var p := PredictQuestion(sim, item.text, qs[i]);
      if p.Err? {
        QuestionsErrPrefix(sim, item.text, qs, i + 1);
        return Err(p.error);
      }
      questionPreds := questionPreds + [p.value];
      i := i + 1;
    }
    assert qs[..i] == qs;
    return Ok(EvalPassage(item.idx, questionPreds));
  }

  lemma PassagesStep(sim: (string, string) -> real, items: seq<MusercItem>, i: nat)
    requires i < |items|
    ensures MusercPredictions(sim, items[..i + 1]) ==
      match MusercPredictions(sim, items[..i])
      case Err(e) => Err(e)
      case Ok(ps) =>
        match PassagePrediction(sim, items[i])
        case Err(e) => Err(e)
        case Ok(p) => Ok(ps + [p])
  {
    assert items[..i + 1][..i] == items[..i];
  }

  lemma {:induction false} PassagesErrPrefix(sim: (string, string) -> real, items: seq<MusercItem>, i: nat)
    requires i <= |items| && MusercPredictions(sim, items[..i]).Err?
    ensures MusercPredictions(sim, items) == MusercPredictions(sim, items[..i])
    decreases |items| - i
  {
    if i < |items| {
      PassagesStep(sim, items, i);
      PassagesErrPrefix(sim, items, i + 1);
    } else {
      assert items[..i] == items;
    }
  }

  /** `infer_muserc` over all passages. */
  method InferMuserc(sim: (string, string) -> real, items: seq<MusercItem>) returns (r: Result<seq<EvalPassage>>)
    ensures r == MusercPredictions(sim, items)
  {
    var preds: seq<EvalPassage> := [];
    var i := 0;
    assert items[..0] == [];
    while i < |items|
      invariant 0 <= i <= |items|
      invariant MusercPredictions(sim, items[..i]) == Ok(preds)
    {
      PassagesStep(sim, items, i);
      var p := PredictPassage(sim, items[i]);
      if p.Err? {
        PassagesErrPrefix(sim, items, i + 1);
        return Err(p.error);
      }
      preds := preds + [p.value];
      i := i + 1;
    }
    assert items[..i] == items;
    return Ok(preds);
  }

  /** A question fails exactly when it has no answer. Otherwise it keeps its
      idx and its answers' idx in order, and labels every answer 0 or 1. */
  lemma QuestionPredictionMeaning(sim: (string, string) -> real, text: string, q: MusercQuestion)
    ensures QuestionPrediction(sim, text, q).Ok? <==> q.answers != []
    ensures QuestionPrediction(sim, text, q).Ok? ==>
      var p := QuestionPrediction(sim, text, q).value;
      p.idx == q.idx && |p.answers| == |q.answers| &&
      forall a :: 0 <= a < |p.answers| ==> p.answers[a].idx == q.answers[a].idx && (p.answers[a].verdict == 0 || p.answers[a].verdict == 1)
  {
    if q.answers != [] {
      QuestionMarks(sim, text, q);
    }
  }

  /** Exactly min(2, n) answers are labelled 1. */
  lemma QuestionPredictionTop(sim: (string, string) -> real, text: string, q: MusercQuestion)
    requires q.answers != []
    ensures |Ones(QuestionPrediction(sim, text, q).value.answers)| == if |q.answers| < 2 then |q.answers| else 2
  {
    var p := QuestionPrediction(sim, text, q).value;
    var sims := AnswerSims(sim, text, q);
    var top := TopTwo(sims);
    QuestionMarks(sim, text, q);
    TopTwoSelects(sims);
    MarkedTop(p.answers, sims, top);
  }

  /** Every answer labelled 1 is at least as similar to the passage as every
      answer labelled 0. */
  lemma QuestionPredictionOrder(sim: (string, string) -> real, text: string, q: MusercQuestion)
    requires q.answers != []
    ensures var p := QuestionPrediction(sim, text, q).value;
      var sims := AnswerSims(sim, text, q);
      forall a, b :: 0 <= a < |p.answers| && 0 <= b < |p.answers| && p.answers[a].verdict == 1 && p.answers[b].verdict == 0 ==>
        sims[b] <= sims[a]
  {
    var p := QuestionPrediction(sim, text, q).value;
    var sims := AnswerSims(sim, text, q);
    var top := TopTwo(sims);
    QuestionMarks(sim, text, q);
    TopTwoSelects(sims);
    MarkedTop(p.answers, sims, top);
  }

  /** One answer per answer of the question, marked 1 exactly at the positions `TopTwo` selects. */
  lemma QuestionMarks(sim: (string, string) -> real, text: string, q: MusercQuestion)
    requires q.answers != []
    ensures var p := QuestionPrediction(sim, text, q).value;
      p.idx == q.idx && |p.answers| == |q.answers| &&
      forall a :: 0 <= a < |p.answers| ==>
        p.answers[a] == EvalAnswer(q.answers[a].idx, if a in TopTwo(AnswerSims(sim, text, q)) then 1 else 0)
  {
  }

  /** The positions of the answers labelled 1. */
  function Ones(answers: seq<EvalAnswer>): set<nat> {
    set a: nat | a < |answers| && answers[a].verdict == 1
  }

  /** Answers marked 1 exactly at the positions in `top` are as many as `top`
      holds, and each is at least as similar as every answer marked 0. */
  lemma MarkedTop(answers: seq<EvalAnswer>, sims: seq<real>, top: seq<nat>)
    requires |answers| == |sims| && InRange(top, |sims|)
    requires forall a :: 0 <= a < |answers| ==> answers[a].verdict == if a in top then 1 else 0
    requires forall i: nat, j: nat :: i in top && j < |sims| && j !in top ==> Before(sims, j, i)
    ensures Ones(answers) == Chosen(top)
    ensures forall a, b :: 0 <= a < |answers| && 0 <= b < |answers| && answers[a].verdict == 1 && answers[b].verdict == 0 ==>
      sims[b] <= sims[a]
  {
    forall a, b | 0 <= a < |answers| && 0 <= b < |answers| && answers[a].verdict == 1 && answers[b].verdict == 0
      ensures sims[b] <= sims[a]
    {
      assert a in top && b !in top;
      assert Before(sims, b, a);
    }
  }
}
