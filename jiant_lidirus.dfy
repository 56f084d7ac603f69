/** `eval_lidirus` and `lidirus_masks`: the labels and the diagnostic tag
    masks handed to the jiant lidirus metric. */
module JiantLidirus {
  import opened Wrappers
  import opened Numbers
  import opened Dicts
  import opened JiantLabels
  import opened JiantEval

  /** A generated record: `idx` and `label`. */
  datatype LidirusPrediction = LidirusPrediction(idx: int, text: string)

  /** A gold record: `idx` (stored as text), `label`, and the four diagnostic
      categories, each present or not. */
  datatype LidirusTarget = LidirusTarget(
    idx: string, text: string,
    logic: Option<string>, structure: Option<string>, semantics: Option<string>, knowledge: Option<string>)

  /** The two tags of a present category: its short name, and the short name
      with the value after `__`. */
  function CategoryTags(short: string, value: Option<string>): set<string> {
    if value.Some? then {short, short + "__" + value.value} else {}
  }

  /** `set(lidirus_masks(item))`. */
  function Tags(t: LidirusTarget): set<string> {
    CategoryTags("logic", t.logic) + CategoryTags("pr_ar_str", t.structure) +
    CategoryTags("lex_sem", t.semantics) + CategoryTags("knowledge", t.knowledge)
  }

  /** A short name is not the value tag of another category: it is too short, or differs at position `k`. */
  lemma NotValueTag(short: string, other: string, v: string, k: nat)
    requires |short| < |other| + 2 || (k < |short| && k < |other| + 2 && short[k] != (other + "__")[k])
    ensures short != other + "__" + v
  {
    if |short| >= |other| + 2 {
      assert (other + "__" + v)[k] == (other + "__")[k];
    }
  }

  /** A category's short name is a tag exactly when the category is present. */
  lemma TagsMeaning(t: LidirusTarget)
    ensures "logic" in Tags(t) <==> t.logic.Some?
    ensures "pr_ar_str" in Tags(t) <==> t.structure.Some?
    ensures "lex_sem" in Tags(t) <==> t.semantics.Some?
    ensures "knowledge" in Tags(t) <==> t.knowledge.Some?
  {
    LogicTag(t);
    StructureTag(t);
    SemanticsTag(t);
    KnowledgeTag(t);
  }

  lemma LogicTag(t: LidirusTarget)
    ensures "logic" in Tags(t) <==> t.logic.Some?
  {
    if t.structure.Some? {
      ShortNotValue(t.structure.value);
    }
    if t.semantics.Some? {
      ShortNotValue(t.semantics.value);
    }
    if t.knowledge.Some? {
      ShortNotValue(t.knowledge.value);
    }
  }

  lemma StructureTag(t: LidirusTarget)
    ensures "pr_ar_str" in Tags(t) <==> t.structure.Some?
  {
    if t.logic.Some? {
      ShortNotValue(t.logic.value);
    }
    if t.semantics.Some? {
      ShortNotValue(t.semantics.value);
    }
    if t.knowledge.Some? {
      ShortNotValue(t.knowledge.value);
    }
  }

  lemma SemanticsTag(t: LidirusTarget)
    ensures "lex_sem" in Tags(t) <==> t.semantics.Some?
  {
    if t.logic.Some? {
      ShortNotValue(t.logic.value);
    }
    if t.structure.Some? {
      ShortNotValue(t.structure.value);
    }
    if t.knowledge.Some? {
      ShortNotValue(t.knowledge.value);
    }
  }

  lemma KnowledgeTag(t: LidirusTarget)
    ensures "knowledge" in Tags(t) <==> t.knowledge.Some?
  {
    if t.logic.Some? {
      ShortNotValue(t.logic.value);
    }
    if t.structure.Some? {
      ShortNotValue(t.structure.value);
    }
    if t.semantics.Some? {
      ShortNotValue(t.semantics.value);
    }
  }

  /** A present category also yields `short__value`. */
  lemma TagsValues(t: LidirusTarget)
    ensures t.logic.Some? ==> "logic__" + t.logic.value in Tags(t)
    ensures t.structure.Some? ==> "pr_ar_str__" + t.structure.value in Tags(t)
    ensures t.semantics.Some? ==> "lex_sem__" + t.semantics.value in Tags(t)
    ensures t.knowledge.Some? ==> "knowledge__" + t.knowledge.value in Tags(t)
  {
    assert "logic" + "__" == "logic__";
    assert "pr_ar_str" + "__" == "pr_ar_str__";
    assert "lex_sem" + "__" == "lex_sem__";
    assert "knowledge" + "__" == "knowledge__";
  }

  /** No category's short name is the value tag of another category. */
  lemma ShortNotValue(v: string)
    ensures "logic" != "pr_ar_str__" + v && "logic" != "lex_sem__" + v && "logic" != "knowledge__" + v
    ensures "pr_ar_str" != "logic__" + v && "pr_ar_str" != "lex_sem__" + v && "pr_ar_str" != "knowledge__" + v
    ensures "lex_sem" != "logic__" + v && "lex_sem" != "pr_ar_str__" + v && "lex_sem" != "knowledge__" + v
    ensures "knowledge" != "logic__" + v && "knowledge" != "pr_ar_str__" + v && "knowledge" != "lex_sem__" + v
  {
    NotValueTag("logic", "pr_ar_str", v, 0);
    NotValueTag("logic", "lex_sem", v, 0);
    NotValueTag("logic", "knowledge", v, 0);
    NotValueTag("pr_ar_str", "logic", v, 0);
    NotValueTag("pr_ar_str", "lex_sem", v, 0);
    NotValueTag("pr_ar_str", "knowledge", v, 0);
    NotValueTag("lex_sem", "logic", v, 1);
    NotValueTag("lex_sem", "pr_ar_str", v, 0);
    NotValueTag("lex_sem", "knowledge", v, 0);
    NotValueTag("knowledge", "logic", v, 0);
    NotValueTag("knowledge", "pr_ar_str", v, 0);
    NotValueTag("knowledge", "lex_sem", v, 0);
    assert "logic" + "__" + v == "logic__" + v;
    assert "pr_ar_str" + "__" + v == "pr_ar_str__" + v;
    assert "lex_sem" + "__" + v == "lex_sem__" + v;
    assert "knowledge" + "__" + v == "knowledge__" + v;
  }

  function TagSets(ts: seq<LidirusTarget>): (r: seq<set<string>>)
    ensures |r| == |ts|
    ensures forall j :: 0 <= j < |ts| ==> r[j] == Tags(ts[j])
  {
    seq(|ts|, j requires 0 <= j < |ts| => Tags(ts[j]))
  }

  function Union<T>(sets: seq<set<T>>): set<T>
    decreases |sets|
  {
    if sets == [] then {} else Union(sets[..|sets| - 1]) + sets[|sets| - 1]
  }

  lemma {:induction false} UnionMembers<T>(sets: seq<set<T>>, x: T)
    ensures x in Union(sets) <==> exists j :: 0 <= j < |sets| && x in sets[j]
    decreases |sets|
  {
    if sets != [] {
      var n := |sets| - 1;
      UnionMembers(sets[..n], x);
      assert forall j :: 0 <= j < n ==> sets[..n][j] == sets[j];
    }
  }

  /** The keys of `tag_masks`: every tag of every gold record. */
  function AllTags(ts: seq<LidirusTarget>): set<string> {
    Union(TagSets(ts))
  }

  lemma AllTagsMeaning(ts: seq<LidirusTarget>, tag: string)
    ensures tag in AllTags(ts) <==> exists j :: 0 <= j < |ts| && tag in Tags(ts[j])
  {
    UnionMembers(TagSets(ts), tag);
  }

  lemma AllTagsStep(ts: seq<LidirusTarget>, i: nat)
    requires i < |ts|
    ensures AllTags(ts[..i + 1]) == AllTags(ts[..i]) + Tags(ts[i])
  {
    assert TagSets(ts[..i + 1])[..i] == TagSets(ts[..i]);
  }

  /** `[renames[_] for _ in labels]` with the lidirus `renames`: `KeyError` at the first unknown label. */
  function RenameAll(texts: seq<string>): (r: Result<seq<int>>)
    ensures r.Err? ==> r.error == KeyError
    ensures r.Ok? ==> |r.value| == |texts|
    decreases |texts|
  {
    if texts == [] then Ok([])
    else
      var n := |texts| - 1;
      match RenameAll(texts[..n])
      case Err(e) => Err(e)
      case Ok(vs) =>
        match LidirusRename(texts[n])
        case Err(e) => Err(e)
        case Ok(v) => Ok(vs + [v])
  }

  lemma {:induction false} RenameAllMeaning(texts: seq<string>)
    ensures RenameAll(texts).Ok? <==> forall i :: 0 <= i < |texts| ==> LidirusRename(texts[i]).Ok?
    ensures RenameAll(texts).Ok? ==> forall i :: 0 <= i < |texts| ==> RenameAll(texts).value[i] == LidirusRename(texts[i]).value
    decreases |texts|
  {
    if texts != [] {
      var n := |texts| - 1;
      RenameAllMeaning(texts[..n]);
      assert forall i :: 0 <= i < n ==> texts[..n][i] == texts[i];
    }
  }

  lemma {:induction false} RenameAllErrPrefix(texts: seq<string>, i: nat)
    requires i <= |texts| && RenameAll(texts[..i]).Err?
    ensures RenameAll(texts).Err?
    decreases |texts| - i
  {
    if i < |texts| {
      assert texts[..i + 1][..i] == texts[..i];
      RenameAllErrPrefix(texts, i + 1);
    } else {
      assert texts[..i] == texts;
    }
  }

  /** `id_targets[int(item['idx'])] = item` for each gold record: the pairs, or
      the `ValueError` of the first idx that is not an integer. */
  function ParsedTargets(ts: seq<LidirusTarget>): (r: Result<seq<(int, LidirusTarget)>>)
    ensures r.Err? ==> r.error.ValueError?
    ensures r.Ok? ==> |r.value| == |ts|
    decreases |ts|
  {
    if ts == [] then Ok([])
    else
      var n := |ts| - 1;
      match ParsedTargets(ts[..n])
      case Err(e) => Err(e)
      case Ok(ps) =>
        match ParseInt(ts[n].idx)
        case Err(e) => Err(e)
        case Ok(id) => Ok(ps + [(id, ts[n])])
  }

  lemma {:induction false} ParsedTargetsMeaning(ts: seq<LidirusTarget>)
    ensures ParsedTargets(ts).Ok? <==> forall j :: 0 <= j < |ts| ==> ParseInt(ts[j].idx).Ok?
    ensures ParsedTargets(ts).Ok? ==>
      forall j :: 0 <= j < |ts| ==> ParsedTargets(ts).value[j] == (ParseInt(ts[j].idx).value, ts[j])
    decreases |ts|
  {
    if ts != [] {
      var n := |ts| - 1;
      ParsedTargetsMeaning(ts[..n]);
      assert forall j :: 0 <= j < n ==> ts[..n][j] == ts[j];
    }
  }

  lemma {:induction false} ParsedErrPrefix(ts: seq<LidirusTarget>, i: nat)
    requires i <= |ts| && ParsedTargets(ts[..i]).Err?
    ensures ParsedTargets(ts) == ParsedTargets(ts[..i])
    decreases |ts| - i
  {
    if i < |ts| {
      assert ts[..i + 1][..i] == ts[..i];
      ParsedErrPrefix(ts, i + 1);
    } else {
      assert ts[..i] == ts;
    }
  }

  function PredTexts(preds: seq<LidirusPrediction>): (r: seq<string>)
    ensures |r| == |preds|
    ensures forall i :: 0 <= i < |preds| ==> r[i] == preds[i].text
  {
    seq(|preds|, i requires 0 <= i < |preds| => preds[i].text)
  }

  function LidirusIds(preds: seq<LidirusPrediction>): (r: seq<int>)
    ensures |r| == |preds|
    ensures forall i :: 0 <= i < |preds| ==> r[i] == preds[i].idx
  {
    seq(|preds|, i requires 0 <= i < |preds| => preds[i].idx)
  }

  function TargetTexts(ms: seq<LidirusTarget>): (r: seq<string>)
    ensures |r| == |ms|
    ensures forall i :: 0 <= i < |ms| ==> r[i] == ms[i].text
  {
    seq(|ms|, i requires 0 <= i < |ms| => ms[i].text)
  }

  /** `tag_masks` after the join: for each tag, whether the matched gold record of each prediction carries it. */
  function Masks(tags: set<string>, ms: seq<LidirusTarget>): map<string, seq<bool>> {
    map tag | tag in tags :: seq(|ms|, i requires 0 <= i < |ms| => tag in Tags(ms[i]))
  }

  /** The predicted labels, the gold labels joined by id, and the tag masks. */
  datatype LidirusBatch = LidirusBatch(predicted: seq<int>, expected: seq<int>, masks: map<string, seq<bool>>)

  function EvalLidirusBatch(preds: seq<LidirusPrediction>, targets: seq<LidirusTarget>): Result<LidirusBatch> {
    match RenameAll(PredTexts(preds))
    case Err(e) => Err(e)
    case Ok(predicted) =>
      if preds == [] then Err(RuntimeError) else
      match ParsedTargets(targets)
      case Err(e) => Err(e)
      case Ok(pairs) =>
        match Lookup(LidirusIds(preds), Collect(pairs))
        case Err(e) => Err(e)
        case Ok(ms) =>
          match RenameAll(TargetTexts(ms))
          case Err(e) => Err(e)
          case Ok(expected) => Ok(LidirusBatch(predicted, expected, Masks(AllTags(targets), ms)))
  }

  // The loops

  /** The loop over the generated records. */
  method PredictedLabels(preds: seq<LidirusPrediction>) returns (r: Result<seq<int>>)
    ensures r == RenameAll(PredTexts(preds))
  {
    var labels: seq<int> := [];
    var i := 0;
    assert PredTexts(preds)[..0] == [];
    while i < |preds|
      invariant 0 <= i <= |preds|
      invariant RenameAll(PredTexts(preds)[..i]) == Ok(labels)
    {
      assert PredTexts(preds)[..i + 1][..i] == PredTexts(preds)[..i];
      var verdict := LidirusRename(preds[i].text);
      if verdict.Err? {
        RenameAllErrPrefix(PredTexts(preds), i + 1);
        return Err(verdict.error);
      }
      labels := labels + [verdict.value];
      i := i + 1;
    }
    assert PredTexts(preds)[..i] == PredTexts(preds);
    return Ok(labels);
  }

  lemma ParsedStep(ts: seq<LidirusTarget>, i: nat, done: seq<(int, LidirusTarget)>, id: int)
    requires i < |ts| && ParsedTargets(ts[..i]) == Ok(done) && ParseInt(ts[i].idx) == Ok(id)
    ensures ParsedTargets(ts[..i + 1]) == Ok(done + [(id, ts[i])])
    ensures Collect(done + [(id, ts[i])]) == Put(Collect(done), id, ts[i])
    ensures AllTags(ts[..i + 1]) == AllTags(ts[..i]) + Tags(ts[i])
  {
    AllTagsStep(ts, i);
    assert ts[..i + 1][..i] == ts[..i];
    assert (done + [(id, ts[i])])[..|done|] == done;
  }

  /** `tag_masks[tag] = []` for each tag of one gold record. */
  function AddTags(m: map<string, seq<bool>>, tags: set<string>): (r: map<string, seq<bool>>)
    ensures r.Keys == m.Keys + tags
    ensures forall tag :: tag in r ==> r[tag] == (if tag in tags then [] else m[tag])
  {
    m + map tag | tag in tags :: []
  }

  /** The loop over the gold records: `id_targets` and the keys of `tag_masks`. */
  method IndexTargets(targets: seq<LidirusTarget>) returns (r: Result<Dict<int, LidirusTarget>>, tagMasks: map<string, seq<bool>>)
    ensures ParsedTargets(targets).Err? ==> r == Err(ParsedTargets(targets).error)
    ensures ParsedTargets(targets).Ok? ==> r == Ok(Collect(ParsedTargets(targets).value))
    ensures tagMasks.Keys == AllTags(targets) || r.Err?
    ensures forall tag :: tag in tagMasks ==> tagMasks[tag] == []
  {
    var idTargets: Dict<int, LidirusTarget> := [];
    tagMasks := map[];
    ghost var done: seq<(int, LidirusTarget)> := [];
    var i := 0;
    assert targets[..0] == [];
    while i < |targets|
      invariant 0 <= i <= |targets|
      invariant ParsedTargets(targets[..i]) == Ok(done)
      invariant idTargets == Collect(done)
      invariant tagMasks.Keys == AllTags(targets[..i])
      invariant forall tag :: tag in tagMasks ==> tagMasks[tag] == []
    {
      var id := ParseInt(targets[i].idx);
      if id.Err? {
        assert targets[..i + 1][..i] == targets[..i];
        ParsedErrPrefix(targets, i + 1);
        return Err(id.error), tagMasks;
      }
      ParsedStep(targets, i, done, id.value);
      idTargets := Put(idTargets, id.value, targets[i]);
      tagMasks := AddTags(tagMasks, Tags(targets[i]));
      done := done + [(id.value, targets[i])];
      i := i + 1;
    }
    assert targets[..i] == targets;
    return Ok(idTargets), tagMasks;
  }

  /** One more entry in every mask: whether the row carries that tag. */
  function AppendMask(masks: map<string, seq<bool>>, present: set<string>): map<string, seq<bool>> {
    map tag | tag in masks :: masks[tag] + [tag in present]
  }

  lemma MasksStep(tags: set<string>, ms: seq<LidirusTarget>, item: LidirusTarget)
    ensures Masks(tags, ms + [item]) == AppendMask(Masks(tags, ms), Tags(item))
  {
    var a := Masks(tags, ms + [item]);
    var b := AppendMask(Masks(tags, ms), Tags(item));
    forall tag | tag in tags
      ensures a[tag] == b[tag]
    {
      assert |a[tag]| == |b[tag]|;
      forall i | 0 <= i < |a[tag]|
        ensures a[tag][i] == b[tag][i]
      {
        if i < |ms| {
          assert (ms + [item])[i] == ms[i];
        }
      }
    }
  }

  lemma JoinErr(ids: seq<int>, d: Dict<int, LidirusTarget>, i: nat, ms: seq<LidirusTarget>, item: LidirusTarget)
    requires i < |ids| && Lookup(ids[..i], d) == Ok(ms) && Get(d, ids[i]) == Some(item)
    requires LidirusRename(item.text).Err?
    ensures Lookup(ids, d).Err? || RenameAll(TargetTexts(Lookup(ids, d).value)).Err?
  {
    assert ids[..i + 1][..i] == ids[..i];
    assert Lookup(ids[..i + 1], d) == Ok(ms + [item]);
    if Lookup(ids, d).Ok? {
      var all := Lookup(ids, d).value;
      LookupPrefix(ids, d, i + 1);
      assert all[..i + 1] == ms + [item];
      assert TargetTexts(all)[..i + 1] == TargetTexts(ms + [item]);
      assert TargetTexts(ms + [item])[..i] == TargetTexts(ms);
      RenameAllErrPrefix(TargetTexts(all), i + 1);
    }
  }

  lemma JoinStep(ids: seq<int>, d: Dict<int, LidirusTarget>, i: nat, ms: seq<LidirusTarget>, labels: seq<int>,
                 item: LidirusTarget, verdict: int)
    requires i < |ids| && Lookup(ids[..i], d) == Ok(ms) && RenameAll(TargetTexts(ms)) == Ok(labels)
    requires Get(d, ids[i]) == Some(item) && LidirusRename(item.text) == Ok(verdict)
    ensures Lookup(ids[..i + 1], d) == Ok(ms + [item])
    ensures RenameAll(TargetTexts(ms + [item])) == Ok(labels + [verdict])
  {
    assert ids[..i + 1][..i] == ids[..i];
    assert TargetTexts(ms + [item])[..|ms|] == TargetTexts(ms);
  }

  /** The join loop: each prediction's gold record, its renamed label, and one more entry in every mask. */
  method JoinTargets(ids: seq<int>, d: Dict<int, LidirusTarget>, tags: set<string>) returns (r: Result<(seq<int>, map<string, seq<bool>>)>)
    ensures Lookup(ids, d).Err? ==> r == Err(KeyError)
    ensures Lookup(ids, d).Ok? && RenameAll(TargetTexts(Lookup(ids, d).value)).Err? ==> r == Err(KeyError)
    ensures Lookup(ids, d).Ok? && RenameAll(TargetTexts(Lookup(ids, d).value)).Ok? ==>
      r == Ok((RenameAll(TargetTexts(Lookup(ids, d).value)).value, Masks(tags, Lookup(ids, d).value)))
  {
    var labels: seq<int> := [];
    var tagMasks: map<string, seq<bool>> := map tag | tag in tags :: [];
    ghost var ms: seq<LidirusTarget> := [];
    var i := 0;
    assert ids[..0] == [];
    assert forall tag | tag in tags :: Masks(tags, [])[tag] == [];
    assert tagMasks == Masks(tags, []);
    while i < |ids|
      invariant 0 <= i <= |ids|
      invariant Lookup(ids[..i], d) == Ok(ms)
      invariant RenameAll(TargetTexts(ms)) == Ok(labels)
      invariant tagMasks == Masks(tags, ms)
    {
      var item := Get(d, ids[i]);
      if item.None? {
        assert ids[..i + 1][..i] == ids[..i];
        LookupErrPrefix(ids, d, i + 1);
        return Err(KeyError);
      }
      var verdict := LidirusRename(item.value.text);
      if verdict.Err? {
        JoinErr(ids, d, i, ms, item.value);
        return Err(KeyError);
      }
      JoinStep(ids, d, i, ms, labels, item.value, verdict.value);
      labels := labels + [verdict.value];
      MasksStep(tags, ms, item.value);
      tagMasks := AppendMask(tagMasks, Tags(item.value));
      ms := ms + [item.value];
      i := i + 1;
    }
    assert ids[..i] == ids;
    return Ok((labels, tagMasks));
  }

  /** `eval_lidirus` up to `update_metrics`. */
  method EvalLidirus(preds: seq<LidirusPrediction>, targets: seq<LidirusTarget>) returns (r: Result<LidirusBatch>)
    ensures r == EvalLidirusBatch(preds, targets)
  {
    var predicted := PredictedLabels(preds);
    if predicted.Err? {
      return Err(predicted.error);
    }
    if |preds| == 0 {
      return Err(RuntimeError);
    }
    var ids := seq(|preds|, i requires 0 <= i < |preds| => preds[i].idx);
    var index, tagMasks := IndexTargets(targets);
    if index.Err? {
      return Err(index.error);
    }
    var joined := JoinTargets(ids, index.value, tagMasks.Keys);
    if joined.Err? {
      return Err(joined.error);
    }
    return Ok(LidirusBatch(predicted.value, joined.value.0, joined.value.1));
  }

  // What the batch holds

  /** The gold record prediction `i` is joined with, if its idx reads as the idx of any. */
  function GoldFor(preds: seq<LidirusPrediction>, targets: seq<LidirusTarget>, i: nat): Option<LidirusTarget>
    requires i < |preds| && ParsedTargets(targets).Ok?
  {
    match LastWith(ParsedTargets(targets).value, preds[i].idx)
    case None => None
    case Some(j) => Some(targets[j])
  }

  /** Every generated label is known, and there is at least one. */
  predicate PredsUsable(preds: seq<LidirusPrediction>) {
    preds != [] && forall i :: 0 <= i < |preds| ==> LidirusRename(preds[i].text).Ok?
  }

  /** Every prediction finds a gold record. */
  predicate AllJoined(preds: seq<LidirusPrediction>, targets: seq<LidirusTarget>)
    requires ParsedTargets(targets).Ok?
  {
    forall i :: 0 <= i < |preds| ==> GoldFor(preds, targets, i).Some?
  }

  /** The join of `eval_lidirus`: each prediction's gold record, or `KeyError`. */
  lemma LidirusLookup(preds: seq<LidirusPrediction>, targets: seq<LidirusTarget>)
    requires ParsedTargets(targets).Ok?
    ensures Lookup(LidirusIds(preds), Collect(ParsedTargets(targets).value)).Ok? <==> AllJoined(preds, targets)
    ensures Lookup(LidirusIds(preds), Collect(ParsedTargets(targets).value)).Ok? ==>
      forall i :: 0 <= i < |preds| ==>
        Some(Lookup(LidirusIds(preds), Collect(ParsedTargets(targets).value)).value[i]) == GoldFor(preds, targets, i)
    ensures forall i :: 0 <= i < |preds| ==>
      (GoldFor(preds, targets, i).None? <==> forall j :: 0 <= j < |targets| ==> ParseInt(targets[j].idx) != Ok(preds[i].idx))
  {
    ParsedTargetsMeaning(targets);
    var pairs := ParsedTargets(targets).value;
    var ids := LidirusIds(preds);
    LookupMeaning(ids, Collect(pairs));
    forall i | 0 <= i < |preds|
      ensures Get(Collect(pairs), ids[i]) == GoldFor(preds, targets, i)
      ensures GoldFor(preds, targets, i).None? <==> forall j :: 0 <= j < |targets| ==> ParseInt(targets[j].idx) != Ok(preds[i].idx)
    {
      CollectLastWins(pairs, ids[i]);
      if LastWith(pairs, ids[i]).None? {
        forall j | 0 <= j < |targets|
          ensures ParseInt(targets[j].idx) != Ok(preds[i].idx)
        {
          assert pairs[j].0 != ids[i];
        }
      } else {
        var j := LastWith(pairs, ids[i]).value;
        assert pairs[j].0 == ids[i];
      }
    }
  }

  /** The generated labels rename exactly when each is known. */
  lemma PredsRenamed(preds: seq<LidirusPrediction>)
    ensures RenameAll(PredTexts(preds)).Ok? <==> forall i :: 0 <= i < |preds| ==> LidirusRename(preds[i].text).Ok?
  {
    RenameAllMeaning(PredTexts(preds));
  }

  /** The gold idx all parse exactly when each does. */
  lemma TargetsParsed(targets: seq<LidirusTarget>)
    ensures ParsedTargets(targets).Ok? <==> forall j :: 0 <= j < |targets| ==> ParseInt(targets[j].idx).Ok?
  {
    ParsedTargetsMeaning(targets);
  }

  /** Once joined, the gold labels rename exactly when each matched one is known. */
  lemma GoldRenamed(preds: seq<LidirusPrediction>, targets: seq<LidirusTarget>)
    requires ParsedTargets(targets).Ok? && AllJoined(preds, targets)
    ensures Lookup(LidirusIds(preds), Collect(ParsedTargets(targets).value)).Ok?
    ensures RenameAll(TargetTexts(Lookup(LidirusIds(preds), Collect(ParsedTargets(targets).value)).value)).Ok? <==>
      forall i :: 0 <= i < |preds| ==> LidirusRename(GoldFor(preds, targets, i).value.text).Ok?
  {
    LidirusLookup(preds, targets);
    var found := Lookup(LidirusIds(preds), Collect(ParsedTargets(targets).value));
    RenameAllMeaning(TargetTexts(found.value));
    assert forall i :: 0 <= i < |preds| ==> found.value[i] == GoldFor(preds, targets, i).value;
  }

  /** An unknown generated label raises `KeyError` before anything else; then
      an empty prediction list fails in `one_hot` with `RuntimeError`; then an
      unparsable gold idx raises `ValueError`; then a prediction whose idx is no
      gold idx raises `KeyError`; then an unknown gold label raises `KeyError`. */
  lemma EvalLidirusErrors(preds: seq<LidirusPrediction>, targets: seq<LidirusTarget>)
    ensures (exists i :: 0 <= i < |preds| && LidirusRename(preds[i].text).Err?) ==>
      EvalLidirusBatch(preds, targets) == Err(KeyError)
    ensures preds == [] ==> EvalLidirusBatch(preds, targets) == Err(RuntimeError)
    ensures PredsUsable(preds) && (exists j :: 0 <= j < |targets| && ParseInt(targets[j].idx).Err?) ==>
      EvalLidirusBatch(preds, targets).Err? && EvalLidirusBatch(preds, targets).error.ValueError?
    ensures PredsUsable(preds) && (forall j :: 0 <= j < |targets| ==> ParseInt(targets[j].idx).Ok?) &&
            (exists i :: 0 <= i < |preds| && forall j :: 0 <= j < |targets| ==> ParseInt(targets[j].idx) != Ok(preds[i].idx)) ==>
      EvalLidirusBatch(preds, targets) == Err(KeyError)
    ensures PredsUsable(preds) && ParsedTargets(targets).Ok? && AllJoined(preds, targets) &&
            (exists i :: 0 <= i < |preds| && LidirusRename(GoldFor(preds, targets, i).value.text).Err?) ==>
      EvalLidirusBatch(preds, targets) == Err(KeyError)
  {
    PredsRenamed(preds);
    TargetsParsed(targets);
    if PredsUsable(preds) && ParsedTargets(targets).Ok? {
      if exists i :: 0 <= i < |preds| && forall j :: 0 <= j < |targets| ==> ParseInt(targets[j].idx) != Ok(preds[i].idx) {
        var i :| 0 <= i < |preds| && forall j :: 0 <= j < |targets| ==> ParseInt(targets[j].idx) != Ok(preds[i].idx);
        NoGold(preds, targets, i);
      }
      if AllJoined(preds, targets) {
        GoldRenamed(preds, targets);
      }
    }
  }

  /** A prediction whose idx no gold idx reads as fails the join with `KeyError`. */
  lemma NoGold(preds: seq<LidirusPrediction>, targets: seq<LidirusTarget>, i: nat)
    requires PredsUsable(preds) && ParsedTargets(targets).Ok? && i < |preds|
    requires forall j :: 0 <= j < |targets| ==> ParseInt(targets[j].idx) != Ok(preds[i].idx)
    ensures EvalLidirusBatch(preds, targets) == Err(KeyError)
  {
    PredsRenamed(preds);
    LidirusLookup(preds, targets);
    assert GoldFor(preds, targets, i).None?;
    var found := Lookup(LidirusIds(preds), Collect(ParsedTargets(targets).value));
    assert found.Err?;
    assert RenameAll(PredTexts(preds)).Ok?;
  }

  /** `eval_lidirus` reaches `update_metrics` exactly when none of the errors above occurs. */
  lemma EvalLidirusOk(preds: seq<LidirusPrediction>, targets: seq<LidirusTarget>)
    ensures EvalLidirusBatch(preds, targets).Ok? <==>
      PredsUsable(preds) && ParsedTargets(targets).Ok? && AllJoined(preds, targets) &&
      forall i :: 0 <= i < |preds| ==> LidirusRename(GoldFor(preds, targets, i).value.text).Ok?
  {
    PredsRenamed(preds);
    if PredsUsable(preds) && ParsedTargets(targets).Ok? {
      LidirusLookup(preds, targets);
      if AllJoined(preds, targets) {
        GoldRenamed(preds, targets);
      }
    }
  }

  /** On success prediction `i` is matched with the last gold record whose idx
      reads as its idx, both labels are renamed, and each tag's mask says
      whether that record carries the tag. */
  lemma EvalLidirusMatches(preds: seq<LidirusPrediction>, targets: seq<LidirusTarget>, i: nat)
    requires EvalLidirusBatch(preds, targets).Ok? && i < |preds|
    ensures ParsedTargets(targets).Ok?
    ensures LastWith(ParsedTargets(targets).value, preds[i].idx).Some?
    ensures
      var b := EvalLidirusBatch(preds, targets).value;
      var j := LastWith(ParsedTargets(targets).value, preds[i].idx).value;
      ParseInt(targets[j].idx) == Ok(preds[i].idx) &&
      |b.predicted| == |preds| && |b.expected| == |preds| && b.masks.Keys == AllTags(targets) &&
      LidirusRename(preds[i].text).Ok? && b.predicted[i] == LidirusRename(preds[i].text).value &&
      LidirusRename(targets[j].text).Ok? && b.expected[i] == LidirusRename(targets[j].text).value &&
      forall tag :: tag in b.masks ==> |b.masks[tag]| == |preds| && b.masks[tag][i] == (tag in Tags(targets[j]))
  {
    RenameAllMeaning(PredTexts(preds));
    ParsedTargetsMeaning(targets);
    var pairs := ParsedTargets(targets).value;
    var ids := LidirusIds(preds);
    LookupMeaning(ids, Collect(pairs));
    CollectLastWins(pairs, ids[i]);
    var ms := Lookup(ids, Collect(pairs)).value;
    RenameAllMeaning(TargetTexts(ms));
  }
}
