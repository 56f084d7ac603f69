/** The rwsd perplexity baseline: items sharing the same `text` form a group,
    and in each group only the least perplexing query (the earliest on a tie)
    is labelled `True`. */
module RsgRwsd {
  import opened Wrappers
  import opened Dicts
  import opened Ranking
  import opened RsgBatching
  import opened RsgPointwise

  datatype RwsdItem = RwsdItem(idx: int, text: string, span1: string, span2: string)

  /** What a batch carries for an item: its query and the text it is grouped by. */
  datatype RwsdPayload = RwsdPayload(query: string, span: string)

  function RwsdQuery(item: RwsdItem): string {
    item.text + " Имеется в виду, что " + item.span1 + " - " + item.span2
  }

  function RwsdPayloadOf(item: RwsdItem): RwsdPayload {
    RwsdPayload(RwsdQuery(item), item.text)
  }

  function RwsdIdx(item: RwsdItem): int {
    item.idx
  }

  /** `spans`: text -> (item position -> perplexity). */
  type Groups = Dict<string, Dict<nat, real>>

  function GroupOrEmpty(spans: Groups, span: string): Dict<nat, real> {
    var g := Get(spans, span);
    if g.Some? then g.value else []
  }

  /** `spans[span][item_idx] = ppl`, creating `spans[span]` first when it is missing. */
  function AddScore(spans: Groups, e: Entry<RwsdPayload>, ppl: string -> real): Groups {
    Put(spans, e.payload.span, Put(GroupOrEmpty(spans, e.payload.span), e.id, ppl(e.payload.query)))
  }

  function ScoreStep(ppl: string -> real): (Groups, Entry<RwsdPayload>) -> Groups {
    (spans, e) => AddScore(spans, e, ppl)
  }

  /** The groups after every entry was scored in order. */
  function Spans(entries: seq<Entry<RwsdPayload>>, ppl: string -> real): Groups {
    Fold([], entries, ScoreStep(ppl))
  }

  lemma SpansAppend(entries: seq<Entry<RwsdPayload>>, e: Entry<RwsdPayload>, ppl: string -> real)
    ensures Spans(entries + [e], ppl) == AddScore(Spans(entries, ppl), e, ppl)
  {
    FoldAppend([], entries, e, ScoreStep(ppl));
  }

  /** One step of the first loop: `if span not in spans: spans[span] = {}`, then
      `spans[span][item_idx] = ppl`. */
  method ScoreEntry(spans: Groups, e: Entry<RwsdPayload>, ppl: string -> real) returns (r: Groups)
    ensures r == AddScore(spans, e, ppl)
  {
    r := spans;
    var group := Get(r, e.payload.span);
    if group.None? {
      r := Put(r, e.payload.span, []);
      PutGet(spans, e.payload.span, [], e.payload.span);
      PutTwice(spans, e.payload.span, [], Put([], e.id, ppl(e.payload.query)));
    }
    r := Put(r, e.payload.span, Put(GroupOrEmpty(r, e.payload.span), e.id, ppl(e.payload.query)));
  }

  /** Entry `j` of a batch, scored into the groups of the entries before it. */
  method CollectEntry(spans: Groups, batch: seq<Entry<RwsdPayload>>, j: nat, ppl: string -> real, ghost done: seq<Entry<RwsdPayload>>)
    returns (r: Groups)
    requires j < |batch| && spans == Spans(done + batch[..j], ppl)
    ensures r == Spans(done + batch[..j + 1], ppl)
  {
    assert done + batch[..j + 1] == (done + batch[..j]) + [batch[j]];
    SpansAppend(done + batch[..j], batch[j], ppl);
    r := ScoreEntry(spans, batch[j], ppl);
  }

  method CollectBatch(spans: Groups, batch: seq<Entry<RwsdPayload>>, ppl: string -> real, ghost done: seq<Entry<RwsdPayload>>)
    returns (r: Groups)
    requires spans == Spans(done, ppl)
    ensures r == Spans(done + batch, ppl)
  {
    r := spans;
    var j := 0;
    assert done + batch[..0] == done;
    while j < |batch|
      invariant 0 <= j <= |batch|
      invariant r == Spans(done + batch[..j], ppl)
    {
      r := CollectEntry(r, batch, j, ppl, done);
      j := j + 1;
    }
    assert batch[..j] == batch;
  }

  /** The first loop of `rwsd_process_items`: score every entry of every batch into its group. */
  method CollectSpans(batches: seq<seq<Entry<RwsdPayload>>>, ppl: string -> real) returns (spans: Groups)
    ensures spans == Spans(Flatten(batches), ppl)
  {
    spans := [];
    var b := 0;
    while b < |batches|
      invariant 0 <= b <= |batches|
      invariant spans == Spans(Flatten(batches[..b]), ppl)
    {
      FlattenStep(batches, b);
      spans := CollectBatch(spans, batches[b], ppl, Flatten(batches[..b]));
      b := b + 1;
    }
    assert batches[..b] == batches;
  }

  /** `rwsd_decide_batch` on a group. */
  function Winners(group: Dict<nat, real>): seq<nat> {
    DecideOne(Keys(group), Values(group))
  }

  predicate KeysBelow(group: Dict<nat, real>, n: nat) {
    forall a :: 0 <= a < |group| ==> group[a].0 < n
  }

  /** The inner loop of the second pass: each member of a group is replaced by its answer. */
  function MarkGroup(rows: seq<Row<RwsdItem>>, group: Dict<nat, real>, top: seq<nat>): (r: seq<Row<RwsdItem>>)
    requires KeysBelow(group, |rows|)
    ensures |r| == |rows|
    decreases |group|
  {
    if group == [] then rows
    else
      var init := group[..|group| - 1];
      assert KeysBelow(init, |rows|);
      var before := MarkGroup(rows, init, top);
      var j := group[|group| - 1].0;
      before[j := Done(Answer(IdxOf(before[j], RwsdIdx), Bool(j in top)))]
  }

  predicate AllKeysBelow(spans: Groups, n: nat) {
    forall g :: 0 <= g < |spans| ==> KeysBelow(spans[g].1, n)
  }

  /** The second pass: every group in order, each against its own winners. */
  function Mark(rows: seq<Row<RwsdItem>>, spans: Groups): (r: seq<Row<RwsdItem>>)
    requires AllKeysBelow(spans, |rows|)
    ensures |r| == |rows|
    decreases |spans|
  {
    if spans == [] then rows
    else
      var g := spans[|spans| - 1].1;
      MarkGroup(Mark(rows, spans[..|spans| - 1]), g, Winners(g))
  }

  method MarkGroupRows(rows: array<Row<RwsdItem>>, group: Dict<nat, real>, top: seq<nat>)
    requires KeysBelow(group, rows.Length)
    modifies rows
    ensures rows[..] == MarkGroup(old(rows[..]), group, top)
  {
    var k := 0;
    while k < |group|
      invariant 0 <= k <= |group|
      invariant KeysBelow(group[..k], rows.Length)
      invariant rows[..] == MarkGroup(old(rows[..]), group[..k], top)
    {
      var j := group[k].0;
      assert group[..k + 1][..k] == group[..k];
      rows[j] := Done(Answer(IdxOf(rows[j], RwsdIdx), Bool(j in top)));
      k := k + 1;
    }
    assert group[..k] == group;
  }

  /** The second loop of `rwsd_process_items`: for each group, label its members by membership of the winners. */
  method MarkRows(rows: array<Row<RwsdItem>>, spans: Groups)
    requires AllKeysBelow(spans, rows.Length)
    modifies rows
    ensures rows[..] == Mark(old(rows[..]), spans)
  {
    var g := 0;
    while g < |spans|
      invariant 0 <= g <= |spans|
      invariant rows[..] == Mark(old(rows[..]), spans[..g])
    {
      assert spans[..g + 1][..g] == spans[..g];
      var group := spans[g].1;
      MarkGroupRows(rows, group, Winners(group));
      g := g + 1;
    }
    assert spans[..g] == spans;
  }

  // What the passes compute for enumerated items

  /** The members of the group of text `t` among the first `n` items, in order, with their perplexities. */
  function Group(items: seq<RwsdItem>, ppl: string -> real, t: string, n: nat): (g: Dict<nat, real>)
    requires n <= |items|
    ensures KeysBelow(g, n)
    decreases n
  {
    if n == 0 then []
    else Group(items, ppl, t, n - 1) + (if items[n - 1].text == t then [(n - 1, ppl(RwsdQuery(items[n - 1])))] else [])
  }

  lemma {:induction false} GroupMembers(items: seq<RwsdItem>, ppl: string -> real, t: string, n: nat)
    requires n <= |items|
    ensures forall a :: 0 <= a < |Group(items, ppl, t, n)| ==>
      items[Group(items, ppl, t, n)[a].0].text == t && Group(items, ppl, t, n)[a].1 == ppl(RwsdQuery(items[Group(items, ppl, t, n)[a].0]))
    ensures forall a, b :: 0 <= a < b < |Group(items, ppl, t, n)| ==> Group(items, ppl, t, n)[a].0 < Group(items, ppl, t, n)[b].0
    ensures forall j :: 0 <= j < n && items[j].text == t ==> exists a :: 0 <= a < |Group(items, ppl, t, n)| && Group(items, ppl, t, n)[a].0 == j
    decreases n
  {
    if n > 0 {
      GroupMembers(items, ppl, t, n - 1);
      var before := Group(items, ppl, t, n - 1);
      var g := Group(items, ppl, t, n);
      assert forall a :: 0 <= a < |before| ==> g[a] == before[a];
      if items[n - 1].text == t {
        assert g[|before|] == (n - 1, ppl(RwsdQuery(items[n - 1])));
      }
    }
  }

  lemma GroupDistinct(items: seq<RwsdItem>, ppl: string -> real, t: string, n: nat)
    requires n <= |items|
    ensures DistinctKeys(Group(items, ppl, t, n))
  {
    GroupMembers(items, ppl, t, n);
  }

  lemma {:induction false} GroupOfNone(items: seq<RwsdItem>, ppl: string -> real, t: string, n: nat)
    requires n <= |items|
    requires forall j :: 0 <= j < n ==> items[j].text != t
    ensures Group(items, ppl, t, n) == []
    decreases n
  {
    if n > 0 {
      GroupOfNone(items, ppl, t, n - 1);
    }
  }

  /** The groups `before` hold exactly the texts of the first `n` items, each with its group. */
  ghost predicate GroupsOf(items: seq<RwsdItem>, ppl: string -> real, n: nat, before: Groups)
    requires n <= |items|
  {
    DistinctKeys(before) &&
    (forall t :: Get(before, t).Some? <==> exists j :: 0 <= j < n && items[j].text == t) &&
    (forall t :: Get(before, t).Some? ==> Get(before, t).value == Group(items, ppl, t, n))
  }

  /** Scoring an entry adds it to the group of its text, after the members already there. */
  lemma AddScoreSame(before: Groups, e: Entry<RwsdPayload>, ppl: string -> real)
    requires e.id !in Keys(GroupOrEmpty(before, e.payload.span))
    ensures Get(AddScore(before, e, ppl), e.payload.span) == Some(GroupOrEmpty(before, e.payload.span) + [(e.id, ppl(e.payload.query))])
  {
    var group := GroupOrEmpty(before, e.payload.span);
    PutAbsent(group, e.id, ppl(e.payload.query));
    PutGet(before, e.payload.span, Put(group, e.id, ppl(e.payload.query)), e.payload.span);
  }

  /** Scoring an entry leaves the groups of the other texts alone. */
  lemma AddScoreOther(before: Groups, e: Entry<RwsdPayload>, ppl: string -> real, t: string)
    requires t != e.payload.span
    ensures Get(AddScore(before, e, ppl), t) == Get(before, t)
  {
    PutGet(before, e.payload.span, Put(GroupOrEmpty(before, e.payload.span), e.id, ppl(e.payload.query)), t);
  }

  /** The group found for the text of item `n - 1` among the first `n - 1` items. */
  lemma GroupBefore(items: seq<RwsdItem>, ppl: string -> real, n: nat, before: Groups)
    requires 0 < n <= |items| && GroupsOf(items, ppl, n - 1, before)
    ensures GroupOrEmpty(before, items[n - 1].text) == Group(items, ppl, items[n - 1].text, n - 1)
  {
    if Get(before, items[n - 1].text).None? {
      GroupOfNone(items, ppl, items[n - 1].text, n - 1);
    }
  }

  /** Scoring item `n - 1` into the groups of the first `n - 1` items, as seen from one text. */
  lemma AddScoreGet(items: seq<RwsdItem>, ppl: string -> real, n: nat, before: Groups, t: string)
    requires 0 < n <= |items| && GroupsOf(items, ppl, n - 1, before)
    ensures Get(AddScore(before, Entry(RwsdPayloadOf(items[n - 1]), n - 1), ppl), t).Some? <==> exists j :: 0 <= j < n && items[j].text == t
    ensures Get(AddScore(before, Entry(RwsdPayloadOf(items[n - 1]), n - 1), ppl), t).Some? ==>
      Get(AddScore(before, Entry(RwsdPayloadOf(items[n - 1]), n - 1), ppl), t).value == Group(items, ppl, t, n)
  {
    var e := Entry(RwsdPayloadOf(items[n - 1]), n - 1);
    assert e.payload.span == items[n - 1].text && e.id == n - 1;
    if t == items[n - 1].text {
      GroupBefore(items, ppl, n, before);
      assert e.id !in Keys(GroupOrEmpty(before, t)) by {
        assert KeysBelow(GroupOrEmpty(before, t), n - 1);
      }
      AddScoreSame(before, e, ppl);
      assert Group(items, ppl, t, n) == Group(items, ppl, t, n - 1) + [(n - 1, ppl(e.payload.query))];
    } else {
      AddScoreOther(before, e, ppl, t);
      assert Group(items, ppl, t, n) == Group(items, ppl, t, n - 1);
      assert (exists j :: 0 <= j < n && items[j].text == t) ==> exists j :: 0 <= j < n - 1 && items[j].text == t;
    }
  }

  /** Scoring item `n - 1` extends the groups of the first `n - 1` items to those of the first `n`. */
  lemma AddScoreGroups(items: seq<RwsdItem>, ppl: string -> real, n: nat, before: Groups)
    requires 0 < n <= |items| && GroupsOf(items, ppl, n - 1, before)
    ensures GroupsOf(items, ppl, n, AddScore(before, Entry(RwsdPayloadOf(items[n - 1]), n - 1), ppl))
  {
    var e := Entry(RwsdPayloadOf(items[n - 1]), n - 1);
    PutDistinct(before, e.payload.span, Put(GroupOrEmpty(before, e.payload.span), e.id, ppl(e.payload.query)));
    var after := AddScore(before, e, ppl);
    forall t ensures Get(after, t).Some? <==> exists j :: 0 <= j < n && items[j].text == t {
      AddScoreGet(items, ppl, n, before, t);
    }
    forall t | Get(after, t).Some? ensures Get(after, t).value == Group(items, ppl, t, n) {
      AddScoreGet(items, ppl, n, before, t);
    }
  }

  /** Scoring the first `n` enumerated items gives, for each text met so far, exactly its group. */
  lemma {:induction false} SpansPrefix(items: seq<RwsdItem>, ppl: string -> real, n: nat)
    requires n <= |items|
    ensures GroupsOf(items, ppl, n, Spans(Enumerate(items, RwsdPayloadOf)[..n], ppl))
    decreases n
  {
    var entries := Enumerate(items, RwsdPayloadOf);
    if n > 0 {
      SpansPrefix(items, ppl, n - 1);
      assert entries[..n] == entries[..n - 1] + [entries[n - 1]];
      SpansAppend(entries[..n - 1], entries[n - 1], ppl);
      AddScoreGroups(items, ppl, n, Spans(entries[..n - 1], ppl));
    }
  }

  lemma SpansEnumerated(items: seq<RwsdItem>, ppl: string -> real)
    ensures GroupsOf(items, ppl, |items|, Spans(Enumerate(items, RwsdPayloadOf), ppl))
  {
    SpansPrefix(items, ppl, |items|);
    assert Enumerate(items, RwsdPayloadOf)[..|items|] == Enumerate(items, RwsdPayloadOf);
  }

  /** Keys in strictly increasing order, as a group lists its members. */
  predicate Increasing(g: Dict<nat, real>) {
    forall a, b :: 0 <= a < b < |g| ==> g[a].0 < g[b].0
  }

  /** No member of `g` scores lower than the one at position `p`, and none before it the same. */
  predicate MinimalAt(g: Dict<nat, real>, p: nat)
    requires p < |g|
  {
    forall a :: 0 <= a < |g| ==> g[p].1 < g[a].1 || (g[p].1 == g[a].1 && p <= a)
  }

  /** The member at position `p` of a group wins exactly when no member scores lower and no
      earlier member scores the same. */
  lemma WinnerIsFirstMinimum(g: Dict<nat, real>, p: nat)
    requires p < |g| && Increasing(g)
    ensures |Winners(g)| == 1
    ensures Winners(g) == [g[p].0] <==> MinimalAt(g, p)
  {
    var keys, values := Keys(g), Values(g);
    TopKFirstIsMinimum(values, 1);
    var m := TopK(values, 1)[0];
    assert Winners(g) == [keys[m]];
    if m == p {
      forall a | 0 <= a < |g| ensures g[p].1 < g[a].1 || (g[p].1 == g[a].1 && p <= a) {
        assert values[p] <= values[a];
        if a < p {
          assert values[a] > values[p];
        }
      }
    } else {
      assert keys[m] != g[p].0 by {
        if m < p {
          assert g[m].0 < g[p].0;
        } else {
          assert g[p].0 < g[m].0;
        }
      }
    }
  }

  /** `g` lists, in order, exactly the items whose text is `t`, each with its perplexity. */
  ghost predicate ListsGroup(items: seq<RwsdItem>, ppl: string -> real, t: string, g: Dict<nat, real>) {
    Increasing(g) &&
    (forall a :: 0 <= a < |g| ==> g[a].0 < |items| && items[g[a].0].text == t && g[a].1 == ppl(RwsdQuery(items[g[a].0]))) &&
    (forall j :: 0 <= j < |items| && items[j].text == t ==> exists a :: 0 <= a < |g| && g[a].0 == j)
  }

  lemma GroupListsGroup(items: seq<RwsdItem>, ppl: string -> real, t: string)
    ensures ListsGroup(items, ppl, t, Group(items, ppl, t, |items|))
  {
    GroupMembers(items, ppl, t, |items|);
  }

  lemma MinimalFromWinner(items: seq<RwsdItem>, ppl: string -> real, i: nat, g: Dict<nat, real>, p: nat)
    requires i < |items| && ListsGroup(items, ppl, items[i].text, g) && p < |g| && g[p].0 == i
    requires IsGroupWinner(items, ppl, i)
    ensures MinimalAt(g, p)
  {
    forall a | 0 <= a < |g| ensures g[p].1 < g[a].1 || (g[p].1 == g[a].1 && p <= a) {
      var j := g[a].0;
      assert items[j].text == items[i].text;
      if a < p {
        assert j < i;
      }
    }
  }

  lemma WinnerFromMinimal(items: seq<RwsdItem>, ppl: string -> real, i: nat, g: Dict<nat, real>, p: nat)
    requires i < |items| && ListsGroup(items, ppl, items[i].text, g) && p < |g| && g[p].0 == i
    requires MinimalAt(g, p)
    ensures IsGroupWinner(items, ppl, i)
  {
    forall j | 0 <= j < |items| && items[j].text == items[i].text
      ensures ppl(RwsdQuery(items[i])) < ppl(RwsdQuery(items[j])) || (ppl(RwsdQuery(items[i])) == ppl(RwsdQuery(items[j])) && i <= j)
    {
      var a :| 0 <= a < |g| && g[a].0 == j;
      if p < a {
        assert i < j;
      }
    }
  }

  lemma WinnerIffMinimal(items: seq<RwsdItem>, ppl: string -> real, i: nat, g: Dict<nat, real>, p: nat)
    requires i < |items| && ListsGroup(items, ppl, items[i].text, g) && p < |g| && g[p].0 == i
    ensures IsGroupWinner(items, ppl, i) <==> MinimalAt(g, p)
  {
    if IsGroupWinner(items, ppl, i) {
      MinimalFromWinner(items, ppl, i, g, p);
    } else if MinimalAt(g, p) {
      WinnerFromMinimal(items, ppl, i, g, p);
    }
  }

  /** `rwsd_decide_batch` on a listed group picks exactly its least perplexing, earliest member. */
  lemma WinnersOfListedGroup(items: seq<RwsdItem>, ppl: string -> real, i: nat, g: Dict<nat, real>)
    requires i < |items| && ListsGroup(items, ppl, items[i].text, g)
    ensures |Winners(g)| == 1
    ensures i in Winners(g) <==> IsGroupWinner(items, ppl, i)
  {
    var p :| 0 <= p < |g| && g[p].0 == i;
    WinnerIsFirstMinimum(g, p);
    WinnerIffMinimal(items, ppl, i, g, p);
    SingletonHas(Winners(g), i);
  }

  lemma SingletonHas(s: seq<nat>, x: nat)
    requires |s| == 1
    ensures x in s <==> s == [x]
  {
    if x in s {
      assert s[0] == x;
    }
  }

  /** `rwsd_decide_batch` on the group of item `i` picks exactly its least perplexing, earliest member. */
  lemma WinnersOfGroup(items: seq<RwsdItem>, ppl: string -> real, i: nat)
    requires i < |items|
    ensures |Winners(Group(items, ppl, items[i].text, |items|))| == 1
    ensures i in Winners(Group(items, ppl, items[i].text, |items|)) <==> IsGroupWinner(items, ppl, i)
  {
    GroupListsGroup(items, ppl, items[i].text);
    WinnersOfListedGroup(items, ppl, i, Group(items, ppl, items[i].text, |items|));
  }

  /** Item `i` is the least perplexing of its group, the earliest one on a tie. */
  predicate IsGroupWinner(items: seq<RwsdItem>, ppl: string -> real, i: nat)
    requires i < |items|
  {
    forall j :: 0 <= j < |items| && items[j].text == items[i].text ==>
      ppl(RwsdQuery(items[i])) < ppl(RwsdQuery(items[j])) ||
      (ppl(RwsdQuery(items[i])) == ppl(RwsdQuery(items[j])) && i <= j)
  }

  /** The collected groups: distinct texts, each listing exactly its items, and every item's text among them. */
  ghost predicate GroupedBy(items: seq<RwsdItem>, ppl: string -> real, spans: Groups) {
    DistinctKeys(spans) &&
    (forall g :: 0 <= g < |spans| ==> ListsGroup(items, ppl, spans[g].0, spans[g].1)) &&
    (forall i :: 0 <= i < |items| ==> exists g :: 0 <= g < |spans| && spans[g].0 == items[i].text)
  }

  /** The groups keyed by text turn into the groups as the second pass walks them. */
  lemma SpansShape(items: seq<RwsdItem>, ppl: string -> real, spans: Groups)
    requires GroupsOf(items, ppl, |items|, spans)
    ensures GroupedBy(items, ppl, spans)
  {
    forall g | 0 <= g < |spans| ensures ListsGroup(items, ppl, spans[g].0, spans[g].1) {
      GetAt(spans, g);
      GroupListsGroup(items, ppl, spans[g].0);
    }
    forall i | 0 <= i < |items| ensures exists g :: 0 <= g < |spans| && spans[g].0 == items[i].text {
      assert Get(spans, items[i].text).Some?;
      GetKeys(spans, items[i].text);
      var g :| 0 <= g < |spans| && Keys(spans)[g] == items[i].text;
    }
  }

  lemma GroupedKeysBelow(items: seq<RwsdItem>, ppl: string -> real, spans: Groups, k: nat)
    requires k <= |spans| && GroupedBy(items, ppl, spans)
    ensures AllKeysBelow(spans[..k], |items|)
  {
  }

  /** Some of the first `k` groups is that of text `t`. */
  predicate Seen(spans: Groups, k: nat, t: string)
    requires k <= |spans|
  {
    exists g :: 0 <= g < k && spans[g].0 == t
  }

  /** The row of item `i` once the first `k` groups are marked. */
  ghost function Expected(items: seq<RwsdItem>, ppl: string -> real, spans: Groups, k: nat, i: nat): Row<RwsdItem>
    requires k <= |spans| && i < |items|
  {
    if Seen(spans, k, items[i].text) then Done(Answer(items[i].idx, Bool(IsGroupWinner(items, ppl, i)))) else Pending(items[i])
  }

  /** Marking group `k - 1` answers its members, which no earlier group held. */
  lemma MarkStepMember(items: seq<RwsdItem>, ppl: string -> real, spans: Groups, k: nat, i: nat, before: Row<RwsdItem>)
    requires 0 < k <= |spans| && i < |items| && GroupedBy(items, ppl, spans)
    requires items[i].text == spans[k - 1].0
    requires before == Expected(items, ppl, spans, k - 1, i)
    ensures i in Keys(spans[k - 1].1)
    ensures Done(Answer(IdxOf(before, RwsdIdx), Bool(i in Winners(spans[k - 1].1)))) == Expected(items, ppl, spans, k, i)
  {
    var t := spans[k - 1].0;
    var group := spans[k - 1].1;
    assert ListsGroup(items, ppl, t, group);
    assert !Seen(spans, k - 1, t) by {
      forall g | 0 <= g < k - 1 ensures spans[g].0 != t {
        assert Keys(spans)[g] != Keys(spans)[k - 1];
      }
    }
    var a :| 0 <= a < |group| && group[a].0 == i;
    assert Keys(group)[a] == i;
    WinnersOfListedGroup(items, ppl, i, group);
  }

  /** Marking group `k - 1` leaves the items of other texts alone. */
  lemma MarkStepOther(items: seq<RwsdItem>, ppl: string -> real, spans: Groups, k: nat, i: nat)
    requires 0 < k <= |spans| && i < |items| && GroupedBy(items, ppl, spans)
    requires items[i].text != spans[k - 1].0
    ensures i !in Keys(spans[k - 1].1)
    ensures Expected(items, ppl, spans, k - 1, i) == Expected(items, ppl, spans, k, i)
  {
    var t := spans[k - 1].0;
    var group := spans[k - 1].1;
    assert ListsGroup(items, ppl, t, group);
    forall a | 0 <= a < |group| ensures Keys(group)[a] != i {
      assert items[group[a].0].text == t;
    }
    assert Seen(spans, k, items[i].text) == Seen(spans, k - 1, items[i].text);
  }

  /** Marking group `k - 1` brings row `i` from its state after `k - 1` groups to that after `k`. */
  lemma MarkStepAt(items: seq<RwsdItem>, ppl: string -> real, spans: Groups, k: nat, i: nat, before: Row<RwsdItem>, after: Row<RwsdItem>)
    requires 0 < k <= |spans| && i < |items| && GroupedBy(items, ppl, spans)
    requires before == Expected(items, ppl, spans, k - 1, i)
    requires after == if i in Keys(spans[k - 1].1) then Done(Answer(IdxOf(before, RwsdIdx), Bool(i in Winners(spans[k - 1].1)))) else before
    ensures after == Expected(items, ppl, spans, k, i)
  {
    if items[i].text == spans[k - 1].0 {
      MarkStepMember(items, ppl, spans, k, i, before);
    } else {
      MarkStepOther(items, ppl, spans, k, i);
    }
  }

  /** After the first `k` groups, the members of those groups are answered and every other item is still pending. */
  lemma {:induction false} MarkPrefix(items: seq<RwsdItem>, ppl: string -> real, spans: Groups, k: nat)
    requires k <= |spans| && GroupedBy(items, ppl, spans)
    ensures AllKeysBelow(spans[..k], |items|)
    ensures forall i :: 0 <= i < |items| ==> Mark(Pendings(items), spans[..k])[i] == Expected(items, ppl, spans, k, i)
    decreases k
  {
    GroupedKeysBelow(items, ppl, spans, k);
    if k > 0 {
      MarkPrefix(items, ppl, spans, k - 1);
      assert spans[..k][..k - 1] == spans[..k - 1];
      var group := spans[k - 1].1;
      var before := Mark(Pendings(items), spans[..k - 1]);
      assert Increasing(group);
      MarkGroupEffect(before, group, Winners(group));
      forall i | 0 <= i < |items| ensures Mark(Pendings(items), spans[..k])[i] == Expected(items, ppl, spans, k, i) {
        MarkStepAt(items, ppl, spans, k, i, before[i], Mark(Pendings(items), spans[..k])[i]);
      }
    } else {
      forall i | 0 <= i < |items| ensures Mark(Pendings(items), spans[..k])[i] == Expected(items, ppl, spans, k, i) {
        assert !Seen(spans, 0, items[i].text);
      }
    }
  }

  /** The second pass over the collected groups answers every item by whether it wins its group. */
  lemma MarkAll(items: seq<RwsdItem>, ppl: string -> real, spans: Groups)
    requires GroupsOf(items, ppl, |items|, spans)
    ensures AllKeysBelow(spans, |items|)
    ensures forall i :: 0 <= i < |items| ==> Mark(Pendings(items), spans)[i] == Done(Answer(items[i].idx, Bool(IsGroupWinner(items, ppl, i))))
  {
    SpansShape(items, ppl, spans);
    MarkPrefix(items, ppl, spans, |spans|);
    assert spans[..|spans|] == spans;
    forall i | 0 <= i < |items| ensures Mark(Pendings(items), spans)[i] == Done(Answer(items[i].idx, Bool(IsGroupWinner(items, ppl, i)))) {
      assert Seen(spans, |spans|, items[i].text);
    }
  }

  /** `rwsd_get_answer`: every item is answered `True` exactly when it is the least perplexing
      of the items sharing its text, the earliest on a tie. */
  method RwsdGetAnswer(items: seq<RwsdItem>, batchSize: int, ppl: string -> real) returns (r: seq<Row<RwsdItem>>)
    ensures |r| == |items|
    ensures forall i :: 0 <= i < |items| ==> r[i] == Done(Answer(items[i].idx, Bool(IsGroupWinner(items, ppl, i))))
  {
    var batches := GetItems(items, batchSize, RwsdPayloadOf);
    var spans := CollectSpans(batches, ppl);
    SpansEnumerated(items, ppl);
    MarkAll(items, ppl, spans);
    var rows := new Row<RwsdItem>[|items|](i requires 0 <= i < |items| => Pending(items[i]));
    assert rows[..] == Pendings(items);
    MarkRows(rows, spans);
    r := rows[..];
  }

  /** Marking a group with distinct members answers exactly those members. */
  lemma {:induction false} MarkGroupEffect(rows: seq<Row<RwsdItem>>, group: Dict<nat, real>, top: seq<nat>)
    requires KeysBelow(group, |rows|) && Increasing(group)
    ensures forall j :: 0 <= j < |rows| ==>
      MarkGroup(rows, group, top)[j] == if j in Keys(group) then Done(Answer(IdxOf(rows[j], RwsdIdx), Bool(j in top))) else rows[j]
    decreases |group|
  {
    if group != [] {
      var init := group[..|group| - 1];
      MarkGroupEffect(rows, init, top);
      var last := group[|group| - 1].0;
      assert Keys(group) == Keys(init) + [last];
      assert last !in Keys(init) by {
        forall a | 0 <= a < |init| ensures Keys(init)[a] != last {
          assert init[a] == group[a];
        }
      }
    }
  }
}
