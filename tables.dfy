/** The two-level perplexity tables of the muserc and rucos baselines: a dict
    from a question or passage id to a dict from a candidate answer to its
    perplexity, filled by `table[key][candidate] = value` assignments. */
module Tables {
  import opened Dicts
  import opened RsgBatching
  import opened Ranking

  type Table<K, A> = Dict<K, Dict<A, real>>

  /** One assignment `table[key][cand] = value`. */
  datatype Score<K, A> = Score(key: K, cand: A, value: real)

  /** `table[key]`, where the modelled code only ever reads keys it has created. */
  function Inner<K(==), A>(t: Table<K, A>, k: K): Dict<A, real> {
    var g := Get(t, k);
    if g.Some? then g.value else []
  }

  function Assign<K(==), A(==)>(t: Table<K, A>, s: Score<K, A>): Table<K, A> {
    Put(t, s.key, Put(Inner(t, s.key), s.cand, s.value))
  }

  /** The table after each assignment in turn. */
  function AssignAll<K(==), A(==)>(t: Table<K, A>, scores: seq<Score<K, A>>): Table<K, A>
    decreases |scores|
  {
    if scores == [] then t else Assign(AssignAll(t, scores[..|scores| - 1]), scores[|scores| - 1])
  }

  /** The inner dict after `d[cand] = value` for each score in turn. */
  function PutScores<K, A(==)>(d: Dict<A, real>, scores: seq<Score<K, A>>): Dict<A, real>
    decreases |scores|
  {
    if scores == [] then d
    else
      var s := scores[|scores| - 1];
      Put(PutScores(d, scores[..|scores| - 1]), s.cand, s.value)
  }

  /** `table[key] = {}`, then `table[key][cand] = 0` for each candidate. */
  function Open<K(==), A(==)>(t: Table<K, A>, k: K, zeros: seq<Score<K, A>>): Table<K, A> {
    AssignAll(Put(t, k, []), zeros)
  }

  /** Each batch entry turned into the assignment it makes. */
  function Scores<P, K, A>(entries: seq<P>, score: P -> Score<K, A>): (r: seq<Score<K, A>>)
    ensures |r| == |entries|
    ensures forall j :: 0 <= j < |r| ==> r[j] == score(entries[j])
  {
    seq(|entries|, j requires 0 <= j < |entries| => score(entries[j]))
  }

  lemma ScoresConcat<P, K, A>(a: seq<P>, b: seq<P>, score: P -> Score<K, A>)
    ensures Scores(a + b, score) == Scores(a, score) + Scores(b, score)
  {
  }

  /** `rucos_decide_batch` and `muserc_decide_batch` on an inner dict. */
  function Top<A>(d: Dict<A, real>): seq<A> {
    DecideBatch(Keys(d), Values(d))
  }

  /** Every key in turn opened with its block of zero scores. */
  function OpenAll<K(==), A(==)>(keys: seq<K>, blocks: seq<seq<Score<K, A>>>): Table<K, A>
    requires |keys| == |blocks|
    decreases |keys|
  {
    if keys == [] then []
    else
      var n := |keys| - 1;
      Open(OpenAll(keys[..n], blocks[..n]), keys[n], blocks[n])
  }

  /** Block `q` only assigns under key `keys[q]`. */
  ghost predicate KeyedBy<K, A>(blocks: seq<seq<Score<K, A>>>, keys: seq<K>)
    requires |blocks| == |keys|
  {
    forall q, j :: 0 <= q < |blocks| && 0 <= j < |blocks[q]| ==> blocks[q][j].key == keys[q]
  }

  lemma AssignAllConcat<K, A>(t: Table<K, A>, a: seq<Score<K, A>>, b: seq<Score<K, A>>)
    ensures AssignAll(t, a + b) == AssignAll(AssignAll(t, a), b)
    decreases |b|
  {
    if b == [] {
      assert a + b == a;
    } else {
      var n := |b| - 1;
      assert (a + b)[..|a + b| - 1] == a + b[..n];
      AssignAllConcat(t, a, b[..n]);
    }
  }

  /** Assignments under a key that sits at position `p` of a table with distinct
      keys change that entry's inner dict and nothing else. */
  lemma {:induction false} AssignBlock<K, A>(t: Table<K, A>, p: nat, scores: seq<Score<K, A>>)
    requires DistinctKeys(t) && p < |t|
    requires forall j :: 0 <= j < |scores| ==> scores[j].key == t[p].0
    ensures AssignAll(t, scores) == t[p := (t[p].0, PutScores(t[p].1, scores))]
    decreases |scores|
  {
    var k := t[p].0;
    if scores == [] {
      assert t[p := (k, t[p].1)] == t;
    } else {
      var n := |scores| - 1;
      var s := scores[n];
      AssignBlock(t, p, scores[..n]);
      var x := PutScores(t[p].1, scores[..n]);
      var mid := t[p := (k, x)];
      assert Keys(mid) == Keys(t);
      assert mid[p].0 == k;
      GetAt(mid, p);
      PutAt(mid, p, Put(x, s.cand, s.value));
      assert mid[p := (k, Put(x, s.cand, s.value))] == t[p := (k, Put(x, s.cand, s.value))];
    }
  }

  /** The first `p` keys opened, each with its block applied to an empty dict. */
  function Opened<K, A(==)>(keys: seq<K>, blocks: seq<seq<Score<K, A>>>, p: nat): (r: Table<K, A>)
    requires |keys| == |blocks| && p <= |keys|
    ensures |r| == p
    ensures forall q :: 0 <= q < p ==> r[q] == (keys[q], PutScores([], blocks[q]))
  {
    seq(p, q requires 0 <= q < p => (keys[q], PutScores([], blocks[q])))
  }

  lemma OpenStep<K, A>(keys: seq<K>, blocks: seq<seq<Score<K, A>>>, p: nat)
    requires |keys| == |blocks| && p < |keys| && Distinct(keys) && KeyedBy(blocks, keys)
    ensures Open(Opened(keys, blocks, p), keys[p], blocks[p]) == Opened(keys, blocks, p + 1)
  {
    var before := Opened(keys, blocks, p);
    var k := keys[p];
    assert Keys(before) == keys[..p];
    assert k !in Keys(before) by {
      forall q | 0 <= q < p ensures keys[q] != k {
      }
    }
    PutAbsent(before, k, []);
    var t := before + [(k, [])];
    assert DistinctKeys(t) by {
      assert Keys(t) == keys[..p + 1];
    }
    AssignBlock(t, p, blocks[p]);
    assert t[p := (k, PutScores([], blocks[p]))] == Opened(keys, blocks, p + 1);
  }

  /** With distinct keys, opening every key yields one entry per key, in order,
      holding its block applied to an empty dict. */
  lemma {:induction false} OpenAllShape<K, A>(keys: seq<K>, blocks: seq<seq<Score<K, A>>>)
    requires |keys| == |blocks| && Distinct(keys) && KeyedBy(blocks, keys)
    ensures OpenAll(keys, blocks) == Opened(keys, blocks, |keys|)
    decreases |keys|
  {
    if keys != [] {
      var n := |keys| - 1;
      var k0: seq<K> := keys[..n];
      var b0: seq<seq<Score<K, A>>> := blocks[..n];
      assert Distinct(k0) by {
        forall a, b | 0 <= a < b < n ensures k0[a] != k0[b] {
          assert keys[a] != keys[b];
        }
      }
      assert KeyedBy(b0, k0) by {
        forall q: int, j: int | 0 <= q < n && 0 <= j < |b0[q]| ensures b0[q][j].key == k0[q] {
          assert b0[q] == blocks[q];
        }
      }
      OpenAllShape(k0, b0);
      assert Opened(k0, b0, n) == Opened(keys, blocks, n);
      OpenStep(keys, blocks, n);
    }
  }

  /** The entries of `t` before position `m` with their blocks applied, the rest as they were. */
  function Applied<K, A(==)>(t: Table<K, A>, blocks: seq<seq<Score<K, A>>>, m: nat): (r: Table<K, A>)
    requires |blocks| == |t| && m <= |t|
    ensures |r| == |t|
    ensures forall q :: 0 <= q < |t| ==> r[q] == if q < m then (t[q].0, PutScores(t[q].1, blocks[q])) else t[q]
  {
    seq(|t|, q requires 0 <= q < |t| => if q < m then (t[q].0, PutScores(t[q].1, blocks[q])) else t[q])
  }

  lemma AppliedKeys<K, A>(t: Table<K, A>, blocks: seq<seq<Score<K, A>>>, m: nat)
    requires |blocks| == |t| && m <= |t|
    ensures Keys(Applied(t, blocks, m)) == Keys(t)
  {
    var r := Applied(t, blocks, m);
    forall q | 0 <= q < |t| ensures Keys(r)[q] == Keys(t)[q] {
      assert r[q].0 == t[q].0;
    }
  }

  lemma BlockKeys<K, A>(blocks: seq<seq<Score<K, A>>>, keys: seq<K>, m: nat)
    requires |blocks| == |keys| && m < |keys| && KeyedBy(blocks, keys)
    ensures forall j :: 0 <= j < |blocks[m]| ==> blocks[m][j].key == keys[m]
  {
  }

  lemma ApplyStep<K, A>(t: Table<K, A>, blocks: seq<seq<Score<K, A>>>, m: nat)
    requires |blocks| == |t| && m < |t| && DistinctKeys(t) && KeyedBy(blocks, Keys(t))
    ensures AssignAll(Applied(t, blocks, m), blocks[m]) == Applied(t, blocks, m + 1)
  {
    var before := Applied(t, blocks, m);
    AppliedKeys(t, blocks, m);
    BlockKeys(blocks, Keys(t), m);
    AssignBlock(before, m, blocks[m]);
    UpdateApplied(t, blocks, m);
  }

  lemma UpdateApplied<K, A>(t: Table<K, A>, blocks: seq<seq<Score<K, A>>>, m: nat)
    requires |blocks| == |t| && m < |t|
    ensures Applied(t, blocks, m)[m := (t[m].0, PutScores(t[m].1, blocks[m]))] == Applied(t, blocks, m + 1)
  {
    var updated := Applied(t, blocks, m)[m := (t[m].0, PutScores(t[m].1, blocks[m]))];
    var after := Applied(t, blocks, m + 1);
    forall q | 0 <= q < |t| ensures updated[q] == after[q] {
    }
  }

  /** Scoring blocks that each address one key of a table with distinct keys, in
      key order, applies each block to its own entry. */
  lemma {:induction false} AssignBlocks<K, A>(t: Table<K, A>, blocks: seq<seq<Score<K, A>>>, m: nat)
    requires |blocks| == |t| && m <= |t| && DistinctKeys(t) && KeyedBy(blocks, Keys(t))
    ensures AssignAll(t, Flatten(blocks[..m])) == Applied(t, blocks, m)
  {
    if m == 0 {
      assert Applied(t, blocks, 0) == t;
    } else {
      AssignBlocks(t, blocks, m - 1);
      FlattenStep(blocks, m - 1);
      AssignAllConcat(t, Flatten(blocks[..m - 1]), blocks[m - 1]);
      ApplyStep(t, blocks, m - 1);
    }
  }

  // Inner dicts keyed by candidates that may repeat

  function Cands<K, A>(scores: seq<Score<K, A>>): (r: seq<A>)
    ensures |r| == |scores|
    ensures forall j :: 0 <= j < |scores| ==> r[j] == scores[j].cand
  {
    seq(|scores|, j requires 0 <= j < |scores| => scores[j].cand)
  }

  lemma CandsLast<K, A>(scores: seq<Score<K, A>>)
    requires scores != []
    ensures Cands(scores) == Cands(scores[..|scores| - 1]) + [scores[|scores| - 1].cand]
  {
    var n := |scores| - 1;
    var r := Cands(scores[..n]) + [scores[n].cand];
    forall j | 0 <= j < |scores| ensures Cands(scores)[j] == r[j] {
    }
  }

  /** The distinct elements of `s` in order of first occurrence. */
  function Dedup<A(==)>(s: seq<A>): seq<A>
    decreases |s|
  {
    if s == [] then []
    else
      var n := |s| - 1;
      var d := Dedup(s[..n]);
      if s[n] in s[..n] then d else d + [s[n]]
  }

  /** `Dedup` keeps exactly the elements of `s`, each once. */
  lemma {:induction false} DedupMembers<A>(s: seq<A>, x: A)
    ensures x in Dedup(s) <==> x in s
    ensures Distinct(Dedup(s))
    decreases |s|
  {
    if s != [] {
      var n := |s| - 1;
      assert s == s[..n] + [s[n]];
      DedupMembers(s[..n], x);
      DedupMembers(s[..n], s[n]);
    }
  }

  /** Assigning zero (or any value) to each candidate from an empty dict lists
      each distinct candidate once, in order of first occurrence. */
  lemma {:induction false} PutScoresKeys<K, A>(scores: seq<Score<K, A>>)
    ensures Keys(PutScores([], scores)) == Dedup(Cands(scores))
    decreases |scores|
  {
    if scores != [] {
      var n := |scores| - 1;
      var s := scores[n];
      PutScoresKeys(scores[..n]);
      assert Cands(scores)[..n] == Cands(scores[..n]);
      DedupMembers(Cands(scores[..n]), s.cand);
      PutKeys(PutScores([], scores[..n]), s.cand, s.value);
    }
  }

  function Map<A>(f: A -> real, s: seq<A>): (r: seq<real>)
    ensures |r| == |s|
    ensures forall i :: 0 <= i < |s| ==> r[i] == f(s[i])
  {
    seq(|s|, i requires 0 <= i < |s| => f(s[i]))
  }

  /** The positions of `d` whose key is among `done` hold `f` of their key. */
  ghost predicate ScoredOn<A>(d: Dict<A, real>, f: A -> real, done: seq<A>) {
    forall i :: 0 <= i < |d| && d[i].0 in done ==> d[i].1 == f(d[i].0)
  }

  /** Re-assigning candidates that are already keys keeps the keys in place and
      leaves every re-assigned key holding its new value. */
  lemma {:induction false} Rescore<K, A>(d: Dict<A, real>, scores: seq<Score<K, A>>, f: A -> real)
    requires DistinctKeys(d)
    requires forall j :: 0 <= j < |scores| ==> scores[j].cand in Keys(d) && scores[j].value == f(scores[j].cand)
    ensures Keys(PutScores(d, scores)) == Keys(d)
    ensures ScoredOn(PutScores(d, scores), f, Cands(scores))
    decreases |scores|
  {
    if scores != [] {
      var n := |scores| - 1;
      var s := scores[n];
      Rescore(d, scores[..n], f);
      var before := PutScores(d, scores[..n]);
      assert s.cand in Keys(before);
      var i0 :| 0 <= i0 < |before| && Keys(before)[i0] == s.cand;
      CandsLast(scores);
      RescoreStep(before, i0, s.value, f, Cands(scores[..n]));
    }
  }

  lemma RescoreStep<A>(d: Dict<A, real>, i0: nat, v: real, f: A -> real, done: seq<A>)
    requires DistinctKeys(d) && i0 < |d| && ScoredOn(d, f, done) && v == f(d[i0].0)
    ensures Keys(Put(d, d[i0].0, v)) == Keys(d)
    ensures ScoredOn(Put(d, d[i0].0, v), f, done + [d[i0].0])
  {
    PutAt(d, i0, v);
    var after := d[i0 := (d[i0].0, v)];
    forall i | 0 <= i < |after| && after[i].0 in done + [d[i0].0] ensures after[i].1 == f(after[i].0) {
      if i != i0 {
        assert Keys(d)[i] != Keys(d)[i0];
      }
    }
    assert Keys(after) == Keys(d) by {
      forall i | 0 <= i < |after| ensures Keys(after)[i] == Keys(d)[i] {
      }
    }
  }

  /** Among distinct candidates in order of first occurrence, the first minimum
      of `f` is the candidate at the first minimum of `f` over all of them. */
  lemma {:induction false} DedupArgMin<A>(s: seq<A>, f: A -> real)
    requires s != []
    ensures Dedup(s) != []
    ensures Dedup(s)[ArgMin(Map(f, Dedup(s)))] == s[ArgMin(Map(f, s))]
    decreases |s|
  {
    var n := |s| - 1;
    var x := s[n];
    DedupMembers(s, x);
    if n > 0 {
      DedupArgMin(s[..n], f);
      DedupMembers(s[..n], x);
      if x in s[..n] {
        ArgMinRepeated(s, f);
      } else {
        ArgMinFresh(s, f);
      }
    }
  }

  /** The step of `DedupArgMin` for a last element seen before: it is never a
      strict new minimum, and `Dedup` drops it. */
  lemma ArgMinRepeated<A>(s: seq<A>, f: A -> real)
    requires |s| > 1 && s[|s| - 1] in s[..|s| - 1] && Dedup(s[..|s| - 1]) != []
    requires Dedup(s[..|s| - 1])[ArgMin(Map(f, Dedup(s[..|s| - 1])))] == s[ArgMin(Map(f, s[..|s| - 1]))]
    ensures Dedup(s) != [] && Dedup(s)[ArgMin(Map(f, Dedup(s)))] == s[ArgMin(Map(f, s))]
  {
    var init, x := s[..|s| - 1], s[|s| - 1];
    assert Dedup(s) == Dedup(init);
    var j :| 0 <= j < |init| && init[j] == x;
    assert Map(f, init)[j] == f(x);
    ArgMinMap(f, s);
  }

  /** The step of `DedupArgMin` for a new last element: `Dedup` keeps it last,
      and it is the minimum of both exactly when it is below the old one. */
  lemma ArgMinFresh<A>(s: seq<A>, f: A -> real)
    requires |s| > 1 && s[|s| - 1] !in s[..|s| - 1] && Dedup(s[..|s| - 1]) != []
    requires Dedup(s[..|s| - 1])[ArgMin(Map(f, Dedup(s[..|s| - 1])))] == s[ArgMin(Map(f, s[..|s| - 1]))]
    ensures Dedup(s) != [] && Dedup(s)[ArgMin(Map(f, Dedup(s)))] == s[ArgMin(Map(f, s))]
  {
    var init, x := s[..|s| - 1], s[|s| - 1];
    var d := Dedup(init);
    var t := Dedup(s);
    assert t == d + [x];
    assert t[..|t| - 1] == d && t[|t| - 1] == x;
    var mi := ArgMin(Map(f, init));
    var md := ArgMin(Map(f, d));
    assert Map(f, d)[md] == Map(f, init)[mi];
    ArgMinMap(f, s);
    ArgMinMap(f, t);
  }

  /** `ArgMin` of `Map` over a sequence, from the one without its last element. */
  lemma ArgMinMap<A>(f: A -> real, t: seq<A>)
    requires |t| > 1
    ensures var init := t[..|t| - 1];
      ArgMin(Map(f, t)) ==
        if f(t[|t| - 1]) < Map(f, init)[ArgMin(Map(f, init))] then |t| - 1 else ArgMin(Map(f, init))
  {
    assert Map(f, t)[..|t| - 1] == Map(f, t[..|t| - 1]);
  }

  // Inner dicts keyed by distinct candidates

  /** The pairs `(cand, value)` of the assignments, in order. */
  function ScorePairs<K, A>(scores: seq<Score<K, A>>): (r: Dict<A, real>)
    ensures |r| == |scores|
    ensures forall j :: 0 <= j < |scores| ==> r[j] == (scores[j].cand, scores[j].value)
  {
    seq(|scores|, j requires 0 <= j < |scores| => (scores[j].cand, scores[j].value))
  }

  /** With distinct candidates, assigning into an empty dict lists every
      assignment once, in order. */
  lemma {:induction false} FreshScores<K, A>(scores: seq<Score<K, A>>)
    requires Distinct(Cands(scores))
    ensures PutScores([], scores) == ScorePairs(scores)
    decreases |scores|
  {
    if scores != [] {
      var n := |scores| - 1;
      var init := scores[..n];
      FreshInit(scores);
      FreshScores(init);
      PutAbsent(ScorePairs(init), scores[n].cand, scores[n].value);
      ScorePairsSnoc(scores);
      PutScoresLast([], scores, n);
      assert scores[..n + 1] == scores;
    }
  }

  /** Distinct candidates stay distinct without the last one, which then is new. */
  lemma FreshInit<K, A>(scores: seq<Score<K, A>>)
    requires scores != [] && Distinct(Cands(scores))
    ensures Distinct(Cands(scores[..|scores| - 1]))
    ensures scores[|scores| - 1].cand !in Keys(ScorePairs(scores[..|scores| - 1]))
  {
    var n := |scores| - 1;
    var init := scores[..n];
    forall a, b | 0 <= a < b < n ensures Cands(init)[a] != Cands(init)[b] {
      assert Cands(scores)[a] != Cands(scores)[b];
    }
    var d := ScorePairs(init);
    forall a | 0 <= a < n ensures Keys(d)[a] != scores[n].cand {
      assert Cands(scores)[a] != Cands(scores)[n];
    }
  }

  lemma ScorePairsSnoc<K, A>(scores: seq<Score<K, A>>)
    requires scores != []
    ensures ScorePairs(scores[..|scores| - 1]) + [(scores[|scores| - 1].cand, scores[|scores| - 1].value)] == ScorePairs(scores)
  {
  }

  /** The first `m` pairs of `d` carrying the values of the first `m` assignments. */
  function Rescored<K, A>(d: Dict<A, real>, scores: seq<Score<K, A>>, m: nat): (r: Dict<A, real>)
    requires |d| == |scores| && m <= |d|
    ensures |r| == |d|
    ensures forall i :: 0 <= i < |d| ==> r[i] == if i < m then (scores[i].cand, scores[i].value) else d[i]
  {
    seq(|d|, i requires 0 <= i < |d| => if i < m then (scores[i].cand, scores[i].value) else d[i])
  }

  lemma RescoredKeys<K, A>(d: Dict<A, real>, scores: seq<Score<K, A>>, m: nat)
    requires |d| == |scores| && m <= |d| && Keys(d) == Cands(scores)
    ensures Keys(Rescored(d, scores, m)) == Keys(d)
  {
    var r := Rescored(d, scores, m);
    forall i | 0 <= i < |d| ensures Keys(r)[i] == Keys(d)[i] {
      assert Keys(d)[i] == Cands(scores)[i];
    }
  }

  lemma {:induction false} RescoredPrefix<K, A>(d: Dict<A, real>, scores: seq<Score<K, A>>, m: nat)
    requires DistinctKeys(d) && Keys(d) == Cands(scores) && m <= |d|
    ensures PutScores(d, scores[..m]) == Rescored(d, scores, m)
  {
    if m == 0 {
      assert scores[..0] == [];
      RescoredNone(d, scores);
    } else {
      var n := m - 1;
      RescoredPrefix(d, scores, n);
      PutScoresLast(d, scores, n);
      RescoredStep(d, scores, n);
    }
  }

  lemma PutScoresLast<K, A>(d: Dict<A, real>, scores: seq<Score<K, A>>, n: nat)
    requires n < |scores|
    ensures PutScores(d, scores[..n + 1]) == Put(PutScores(d, scores[..n]), scores[n].cand, scores[n].value)
  {
    assert scores[..n + 1][..n] == scores[..n] && scores[..n + 1][n] == scores[n];
  }

  lemma RescoredNone<K, A>(d: Dict<A, real>, scores: seq<Score<K, A>>)
    requires |d| == |scores|
    ensures Rescored(d, scores, 0) == d
  {
    var r := Rescored(d, scores, 0);
    assert forall i | 0 <= i < |d| :: r[i] == d[i];
  }

  /** Assigning the next key moves the rescored prefix on by one. */
  lemma {:induction false} RescoredStep<K, A>(d: Dict<A, real>, scores: seq<Score<K, A>>, n: nat)
    requires DistinctKeys(d) && Keys(d) == Cands(scores) && n < |d|
    ensures Put(Rescored(d, scores, n), scores[n].cand, scores[n].value) == Rescored(d, scores, n + 1)
  {
    var mid := Rescored(d, scores, n);
    RescoredKeys(d, scores, n);
    assert mid[n].0 == scores[n].cand by {
      assert Keys(d)[n] == Cands(scores)[n];
    }
    PutAt(mid, n, scores[n].value);
    var after := Rescored(d, scores, n + 1);
    forall i | 0 <= i < |d| ensures mid[n := (scores[n].cand, scores[n].value)][i] == after[i] {
    }
  }

  /** Re-assigning every key of a dict with distinct keys, in key order,
      leaves exactly the new pairs. */
  lemma RescorePairs<K, A>(d: Dict<A, real>, scores: seq<Score<K, A>>)
    requires DistinctKeys(d) && Keys(d) == Cands(scores)
    ensures PutScores(d, scores) == ScorePairs(scores)
  {
    RescoredPrefix(d, scores, |d|);
    assert scores[..|d|] == scores;
  }

  /** With distinct keys, a key is selected exactly when its position is. */
  lemma TopKeysMember<K>(keys: seq<K>, scores: seq<real>, k: nat, j: nat)
    requires |keys| == |scores| && Distinct(keys) && j < |keys|
    ensures keys[j] in TopKeys(keys, scores, k) <==> j in TopK(scores, k)
  {
    var top := TopK(scores, k);
    var r := TopKeys(keys, scores, k);
    if keys[j] in r {
      var a :| 0 <= a < |r| && r[a] == keys[j];
      assert top[a] < |keys|;
      assert keys[top[a]] == keys[j];
      assert top[a] == j;
    }
    if j in top {
      var a :| 0 <= a < |top| && top[a] == j;
      assert r[a] == keys[j];
    }
  }

  // The scoring loop shared by `muserc_process_item` and `rucos_process_items`

  /** Entry `j` of a batch: `table[key][cand] = perplexity`. */
  method ScoreEntry<P, K(==), A(==)>(table: Table<K, A>, batch: seq<P>, j: nat, score: P -> Score<K, A>,
                             ghost start: Table<K, A>, ghost done: seq<P>)
    returns (r: Table<K, A>)
    requires j < |batch| && table == AssignAll(start, Scores(done + batch[..j], score))
    ensures r == AssignAll(start, Scores(done + batch[..j + 1], score))
  {
    var s := score(batch[j]);
    r := Put(table, s.key, Put(Inner(table, s.key), s.cand, s.value));
    assert done + batch[..j + 1] == (done + batch[..j]) + [batch[j]];
    ScoresConcat(done + batch[..j], [batch[j]], score);
    var all := Scores(done + batch[..j + 1], score);
    assert all[..|all| - 1] == Scores(done + batch[..j], score);
  }

  /** The first loop of the processing step: every entry of every batch, in order,
      assigns its perplexity into the table. */
  method ScoreBatches<P, K(==), A(==)>(batches: seq<seq<P>>, table: Table<K, A>, score: P -> Score<K, A>)
    returns (r: Table<K, A>)
    ensures r == AssignAll(table, Scores(Flatten(batches), score))
  {
    r := table;
    var b := 0;
    while b < |batches|
      invariant 0 <= b <= |batches|
      invariant r == AssignAll(table, Scores(Flatten(batches[..b]), score))
    {
      var batch := batches[b];
      ghost var done := Flatten(batches[..b]);
      var j := 0;
      assert done + batch[..0] == done;
      while j < |batch|
        invariant 0 <= j <= |batch|
        invariant r == AssignAll(table, Scores(done + batch[..j], score))
      {
        r := ScoreEntry(r, batch, j, score, table, done);
        j := j + 1;
      }
      assert batch[..j] == batch;
      FlattenStep(batches, b);
      b := b + 1;
    }
    assert batches[..b] == batches;
  }
}
