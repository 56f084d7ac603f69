/** `sorted(keys, key=scores.get)`: Python's sort is stable, so positions
    are ordered by score and, among equal scores, by their original order. */
module Ranking {

  /** Position `i` precedes position `j` in the stable ascending order. */
  predicate Before(scores: seq<real>, i: nat, j: nat)
    requires i < |scores| && j < |scores|
  {
    scores[i] < scores[j] || (scores[i] == scores[j] && i < j)
  }

  predicate InRange(s: seq<nat>, n: nat) {
    forall a :: 0 <= a < |s| ==> s[a] < n
  }

  predicate Ordered(scores: seq<real>, s: seq<nat>)
    requires InRange(s, |scores|)
  {
    forall a, b :: 0 <= a < b < |s| ==> Before(scores, s[a], s[b])
  }

  function InsertIdx(scores: seq<real>, i: nat, s: seq<nat>): (r: seq<nat>)
    requires i < |scores| && InRange(s, |scores|)
    ensures |r| == |s| + 1
    ensures forall x: nat :: x in r <==> x == i || x in s
    ensures InRange(r, |scores|)
  {
    if s == [] || Before(scores, i, s[0]) then [i] + s
    else
      var rest := InsertIdx(scores, i, s[1..]);
      assert s == [s[0]] + s[1..];
      [s[0]] + rest
  }

  /** Positions `0 .. n-1` in stable ascending order of score. */
  function SortIdx(scores: seq<real>, n: nat): (r: seq<nat>)
    requires n <= |scores|
    ensures |r| == n
    ensures forall x: nat :: x in r <==> x < n
    ensures InRange(r, n)
  {
    if n == 0 then []
    else
      var r := InsertIdx(scores, n - 1, SortIdx(scores, n - 1));
      assert forall a :: 0 <= a < |r| ==> r[a] in r;
      r
  }

  lemma {:induction false} InsertIdxOrdered(scores: seq<real>, i: nat, s: seq<nat>)
    requires i < |scores| && InRange(s, |scores|) && Ordered(scores, s) && i !in s
    ensures Ordered(scores, InsertIdx(scores, i, s))
    decreases |s|
  {
    if s != [] && !Before(scores, i, s[0]) {
      var tail := s[1..];
      assert Ordered(scores, tail) by {
        forall a, b | 0 <= a < b < |tail| ensures Before(scores, tail[a], tail[b]) {
          assert tail[a] == s[a + 1] && tail[b] == s[b + 1];
        }
      }
      InsertIdxOrdered(scores, i, tail);
      var rest := InsertIdx(scores, i, tail);
      var r := [s[0]] + rest;
      forall c | 0 <= c < |rest| ensures Before(scores, s[0], rest[c]) {
        assert rest[c] in rest;
        if rest[c] != i {
          var b :| 0 <= b < |tail| && tail[b] == rest[c];
          assert s[b + 1] == rest[c];
        }
      }
      forall a, b | 0 <= a < b < |r| ensures Before(scores, r[a], r[b]) {
        if a == 0 {
          assert r[b] == rest[b - 1];
        } else {
          assert r[a] == rest[a - 1] && r[b] == rest[b - 1];
        }
      }
    }
  }

  lemma {:induction false} SortIdxOrdered(scores: seq<real>, n: nat)
    requires n <= |scores|
    ensures Ordered(scores, SortIdx(scores, n))
  {
    if n > 0 {
      SortIdxOrdered(scores, n - 1);
      InsertIdxOrdered(scores, n - 1, SortIdx(scores, n - 1));
    }
  }

  /** `sorted(range(n), key=scores.__getitem__)[:k]`. */
  function TopK(scores: seq<real>, k: nat): (r: seq<nat>)
    ensures |r| == if k < |scores| then k else |scores|
    ensures InRange(r, |scores|)
  {
    var sorted := SortIdx(scores, |scores|);
    sorted[..if k < |scores| then k else |scores|]
  }

  /** The selected positions come in stable ascending order, are distinct,
      and each precedes every position left out. */
  lemma TopKSelects(scores: seq<real>, k: nat)
    ensures Ordered(scores, TopK(scores, k))
    ensures forall a, b :: 0 <= a < b < |TopK(scores, k)| ==> TopK(scores, k)[a] != TopK(scores, k)[b]
    ensures forall i: nat, j: nat :: i in TopK(scores, k) && j < |scores| && j !in TopK(scores, k) ==> Before(scores, i, j)
  {
    var sorted := SortIdx(scores, |scores|);
    SortIdxOrdered(scores, |scores|);
    var r := TopK(scores, k);
    assert forall a :: 0 <= a < |r| ==> r[a] == sorted[a] && sorted[a] in r;
    forall i: nat, j: nat | i in r && j < |scores| && j !in r ensures Before(scores, i, j) {
      var a :| 0 <= a < |r| && r[a] == i;
      assert j in sorted;
      var b :| 0 <= b < |sorted| && sorted[b] == j;
    }
  }

  /** With `k >= 1` and a score at all, the first pick is the first position holding the minimum. */
  lemma TopKFirstIsMinimum(scores: seq<real>, k: nat)
    requires k >= 1 && scores != []
    ensures TopK(scores, k) != []
    ensures forall j :: 0 <= j < |scores| ==> scores[TopK(scores, k)[0]] <= scores[j]
    ensures forall j :: 0 <= j < TopK(scores, k)[0] ==> scores[j] > scores[TopK(scores, k)[0]]
  {
    var sorted := SortIdx(scores, |scores|);
    SortIdxOrdered(scores, |scores|);
    var m := sorted[0];
    assert TopK(scores, k)[0] == m;
    forall j | 0 <= j < |scores| ensures scores[m] <= scores[j] && (j < m ==> scores[j] > scores[m]) {
      if j != m {
        assert j in sorted;
        var b :| 0 <= b < |sorted| && sorted[b] == j;
        assert Before(scores, m, j);
      }
    }
  }

  /** A sequence without repeats has as many elements as its set. */
  lemma {:induction false} NoRepeatsCard(s: seq<nat>)
    requires forall a, b :: 0 <= a < b < |s| ==> s[a] != s[b]
    ensures |set x: nat | x in s| == |s|
    decreases |s|
  {
    if s != [] {
      var n := |s| - 1;
      var init := s[..n];
      NoRepeatsCard(init);
      assert s[n] !in init by {
        forall a | 0 <= a < n ensures init[a] != s[n] {
        }
      }
      var before := set x: nat | x in init;
      var all := set x: nat | x in s;
      assert all == before + {s[n]} by {
        assert s == init + [s[n]];
      }
      assert s[n] !in before;
      assert |all| == |before| + 1;
    } else {
      assert (set x: nat | x in s) == {};
    }
  }

  /** `min(k, n)` distinct positions are selected. */
  lemma TopKCount(scores: seq<real>, k: nat)
    ensures |set x: nat | x in TopK(scores, k)| == if k < |scores| then k else |scores|
  {
    TopKSelects(scores, k);
    NoRepeatsCard(TopK(scores, k));
  }

  /** The first position holding the minimum score. */
  function ArgMin(scores: seq<real>): (m: nat)
    requires scores != []
    ensures m < |scores|
    ensures forall j :: 0 <= j < |scores| ==> scores[m] <= scores[j]
    ensures forall j :: 0 <= j < m ==> scores[j] > scores[m]
    decreases |scores|
  {
    var n := |scores| - 1;
    if n == 0 then 0
    else
      var m := ArgMin(scores[..n]);
      if scores[n] < scores[m] then n else m
  }

  /** The stable ascending order starts with the first minimum. */
  lemma TopKHeadIsArgMin(scores: seq<real>, k: nat)
    requires k >= 1 && scores != []
    ensures TopK(scores, k) != [] && TopK(scores, k)[0] == ArgMin(scores)
  {
    TopKFirstIsMinimum(scores, k);
  }

  /** The top-k of an insertion-ordered score table, as its keys. */
  function TopKeys<K>(keys: seq<K>, scores: seq<real>, k: nat): (r: seq<K>)
    requires |keys| == |scores|
    ensures |r| == if k < |scores| then k else |scores|
  {
    var top := TopK(scores, k);
    seq(|top|, a requires 0 <= a < |top| => keys[top[a]])
  }

  /** `muserc_decide_batch` and `rucos_decide_batch`: two winners among more than three candidates, otherwise one. */
  function DecideBatch<K>(keys: seq<K>, scores: seq<real>): (r: seq<K>)
    requires |keys| == |scores|
    ensures |keys| > 3 ==> |r| == 2
    ensures 1 <= |keys| <= 3 ==> |r| == 1
    ensures keys == [] ==> r == []
  {
    TopKeys(keys, scores, if |keys| > 3 then 2 else 1)
  }

  /** `rwsd_decide_batch`: a single winner. */
  function DecideOne<K>(keys: seq<K>, scores: seq<real>): (r: seq<K>)
    requires |keys| == |scores|
    ensures |r| == if keys == [] then 0 else 1
  {
    TopKeys(keys, scores, 1)
  }
}
