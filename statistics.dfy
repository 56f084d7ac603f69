/** `max` over integers and `statistics.median` over reals, the median being
    defined through an insertion sort, as the Python library sorts before it
    picks the middle. */
module Statistics {

  /** `max(values)` for a non-empty sequence. */
  function MaxOf(s: seq<int>): (m: int)
    requires s != []
    ensures m in s
    ensures forall i :: 0 <= i < |s| ==> s[i] <= m
  {
    if |s| == 1 then s[0]
    else
      var rest := MaxOf(s[1..]);
      assert forall i :: 1 <= i < |s| ==> s[i] == s[1..][i - 1];
      if s[0] >= rest then s[0] else rest
  }

  predicate Sorted(s: seq<real>) {
    forall i, j :: 0 <= i < j < |s| ==> s[i] <= s[j]
  }

  /** Inserts `x` before the first element not below it. */
  function Insert(x: real, s: seq<real>): (r: seq<real>)
    ensures |r| == |s| + 1
  {
    if s == [] || x <= s[0] then [x] + s else [s[0]] + Insert(x, s[1..])
  }

  lemma SortedTail(s: seq<real>)
    requires s != [] && Sorted(s)
    ensures Sorted(s[1..])
  {
    forall i, j | 0 <= i < j < |s[1..]| ensures s[1..][i] <= s[1..][j] {
      assert s[1..][i] == s[i + 1] && s[1..][j] == s[j + 1];
    }
  }

  /** Insertion adds exactly `x`. */
  lemma {:induction false} InsertMultiset(x: real, s: seq<real>)
    ensures multiset(Insert(x, s)) == multiset(s) + multiset{x}
    decreases |s|
  {
    if s != [] && x > s[0] {
      InsertMultiset(x, s[1..]);
      assert s == [s[0]] + s[1..];
    }
  }

  /** The first element after an insertion is `x` or the old first element. */
  lemma InsertHead(x: real, s: seq<real>)
    ensures Insert(x, s)[0] == x || (s != [] && Insert(x, s)[0] == s[0])
  {
  }

  /** Insertion keeps a sorted sequence sorted. */
  lemma {:induction false} InsertSorted(x: real, s: seq<real>)
    requires Sorted(s)
    ensures Sorted(Insert(x, s))
    decreases |s|
  {
    if s != [] && x > s[0] {
      var rest := Insert(x, s[1..]);
      SortedTail(s);
      InsertSorted(x, s[1..]);
      InsertHead(x, s[1..]);
      assert s[0] <= rest[0];
      var r := [s[0]] + rest;
      forall i, j | 0 <= i < j < |r| ensures r[i] <= r[j] {
        if i > 0 {
          assert r[i] == rest[i - 1] && r[j] == rest[j - 1];
        } else {
          assert rest[0] <= rest[j - 1];
        }
      }
    }
  }

  /** Ascending order (insertion sort). */
  function Sort(s: seq<real>): (r: seq<real>)
    ensures |r| == |s|
  {
    if s == [] then [] else Insert(s[0], Sort(s[1..]))
  }

  /** `Sort` yields a sorted permutation of its input. */
  lemma {:induction false} SortSorted(s: seq<real>)
    ensures Sorted(Sort(s))
    ensures multiset(Sort(s)) == multiset(s)
    decreases |s|
  {
    if s != [] {
      SortSorted(s[1..]);
      InsertSorted(s[0], Sort(s[1..]));
      InsertMultiset(s[0], Sort(s[1..]));
      assert s == [s[0]] + s[1..];
    }
  }

  lemma MultisetTail(a: seq<real>)
    requires a != []
    ensures multiset(a[1..]) == multiset(a) - multiset{a[0]}
  {
    assert a == [a[0]] + a[1..];
  }

  /** Two sorted sequences with the same elements start with the same, least, element. */
  lemma SortedHeads(a: seq<real>, b: seq<real>)
    requires Sorted(a) && Sorted(b) && multiset(a) == multiset(b) && a != []
    ensures b != [] && a[0] == b[0]
  {
    assert |a| == |multiset(a)| == |multiset(b)| == |b|;
    assert a[0] in multiset(b) && b[0] in multiset(a);
    var k :| 0 <= k < |b| && b[k] == a[0];
    var l :| 0 <= l < |a| && a[l] == b[0];
    assert b[0] <= b[k] && a[0] <= a[l];
  }

  /** Two sorted sequences with the same elements are equal. */
  lemma {:induction false} SortedUnique(a: seq<real>, b: seq<real>)
    requires Sorted(a) && Sorted(b) && multiset(a) == multiset(b)
    ensures a == b
    decreases |a|
  {
    if a != [] {
      SortedHeads(a, b);
      MultisetTail(a);
      MultisetTail(b);
      SortedTail(a);
      SortedTail(b);
      SortedUnique(a[1..], b[1..]);
      assert a == [a[0]] + a[1..] && b == [b[0]] + b[1..];
    } else {
      assert |b| == |multiset(b)| == 0;
    }
  }

  /** The middle element of a sorted sequence, or the mean of the two middle ones. */
  function Middle(t: seq<real>): real
    requires t != []
  {
    var n := |t|;
    if n % 2 == 1 then t[n / 2] else (t[n / 2 - 1] + t[n / 2]) / 2.0
  }

  /** `statistics.median`: the middle of the sorted values. */
  function Median(s: seq<real>): (m: real)
    requires s != []
    ensures exists i :: 0 <= i < |s| && s[i] <= m
    ensures exists j :: 0 <= j < |s| && m <= s[j]
  {
    MedianBounds(s);
    Middle(Sort(s))
  }

  /** The middle of the sorted values lies between two of the values. */
  lemma MedianBounds(s: seq<real>)
    requires s != []
    ensures exists i :: 0 <= i < |s| && s[i] <= Middle(Sort(s))
    ensures exists j :: 0 <= j < |s| && Middle(Sort(s)) <= s[j]
  {
    var t := Sort(s);
    SortSorted(s);
    MiddleBounds(t);
    assert t[0] in multiset(s) && t[|t| - 1] in multiset(s);
    assert t[0] in s && t[|t| - 1] in s;
  }

  lemma MiddleBounds(t: seq<real>)
    requires t != [] && Sorted(t)
    ensures t[0] <= Middle(t) <= t[|t| - 1]
  {
    var n := |t|;
    assert t[0] <= t[n / 2] <= t[n - 1];
    if n % 2 == 0 {
      assert t[0] <= t[n / 2 - 1] <= t[n - 1];
    }
  }

  /** The median does not depend on the order of the values. */
  lemma MedianPermutation(s: seq<real>, u: seq<real>)
    requires s != [] && multiset(s) == multiset(u)
    ensures u != [] && Median(s) == Median(u)
  {
    assert |s| == |multiset(s)| == |multiset(u)| == |u|;
    SortSorted(s);
    SortSorted(u);
    SortedUnique(Sort(s), Sort(u));
    assert Median(s) == Middle(Sort(s)) && Median(u) == Middle(Sort(u));
  }

  /** Every value shifted down by `c`. */
  function Shift(s: seq<real>, c: real): (r: seq<real>)
    ensures |r| == |s|
  {
    if s == [] then [] else [s[0] - c] + Shift(s[1..], c)
  }

  lemma {:induction false} InsertShift(x: real, t: seq<real>, c: real)
    ensures Insert(x - c, Shift(t, c)) == Shift(Insert(x, t), c)
    decreases |t|
  {
    if t == [] {
      assert Shift([x], c) == [x - c] + Shift([], c);
    } else {
      var st := Shift(t, c);
      assert st == [t[0] - c] + Shift(t[1..], c);
      if x <= t[0] {
        assert ([x] + t)[1..] == t;
      } else {
        InsertShift(x, t[1..], c);
        var rest := Insert(x, t[1..]);
        assert ([t[0]] + rest)[1..] == rest;
        assert st[1..] == Shift(t[1..], c);
      }
    }
  }

  lemma {:induction false} SortShift(s: seq<real>, c: real)
    ensures Sort(Shift(s, c)) == Shift(Sort(s), c)
    decreases |s|
  {
    if s != [] {
      var ss := Shift(s, c);
      assert ss[0] == s[0] - c;
      assert ss[1..] == Shift(s[1..], c);
      SortShift(s[1..], c);
      InsertShift(s[0], Sort(s[1..]), c);
    }
  }

  lemma {:induction false} ShiftIndex(s: seq<real>, c: real, i: nat)
    requires i < |s|
    ensures Shift(s, c)[i] == s[i] - c
    decreases i
  {
    if i > 0 {
      ShiftIndex(s[1..], c, i - 1);
    }
  }

  /** Shifting every value by `c` shifts the median by `c`. */
  lemma MedianShift(s: seq<real>, c: real)
    requires s != []
    ensures Median(Shift(s, c)) == Median(s) - c
  {
    SortShift(s, c);
    var t := Sort(s);
    var n := |t|;
    ShiftIndex(t, c, n / 2);
    if n % 2 == 0 {
      ShiftIndex(t, c, n / 2 - 1);
    }
    assert Median(Shift(s, c)) == Middle(Shift(t, c)) && Median(s) == Middle(t);
  }
}
