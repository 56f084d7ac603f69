/** The text clean-up and the batching shared by the perplexity baselines. */
module RsgBatching {
  import opened Numbers

  /** Length of the run of ASCII digits at the start of `s`. */
  function DigitRun(s: string): (n: nat)
    ensures n <= |s|
    ensures forall i :: 0 <= i < n ==> IsDigit(s[i])
    ensures n < |s| ==> !IsDigit(s[n])
  {
    if s != [] && IsDigit(s[0]) then 1 + DigitRun(s[1..]) else 0
  }

  /** Length of the match of `\((\d+)\)` at the start of `s`, or 0 if there is none. */
  function GroupLen(s: string): (n: nat)
    ensures n == 0 || 3 <= n <= |s|
    ensures n > 0 ==> s[0] == '(' && s[n - 1] == ')' && AllDigits(s[1..n - 1])
  {
    if s != [] && s[0] == '(' then
      var d := DigitRun(s[1..]);
      if d >= 1 && 1 + d < |s| && s[1 + d] == ')' then d + 2 else 0
    else 0
  }

  /** `clean`: `re.sub(r'\((\d+)\)', '', text)`, scanning left to right and
      dropping each "(digits)" group where a match starts. */
  function Clean(s: string): (r: string)
    ensures |r| <= |s|
    decreases |s|
  {
    if s == [] then []
    else if GroupLen(s) > 0 then Clean(s[GroupLen(s)..])
    else [s[0]] + Clean(s[1..])
  }

  /** No "(digits)" group starts anywhere in `s`. */
  predicate NoGroup(s: string) {
    forall i :: 0 <= i < |s| ==> GroupLen(s[i..]) == 0
  }

  /** Text without a "(digits)" group is left exactly as it is. */
  lemma {:induction false} CleanNoGroup(s: string)
    requires NoGroup(s)
    ensures Clean(s) == s
    decreases |s|
  {
    if s != [] {
      assert GroupLen(s[0..]) == 0 && s[0..] == s;
      assert forall i :: 0 <= i < |s[1..]| ==> s[1..][i..] == s[i + 1..];
      CleanNoGroup(s[1..]);
    }
  }

  lemma {:induction false} DigitRunAppend(x: string, y: string)
    ensures DigitRun(x) < |x| ==> DigitRun(x + y) == DigitRun(x)
    ensures DigitRun(x) == |x| ==> DigitRun(x + y) == |x| + DigitRun(y)
    decreases |x|
  {
    if x != [] {
      assert (x + y)[1..] == x[1..] + y;
      DigitRunAppend(x[1..], y);
    } else {
      assert x + y == y;
    }
  }

  /** A match lying in `a` is unaffected by what follows `a`, as long as that
      does not continue a digit run or close a group. */
  lemma GroupLenAppend(a: string, b: string)
    requires a != []
    requires b == [] || (!IsDigit(b[0]) && b[0] != ')')
    ensures GroupLen(a + b) == GroupLen(a)
  {
    if a[0] == '(' {
      var ab := a + b;
      assert ab[0] == '(';
      assert ab[1..] == a[1..] + b;
      DigitRunAppend(a[1..], b);
      var d := DigitRun(a[1..]);
      if d == |a[1..]| && b != [] {
        assert DigitRun(b) == 0;
        assert ab[1 + d] == b[0];
      }
      if 1 + d < |a| {
        assert ab[1 + d] == a[1 + d];
      }
    }
  }

  /** `clean` works piecewise across a boundary that no group straddles. */
  lemma {:induction false} CleanAppend(a: string, b: string)
    requires b == [] || (!IsDigit(b[0]) && b[0] != ')')
    ensures Clean(a + b) == Clean(a) + Clean(b)
    decreases |a|
  {
    if a == [] {
      assert a + b == b;
    } else {
      GroupLenAppend(a, b);
      var g := GroupLen(a);
      if g > 0 {
        assert (a + b)[g..] == a[g..] + b;
        CleanAppend(a[g..], b);
      } else {
        assert (a + b)[1..] == a[1..] + b;
        CleanAppend(a[1..], b);
      }
    }
  }

  /** A "(digits)" group at the front disappears. */
  lemma CleanDropsGroup(d: string, b: string)
    requires d != [] && AllDigits(d)
    ensures Clean("(" + d + ")" + b) == Clean(b)
  {
    var s := "(" + d + ")" + b;
    assert s[1..] == d + (")" + b);
    DigitRunAppend(d, ")" + b);
    assert DigitRun(d) == |d| by {
      DigitRunAll(d);
    }
    assert s[1 + |d|] == ')';
    assert s[|d| + 2..] == b;
  }

  lemma {:induction false} DigitRunAll(d: string)
    requires AllDigits(d)
    ensures DigitRun(d) == |d|
    decreases |d|
  {
    if d != [] {
      DigitRunAll(d[1..]);
    }
  }

  /** Every "(digits)" group is removed and the text around it kept. */
  lemma CleanRemovesGroup(a: string, d: string, b: string)
    requires d != [] && AllDigits(d)
    ensures Clean(a + "(" + d + ")" + b) == Clean(a) + Clean(b)
  {
    assert a + "(" + d + ")" + b == a + ("(" + d + ")" + b);
    CleanAppend(a, "(" + d + ")" + b);
    CleanDropsGroup(d, b);
  }

  /** Cleaning is not idempotent: removing an inner group can expose an outer one. */
  lemma CleanNotIdempotent()
    ensures Clean("(1(2))") == "(1)"
    ensures Clean(Clean("(1(2))")) == ""
  {
    CleanOuterOpen();
    CleanOuterDigit();
    CleanInnerGroup();
    assert "(" + ("1" + ")") == "(1)";
    CleanDropsGroup("1", "");
    assert "(1)" == "(" + "1" + ")" + "";
  }

  /** "(1(" does not start a group, so its '(' is kept. */
  lemma CleanOuterOpen()
    ensures Clean("(1(2))") == "(" + Clean("1(2))")
  {
    var s := "(1(2))";
    assert s[1..] == "1(2))";
    assert DigitRun("(2))") == 0;
    assert DigitRun("1(2))") == 1 + DigitRun("(2))");
    assert GroupLen(s) == 0;
  }

  /** A digit is kept. */
  lemma CleanOuterDigit()
    ensures Clean("1(2))") == "1" + Clean("(2))")
  {
    assert GroupLen("1(2))") == 0;
    assert "1(2))"[1..] == "(2))";
  }

  /** The inner group "(2)" is dropped and the final ')' kept. */
  lemma CleanInnerGroup()
    ensures Clean("(2))") == ")"
  {
    CleanDropsGroup("2", ")");
    assert "(2))" == "(" + "2" + ")" + ")";
    assert GroupLen(")") == 0;
    assert Clean(")") == ")";
  }

  // Batching

  /** One step of every `*_get_items` loop: when the last batch already holds
      `batchSize` entries a new batch is opened, then the entry joins the last batch. */
  function Push<T>(batches: seq<seq<T>>, e: T, batchSize: int): (r: seq<seq<T>>)
    requires batches != []
    ensures r != []
  {
    var last := batches[|batches| - 1];
    if |last| >= batchSize then batches + [[e]]
    else batches[..|batches| - 1] + [last + [e]]
  }

  /** The batches built from `entries`, starting from one empty batch. */
  function Batches<T>(entries: seq<T>, batchSize: int): (r: seq<seq<T>>)
    ensures r != []
    decreases |entries|
  {
    if entries == [] then [[]]
    else Push(Batches(entries[..|entries| - 1], batchSize), entries[|entries| - 1], batchSize)
  }

  lemma BatchesAppend<T>(entries: seq<T>, e: T, batchSize: int)
    ensures Batches(entries + [e], batchSize) == Push(Batches(entries, batchSize), e, batchSize)
  {
    assert (entries + [e])[..|entries|] == entries;
  }

  function Flatten<T>(batches: seq<seq<T>>): (r: seq<T>)
  {
    if batches == [] then [] else Flatten(batches[..|batches| - 1]) + batches[|batches| - 1]
  }

  lemma FlattenAppend<T>(a: seq<seq<T>>, b: seq<T>)
    ensures Flatten(a + [b]) == Flatten(a) + b
  {
    assert (a + [b])[..|a|] == a;
  }

  /** The first `b + 1` batches flatten to the first `b` followed by batch `b`. */
  lemma FlattenStep<T>(batches: seq<seq<T>>, b: nat)
    requires b < |batches|
    ensures Flatten(batches[..b + 1]) == Flatten(batches[..b]) + batches[b]
  {
    assert batches[..b + 1] == batches[..b] + [batches[b]];
    FlattenAppend(batches[..b], batches[b]);
  }

  /** Pushing an entry appends it to the concatenation of the batches. */
  lemma PushFlatten<T>(batches: seq<seq<T>>, e: T, batchSize: int)
    requires batches != []
    ensures Flatten(Push(batches, e, batchSize)) == Flatten(batches) + [e]
  {
    var n := |batches|;
    var last := batches[n - 1];
    if |last| >= batchSize {
      FlattenAppend(batches, [e]);
    } else {
      var init := batches[..n - 1];
      assert batches == init + [last];
      FlattenAppend(init, last);
      FlattenAppend(init, last + [e]);
    }
  }

  /** Batching keeps every entry, in order. */
  lemma {:induction false} BatchesFlatten<T>(entries: seq<T>, batchSize: int)
    ensures Flatten(Batches(entries, batchSize)) == entries
    decreases |entries|
  {
    if entries == [] {
      var none: seq<seq<T>> := [];
      assert Flatten(none + [[]]) == Flatten(none) + [];
    } else {
      var init := entries[..|entries| - 1];
      BatchesFlatten(init, batchSize);
      PushFlatten(Batches(init, batchSize), entries[|entries| - 1], batchSize);
      assert init + [entries[|entries| - 1]] == entries;
    }
  }

  /** With a positive batch size no batch exceeds it, and every batch but the
      first holds at least one entry. */
  lemma {:induction false} BatchesBounded<T>(entries: seq<T>, batchSize: int)
    requires batchSize >= 1
    ensures forall i :: 0 <= i < |Batches(entries, batchSize)| ==> |Batches(entries, batchSize)[i]| <= batchSize
    ensures forall i :: 1 <= i < |Batches(entries, batchSize)| ==> Batches(entries, batchSize)[i] != []
    decreases |entries|
  {
    if entries != [] {
      BatchesBounded(entries[..|entries| - 1], batchSize);
    }
  }

  /** Only the last batch can be short: with a positive batch size, all the
      others are full. */
  lemma {:induction false} BatchesFull<T>(entries: seq<T>, batchSize: int)
    requires batchSize >= 1
    ensures forall i :: 0 <= i < |Batches(entries, batchSize)| - 1 ==> |Batches(entries, batchSize)[i]| == batchSize
    decreases |entries|
  {
    if entries != [] {
      var init := entries[..|entries| - 1];
      BatchesFull(init, batchSize);
      BatchesBounded(init, batchSize);
    }
  }

  /** The state after `step` has been applied to each entry in turn, starting from `init`. */
  function Fold<S, E>(init: S, entries: seq<E>, step: (S, E) -> S): S
    decreases |entries|
  {
    if entries == [] then init else step(Fold(init, entries[..|entries| - 1], step), entries[|entries| - 1])
  }

  lemma FoldAppend<S, E>(init: S, entries: seq<E>, e: E, step: (S, E) -> S)
    ensures Fold(init, entries + [e], step) == step(Fold(init, entries, step), e)
  {
    assert (entries + [e])[..|entries|] == entries;
  }

  /** Entry `i` of a batch, with the position of the item it came from. */
  datatype Entry<P> = Entry(payload: P, id: nat)

  /** `enumerate(items)` with each item turned into its batch payload. */
  function Enumerate<I, P>(items: seq<I>, payload: I -> P): (r: seq<Entry<P>>)
    ensures |r| == |items|
    ensures forall i :: 0 <= i < |items| ==> r[i] == Entry(payload(items[i]), i)
  {
    seq(|items|, i requires 0 <= i < |items| => Entry(payload(items[i]), i))
  }

  /** The loop shared by the `*_get_items` batchers: one entry per item, in order. */
  method GetItems<I, P>(items: seq<I>, batchSize: int, payload: I -> P) returns (batches: seq<seq<Entry<P>>>)
    ensures batches == Batches(Enumerate(items, payload), batchSize)
    ensures Flatten(batches) == Enumerate(items, payload)
    ensures items == [] ==> batches == [[]]
  {
    batches := [[]];
    var i := 0;
    while i < |items|
      invariant 0 <= i <= |items|
      invariant batches == Batches(Enumerate(items[..i], payload), batchSize)
    {
      var all := Enumerate(items[..i + 1], payload);
      assert all[..i] == Enumerate(items[..i], payload);
      batches := Push(batches, Entry(payload(items[i]), i), batchSize);
      i := i + 1;
    }
    assert items[..|items|] == items;
    BatchesFlatten(Enumerate(items, payload), batchSize);
  }
}
