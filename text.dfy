/** The Python string operations the modelled code relies on: `str.strip`,
    `str.split` with and without a separator, `str.join`, `str.replace`,
    `str.splitlines`, slicing with Python's index rules, `str.lower` on one
    character, and `os.path.join`. */
module Text {
  import opened Wrappers

  /** Python's ASCII whitespace: space, and tab through carriage return. */
  predicate IsSpace(c: char) {
    c == ' ' || 9 <= c as int <= 13
  }

  predicate AllSpace(s: string) {
    forall i :: 0 <= i < |s| ==> IsSpace(s[i])
  }

  predicate NoSpace(s: string) {
    forall i :: 0 <= i < |s| ==> !IsSpace(s[i])
  }

  /** `s` neither starts nor ends with whitespace. */
  predicate Trimmed(s: string) {
    s == [] || (!IsSpace(s[0]) && !IsSpace(s[|s| - 1]))
  }

  predicate StartsWith(s: string, p: string) {
    |p| <= |s| && s[..|p|] == p
  }

  predicate EndsWith(s: string, p: string) {
    |p| <= |s| && s[|s| - |p|..] == p
  }

  /** `str.lstrip()` */
  function LStrip(s: string): (r: string)
    decreases |s|
  {
    if s != [] && IsSpace(s[0]) then LStrip(s[1..]) else s
  }

  /** What `lstrip` leaves is a suffix of `s` not starting with whitespace, and all it removes is whitespace. */
  lemma {:induction false} LStripShape(s: string)
    ensures |LStrip(s)| <= |s| && LStrip(s) == s[|s| - |LStrip(s)|..]
    ensures LStrip(s) == [] || !IsSpace(LStrip(s)[0])
    ensures AllSpace(s[..|s| - |LStrip(s)|])
    decreases |s|
  {
    if s != [] && IsSpace(s[0]) {
      LStripShape(s[1..]);
      var r := LStrip(s);
      assert s[..|s| - |r|] == [s[0]] + s[1..][..|s| - 1 - |r|];
    }
  }

  /** `str.rstrip()` */
  function RStrip(s: string): (r: string)
    decreases |s|
  {
    if s != [] && IsSpace(s[|s| - 1]) then RStrip(s[..|s| - 1]) else s
  }

  /** What `rstrip` leaves is a prefix of `s` not ending with whitespace, and all it removes is whitespace. */
  lemma {:induction false} RStripShape(s: string)
    ensures |RStrip(s)| <= |s| && RStrip(s) == s[..|RStrip(s)|]
    ensures RStrip(s) == [] || !IsSpace(RStrip(s)[|RStrip(s)| - 1])
    ensures AllSpace(s[|RStrip(s)|..])
    decreases |s|
  {
    if s != [] && IsSpace(s[|s| - 1]) {
      RStripShape(s[..|s| - 1]);
      var r := RStrip(s);
      assert s[|r|..] == s[..|s| - 1][|r|..] + [s[|s| - 1]];
    }
  }

  /** `str.strip()` */
  function Strip(s: string): (r: string)
    ensures Trimmed(r)
    ensures |r| <= |s|
  {
    LStripShape(s);
    RStripShape(LStrip(s));
    var r := RStrip(LStrip(s));
    assert r != [] ==> r[0] == LStrip(s)[0];
    r
  }

  lemma {:induction false} LStripOfSpaces(a: string, s: string)
    requires AllSpace(a) && (s == [] || !IsSpace(s[0]))
    ensures LStrip(a + s) == s
    decreases |a|
  {
    if a != [] {
      assert (a + s)[1..] == a[1..] + s;
      LStripOfSpaces(a[1..], s);
    }
  }

  lemma {:induction false} RStripOfSpaces(s: string, b: string)
    requires AllSpace(b) && (s == [] || !IsSpace(s[|s| - 1]))
    ensures RStrip(s + b) == s
    decreases |b|
  {
    if b != [] {
      assert (s + b)[..|s + b| - 1] == s + b[..|b| - 1];
      RStripOfSpaces(s, b[..|b| - 1]);
    }
  }

  /** Stripping removes exactly the surrounding whitespace and nothing inside. */
  lemma StripSurrounded(a: string, s: string, b: string)
    requires AllSpace(a) && AllSpace(b) && Trimmed(s)
    ensures Strip(a + s + b) == s
  {
    if s == [] {
      assert a + s + b == a + b;
      if b == [] {
        assert a + b == a + [];
        LStripOfSpaces(a, []);
      } else {
        assert AllSpace(a + b);
        assert a + b == (a + b) + [];
        LStripOfSpaces(a + b, []);
      }
    } else {
      assert a + s + b == a + (s + b);
      LStripOfSpaces(a, s + b);
      RStripOfSpaces(s, b);
    }
  }

  /** `pat` occurs in `s` at position `i`. */
  predicate OccursAt(s: string, pat: string, i: nat) {
    i + |pat| <= |s| && s[i..i + |pat|] == pat
  }

  /** `s.find(pat)`: the first position where `pat` occurs, if any. */
  function Find(s: string, pat: string): (r: Option<nat>)
    requires pat != []
    ensures r.Some? ==> OccursAt(s, pat, r.value)
    ensures r.Some? ==> forall i :: 0 <= i < r.value ==> !OccursAt(s, pat, i)
    ensures r.None? ==> forall i :: 0 <= i ==> !OccursAt(s, pat, i)
    decreases |s|
  {
    if |s| < |pat| then None
    else if s[..|pat|] == pat then Some(0)
    else
      assert s[0..|pat|] == s[..|pat|];
      var rest := Find(s[1..], pat);
      assert forall i: nat | 1 <= i :: OccursAt(s, pat, i) <==> OccursAt(s[1..], pat, i - 1) by {
        forall i: nat | 1 <= i ensures OccursAt(s, pat, i) <==> OccursAt(s[1..], pat, i - 1) {
          if i + |pat| <= |s| {
            assert s[1..][i - 1..i - 1 + |pat|] == s[i..i + |pat|];
          }
        }
      }
      match rest
      case None => None
      case Some(i) => Some(i + 1)
  }

  /** Python's `pat in s` for a non-empty `pat`. */
  predicate Contains(s: string, pat: string)
    requires pat != []
  {
    Find(s, pat).Some?
  }

  /** A string containing `pat` contains its first character. */
  lemma ContainsHead(s: string, pat: string)
    requires pat != [] && Contains(s, pat)
    ensures pat[0] in s
  {
    var v := Find(s, pat).value;
    assert s[v..v + |pat|] == pat;
    assert s[v] == pat[0];
  }

  /** `s.split(sep)` for a non-empty separator. */
  function Split(s: string, sep: string): (r: seq<string>)
    requires sep != []
    ensures |r| >= 1
    decreases |s|
  {
    match Find(s, sep)
    case None => [s]
    case Some(i) => [s[..i]] + Split(s[i + |sep|..], sep)
  }

  /** `sep.join(parts)` */
  function Join(parts: seq<string>, sep: string): string
  {
    if parts == [] then []
    else if |parts| == 1 then parts[0]
    else parts[0] + sep + Join(parts[1..], sep)
  }

  /** Splitting and joining back with the same separator gives the original string. */
  lemma {:induction false} JoinSplit(s: string, sep: string)
    requires sep != []
    ensures Join(Split(s, sep), sep) == s
    decreases |s|
  {
    match Find(s, sep)
    case None =>
    case Some(i) =>
      var rest := s[i + |sep|..];
      var tail := Split(rest, sep);
      JoinSplit(rest, sep);
      assert Split(s, sep) == [s[..i]] + tail;
      assert Join([s[..i]] + tail, sep) == s[..i] + sep + Join(tail, sep) by {
        assert ([s[..i]] + tail)[1..] == tail;
      }
      assert s[i..i + |sep|] == sep;
      assert s == s[..i] + s[i..i + |sep|] + rest;
  }

  /** No piece of a split contains the separator. */
  lemma {:induction false} SplitPiecesFree(s: string, sep: string)
    requires sep != []
    ensures forall k :: 0 <= k < |Split(s, sep)| ==> !Contains(Split(s, sep)[k], sep)
    decreases |s|
  {
    match Find(s, sep)
    case None =>
    case Some(i) =>
      var rest := s[i + |sep|..];
      SplitPiecesFree(rest, sep);
      var p := s[..i];
      forall j: nat ensures !OccursAt(p, sep, j) {
        if j + |sep| <= |p| {
          assert p[j..j + |sep|] == s[j..j + |sep|];
          assert !OccursAt(s, sep, j);
        }
      }
      assert !Contains(p, sep);
      assert Split(s, sep) == [p] + Split(rest, sep);
  }

  lemma ContainsChar(s: string, c: char)
    ensures Contains(s, [c]) <==> c in s
  {
    if c in s {
      var i :| 0 <= i < |s| && s[i] == c;
      assert OccursAt(s, [c], i);
    }
    if Contains(s, [c]) {
      var i := Find(s, [c]).value;
      assert s[i..i + 1] == [c];
      assert s[i] == c;
    }
  }

  /** A separator whose first character does not occur before it, followed by
      a tail free of the separator, splits into exactly those two pieces. */
  lemma SplitAt(a: string, sep: string, b: string)
    requires sep != [] && sep[0] !in a && !Contains(b, sep)
    ensures Split(a + sep + b, sep) == [a, b]
  {
    var s := a + sep + b;
    assert s[|a|..|a| + |sep|] == sep;
    assert OccursAt(s, sep, |a|);
    var v := Find(s, sep).value;
    assert v == |a|;
    assert s[v + |sep|..] == b;
    assert s[..v] == a;
    assert Split(b, sep) == [b];
    assert Split(s, sep) == [a] + Split(b, sep);
  }

  /** Joining pieces that do not contain a one-character separator and splitting again gives the pieces back. */
  lemma {:induction false} SplitJoin(parts: seq<string>, c: char)
    requires parts != []
    requires forall k :: 0 <= k < |parts| ==> c !in parts[k]
    ensures Split(Join(parts, [c]), [c]) == parts
    decreases |parts|
  {
    var s := Join(parts, [c]);
    if |parts| == 1 {
      ContainsChar(s, c);
    } else {
      var rest := Join(parts[1..], [c]);
      assert s == parts[0] + [c] + rest;
      SplitAtChar(parts[0], c, rest);
      SplitJoin(parts[1..], c);
      assert parts == [parts[0]] + parts[1..];
    }
  }

  /** Splitting on `c` cuts at the first `c`. */
  lemma SplitAtChar(head: string, c: char, rest: string)
    requires c !in head
    ensures Split(head + [c] + rest, [c]) == [head] + Split(rest, [c])
  {
    var s := head + [c] + rest;
    var n := |head|;
    assert OccursAt(s, [c], n) by { assert s[n..n + 1] == [c]; }
    forall i | 0 <= i < n ensures !OccursAt(s, [c], i) {
      assert s[i] == head[i];
      assert s[i..i + 1] == [s[i]];
    }
    assert Find(s, [c]) == Some(n);
    assert s[..n] == head;
    assert s[n + 1..] == rest;
  }

  /** The position `Find` gives for a character holds it, and no earlier one does. */
  lemma FoundChar(s: string, c: char)
    requires Find(s, [c]).Some?
    ensures var k := Find(s, [c]).value; k < |s| && s[k] == c && c !in s[..k]
  {
    var k := Find(s, [c]).value;
    assert s[k..k + 1] == [c];
    forall i | 0 <= i < k ensures s[i] != c {
      assert !OccursAt(s, [c], i);
      assert s[i..i + 1] == [s[i]];
    }
  }

  /** `s.replace(target, replacement)` for a non-empty `target`: every occurrence, scanned left to right. */
  function Replace(s: string, target: string, replacement: string): (r: string)
    requires target != []
    ensures !Contains(s, target) ==> r == s
  {
    Join(Split(s, target), replacement)
  }

  /** `s.splitlines()` with `\n` as the only line boundary: no trailing empty line. */
  function SplitLines(s: string): (r: seq<string>)
    ensures forall k :: 0 <= k < |r| ==> '\n' !in r[k]
  {
    if s == [] then []
    else
      var parts := Split(s, "\n");
      SplitPiecesFree(s, "\n");
      forall k | 0 <= k < |parts| ensures '\n' !in parts[k] {
        ContainsChar(parts[k], '\n');
      }
      if s[|s| - 1] == '\n' then parts[..|parts| - 1] else parts
  }

  /** Lines written out one per line, each ended by a newline, are read back exactly. */
  lemma SplitLinesOfLines(lines: seq<string>)
    requires lines != []
    requires forall k :: 0 <= k < |lines| ==> '\n' !in lines[k]
    ensures SplitLines(Join(lines, "\n") + "\n") == lines
  {
    var s := Join(lines, "\n") + "\n";
    var padded := lines + [""];
    assert Join(padded, "\n") == s by { JoinAppendEmpty(lines, "\n"); }
    SplitJoin(padded, '\n');
    assert padded[..|padded| - 1] == lines;
  }

  lemma {:induction false} JoinAppendEmpty(parts: seq<string>, sep: string)
    requires parts != []
    ensures Join(parts + [""], sep) == Join(parts, sep) + sep
    decreases |parts|
  {
    if |parts| == 1 {
      assert (parts + [""])[1..] == [""];
    } else {
      assert (parts + [""])[1..] == parts[1..] + [""];
      JoinAppendEmpty(parts[1..], sep);
    }
  }

  /** Length of the longest prefix of `s` free of whitespace. */
  function WordLength(s: string): (n: nat)
    ensures n <= |s| && NoSpace(s[..n])
    ensures n < |s| ==> IsSpace(s[n])
  {
    if s == [] || IsSpace(s[0]) then 0
    else
      var n := WordLength(s[1..]);
      assert s[..n + 1] == [s[0]] + s[1..][..n];
      n + 1
  }

  /** `s.split()`: the maximal runs of non-whitespace, in order. */
  function SplitWhitespace(s: string): (r: seq<string>)
    ensures forall k :: 0 <= k < |r| ==> r[k] != [] && NoSpace(r[k])
    decreases |s|
  {
    LStripShape(s);
    var t := LStrip(s);
    if t == [] then []
    else
      var n := WordLength(t);
      [t[..n]] + SplitWhitespace(t[n..])
  }

  lemma SplitWhitespaceOfSpaces(a: string)
    requires AllSpace(a)
    ensures SplitWhitespace(a) == []
  {
    assert a == a + [];
    LStripOfSpaces(a, []);
  }

  /** Leading whitespace is skipped and the first word is taken whole. */
  lemma SplitWhitespaceCons(a: string, w: string, rest: string)
    requires AllSpace(a) && w != [] && NoSpace(w) && (rest == [] || IsSpace(rest[0]))
    ensures SplitWhitespace(a + w + rest) == [w] + SplitWhitespace(rest)
  {
    var t := w + rest;
    assert a + w + rest == a + t;
    LStripOfSpaces(a, t);
    WordLengthOf(w, rest);
    assert t[..|w|] == w && t[|w|..] == rest;
  }

  /** Two words separated and surrounded by whitespace split into exactly those two words. */
  lemma SplitTwoWords(a: string, w1: string, b: string, w2: string, c: string)
    requires AllSpace(a) && AllSpace(b) && AllSpace(c) && b != []
    requires w1 != [] && NoSpace(w1) && w2 != [] && NoSpace(w2)
    ensures SplitWhitespace(a + w1 + b + w2 + c) == [w1, w2]
  {
    var r := b + w2 + c;
    var s := a + w1 + b + w2 + c;
    assert s == a + w1 + r;
    assert IsSpace(r[0]) by {
      assert r[0] == b[0];
    }
    SplitWhitespaceCons(a, w1, r);
    assert c == [] || IsSpace(c[0]);
    SplitWhitespaceCons(b, w2, c);
    SplitWhitespaceOfSpaces(c);
    calc {
      SplitWhitespace(s);
      [w1] + SplitWhitespace(r);
      [w1] + [w2];
    }
  }

  lemma {:induction false} WordLengthOf(w: string, rest: string)
    requires NoSpace(w) && (rest == [] || IsSpace(rest[0]))
    ensures WordLength(w + rest) == |w|
    decreases |w|
  {
    if w != [] {
      assert (w + rest)[1..] == w[1..] + rest;
      WordLengthOf(w[1..], rest);
    }
  }

  lemma {:induction false} LStripAfterSpaces(x: string, s: string)
    requires AllSpace(x)
    ensures LStrip(x + s) == LStrip(s)
    decreases |x|
  {
    if x != [] {
      assert (x + s)[1..] == x[1..] + s;
      LStripAfterSpaces(x[1..], s);
    } else {
      assert x + s == s;
    }
  }

  /** Whitespace between two texts separates their words: the words of the
      whole are the words of the first followed by the words of the second. */
  lemma {:induction false} SplitWhitespaceConcat(a: string, sp: string, b: string)
    requires AllSpace(sp) && sp != []
    ensures SplitWhitespace(a + sp + b) == SplitWhitespace(a) + SplitWhitespace(b)
    decreases |a|
  {
    LStripShape(a);
    var t := LStrip(a);
    var lead := a[..|a| - |t|];
    assert a == lead + t;
    if t == [] {
      SpacesThen(a, sp, b);
    } else {
      var n := WordLength(t);
      var w, rest := t[..n], t[n..];
      assert a == lead + w + rest;
      SplitWhitespaceConcat(rest, sp, b);
      WordThen(lead, w, rest, sp, b);
    }
  }

  /** Nothing but whitespace before a text adds no word. */
  lemma SpacesThen(a: string, sp: string, b: string)
    requires AllSpace(a) && AllSpace(sp)
    ensures SplitWhitespace(a) == [] && SplitWhitespace(a + sp + b) == SplitWhitespace(b)
  {
    assert AllSpace(a + sp);
    LStripAfterSpaces(a + sp, b);
    SplitWhitespaceOfSpaces(a);
  }

  /** The step of `SplitWhitespaceConcat` past the first word of the first text. */
  lemma WordThen(lead: string, w: string, rest: string, sp: string, b: string)
    requires AllSpace(lead) && w != [] && NoSpace(w) && (rest == [] || IsSpace(rest[0]))
    requires AllSpace(sp) && sp != []
    requires SplitWhitespace(rest + sp + b) == SplitWhitespace(rest) + SplitWhitespace(b)
    ensures SplitWhitespace(lead + w + rest + sp + b) == SplitWhitespace(lead + w + rest) + SplitWhitespace(b)
  {
    var tail := rest + sp + b;
    Regroup(lead + w, rest, sp, b);
    SpaceFirst(rest, sp, b);
    SplitWhitespaceCons(lead, w, rest);
    SplitWhitespaceCons(lead, w, tail);
    ConsAppend(w, SplitWhitespace(rest), SplitWhitespace(b));
  }

  /** Text followed by whitespace starts with whitespace when it is empty or does. */
  lemma SpaceFirst(rest: string, sp: string, b: string)
    requires (rest == [] || IsSpace(rest[0])) && AllSpace(sp) && sp != []
    ensures IsSpace((rest + sp + b)[0])
  {
    if rest == [] {
      assert (rest + sp + b)[0] == sp[0];
    } else {
      assert (rest + sp + b)[0] == rest[0];
    }
  }

  lemma Regroup<T>(a: seq<T>, b: seq<T>, c: seq<T>, d: seq<T>)
    ensures a + b + c + d == a + (b + c + d)
  {
  }

  lemma ConsAppend<T>(x: T, r: seq<T>, b: seq<T>)
    ensures [x] + (r + b) == [x] + r + b
  {
  }

  /** Stripping keeps every word. */
  lemma SplitWhitespaceStrip(s: string)
    ensures SplitWhitespace(Strip(s)) == SplitWhitespace(s)
  {
    LStripShape(s);
    var l := LStrip(s);
    RStripShape(l);
    var r := Strip(s);
    var trail := l[|r|..];
    assert l == r + trail;
    assert LStrip(l) == l;
    assert SplitWhitespace(l) == SplitWhitespace(s);
    if trail != [] {
      SplitWhitespaceConcat(r, trail, []);
      assert r + trail + [] == l;
    }
  }

  /** Python's `s[start:end]`: negative bounds count from the end, and bounds are clamped. */
  function PySlice(s: string, start: int, end: int): (r: string)
    ensures |r| <= |s|
    ensures 0 <= start <= end <= |s| ==> r == s[start..end]
  {
    var n := |s|;
    var b := if start < 0 then (if start + n < 0 then 0 else start + n) else (if start > n then n else start);
    var e := if end < 0 then (if end + n < 0 then 0 else end + n) else (if end > n then n else end);
    if b < e then s[b..e] else []
  }

  /** `os.path.join(a, b)` on POSIX: an absolute `b` replaces `a`. */
  function PathJoin(a: string, b: string): (r: string)
    ensures EndsWith(r, b)
    ensures (b == [] || b[0] != '/') ==> StartsWith(r, a)
    ensures (b == [] || b[0] != '/') && a != [] && a[|a| - 1] != '/' ==> r == a + "/" + b
  {
    if b != [] && b[0] == '/' then b
    else if a == [] || a[|a| - 1] == '/' then a + b
    else a + "/" + b
  }

  /** `join(dir, sub, file)` for a directory without a trailing `/`, a
      sub-directory name free of `/` and a relative file name. */
  lemma PathJoinTwice(dir: string, sub: string, file: string)
    requires dir != [] && dir[|dir| - 1] != '/' && sub != [] && '/' !in sub && (file == [] || file[0] != '/')
    ensures PathJoin(PathJoin(dir, sub), file) == dir + "/" + sub + "/" + file
  {
    var a := PathJoin(dir, sub);
    assert sub[0] in sub;
    assert a == dir + "/" + sub;
    assert a[|a| - 1] == sub[|sub| - 1];
    assert a[|a| - 1] in sub;
  }

  /** `join(dir, a, b, file)` for a directory without a trailing `/`, two
      sub-directory names free of `/` and a relative file name. */
  lemma PathJoinThrice(dir: string, a: string, b: string, file: string)
    requires dir != [] && dir[|dir| - 1] != '/' && a != [] && '/' !in a && b != [] && '/' !in b
    requires file == [] || file[0] != '/'
    ensures PathJoin(PathJoin(PathJoin(dir, a), b), file) == dir + "/" + a + "/" + b + "/" + file
  {
    PathJoinTwice(dir, a, b);
    var p := PathJoin(PathJoin(dir, a), b);
    assert p[|p| - 1] == b[|b| - 1];
    assert p[|p| - 1] in b;
  }

  /** `c.lower()` for the Latin and Cyrillic letters. */
  function LowerChar(c: char): (r: char)
    ensures !('A' <= c <= 'Z' || 0x400 <= c as int <= 0x42F) ==> r == c
    ensures 'A' <= c <= 'Z' ==> 'a' <= r <= 'z'
  {
    if 'A' <= c <= 'Z' then (c as int + 32) as char
    else if 0x410 <= c as int <= 0x42F then (c as int + 32) as char
    else if 0x400 <= c as int <= 0x40F then (c as int + 80) as char
    else c
  }

  /** `s[0].lower() + s[1:]`, raising `IndexError` on the empty string. */
  function LowerFirst(s: string): (r: Result<string>)
    ensures r.Ok? <==> s != []
    ensures r.Ok? ==> |r.value| == |s| && r.value[1..] == s[1..]
  {
    if s == [] then Err(IndexError) else Ok([LowerChar(s[0])] + s[1..])
  }

  /** Replacing one character by another works position by position and keeps the length. */
  lemma {:induction false} ReplaceChar(s: string, c: char, d: char)
    ensures |Replace(s, [c], [d])| == |s|
    ensures forall i :: 0 <= i < |s| ==> Replace(s, [c], [d])[i] == if s[i] == c then d else s[i]
    decreases |s|
  {
    var r := Replace(s, [c], [d]);
    match Find(s, [c])
    case None =>
      ContainsChar(s, c);
      assert Split(s, [c]) == [s];
    case Some(k) =>
      FoundChar(s, c);
      var head, rest := s[..k], s[k + 1..];
      assert s == head + [c] + rest;
      ReplaceCons(head, c, d, rest);
      ReplaceChar(rest, c, d);
      forall i | 0 <= i < |s| ensures r[i] == if s[i] == c then d else s[i] {
        if i < k {
          assert r[i] == head[i] && s[i] == head[i];
        } else if i > k {
          assert r[i] == Replace(rest, [c], [d])[i - k - 1];
          assert rest[i - k - 1] == s[i];
        }
      }
  }

  /** Replacing `c` passes over a head free of `c` and turns the first `c` into `d`. */
  lemma ReplaceCons(head: string, c: char, d: char, rest: string)
    requires c !in head
    ensures Replace(head + [c] + rest, [c], [d]) == head + [d] + Replace(rest, [c], [d])
  {
    SplitAtChar(head, c, rest);
    var tail := Split(rest, [c]);
    assert ([head] + tail)[1..] == tail;
  }

  /** `s.rpartition(c)` when `c` occurs: the text before and the text after the
      last occurrence of `c`. */
  function SplitLast(s: string, c: char): (r: Option<(string, string)>)
    ensures r.None? <==> c !in s
    ensures r.Some? ==> s == r.value.0 + [c] + r.value.1 && c !in r.value.1
    decreases |s|
  {
    if s == [] then None
    else if s[|s| - 1] == c then
      assert s == s[..|s| - 1] + [c] + [];
      Some((s[..|s| - 1], []))
    else
      var init := s[..|s| - 1];
      assert s == init + [s[|s| - 1]];
      match SplitLast(init, c)
      case None => None
      case Some((h, t)) => Some((h, t + [s[|s| - 1]]))
  }

  /** The split is at the last occurrence: any text, `c`, then a tail free of `c` splits there. */
  lemma {:induction false} SplitLastOf(h: string, c: char, t: string)
    requires c !in t
    ensures SplitLast(h + [c] + t, c) == Some((h, t))
    decreases |t|
  {
    var s := h + [c] + t;
    if t == [] {
      assert s[..|s| - 1] == h;
    } else {
      var init := t[..|t| - 1];
      SplitLastOf(h, c, init);
      assert s[..|s| - 1] == h + [c] + init;
      assert init + [t[|t| - 1]] == t;
    }
  }
}
