/** Decimal digit strings: Python's `str(n)`, `'%d' % n`, `'{:02d}'.format(n)`,
    `int(s)` and `float(s)`, and `int(x)` on a number with a fraction.
    Floating point values are modelled as exact reals. */
module Numbers {
  import opened Wrappers
  import opened Text

  predicate IsDigit(c: char) {
    '0' <= c <= '9'
  }

  predicate AllDigits(s: string) {
    forall i :: 0 <= i < |s| ==> IsDigit(s[i])
  }

  function DigitChar(d: nat): (c: char)
    requires d < 10
    ensures IsDigit(c)
  {
    ('0' as int + d) as char
  }

  /** The value of a string of decimal digits, most significant first; leading zeros count for nothing. */
  function DigitsValue(s: string): nat
    requires AllDigits(s)
    decreases |s|
  {
    if s == [] then 0 else DigitsValue(s[..|s| - 1]) * 10 + (s[|s| - 1] as int - '0' as int)
  }

  function Pow10(k: nat): (p: nat)
    ensures p >= 1
  {
    if k == 0 then 1 else 10 * Pow10(k - 1)
  }

  /** `str(n)`: the shortest decimal rendering, which reads back as `n`. */
  function NatToString(n: nat): (r: string)
    ensures r != [] && AllDigits(r) && Trimmed(r)
    ensures DigitsValue(r) == n
    ensures (r[0] == '0') == (n == 0)
  {
    if n < 10 then [DigitChar(n)]
    else
      var prefix := NatToString(n / 10);
      var r := prefix + [DigitChar(n % 10)];
      assert r[..|r| - 1] == prefix;
      r
  }

  /** `'%d' % i` and `str(i)` for any integer. */
  function IntToString(i: int): (r: string)
    ensures r != [] && Trimmed(r)
    ensures i >= 0 ==> r == NatToString(i)
    ensures i < 0 ==> r == "-" + NatToString(-i)
  {
    if i < 0 then "-" + NatToString(-i) else NatToString(i)
  }

  /** `'{:02d}'.format(n)`: at least two digits, zero-padded. */
  function Pad2(n: nat): (r: string)
    ensures |r| >= 2 && AllDigits(r) && DigitsValue(r) == n
  {
    if n < 10 then
      var r := "0" + NatToString(n);
      assert r[..1] == "0";
      r
    else NatToString(n)
  }

  /** Splits an optional leading `+` or `-` off a number. */
  function SignSplit(t: string): (bool, string)
  {
    if t != [] && (t[0] == '-' || t[0] == '+') then (t[0] == '-', t[1..]) else (false, t)
  }

  /** `int(s)` on the texts this model reads: surrounding whitespace, an
      optional sign and at least one digit; anything else raises `ValueError`.
      The `_` digit separators that `int` also accepts are not modelled. */
  function ParseInt(s: string): (r: Result<int>)
    ensures r.Err? ==> r.error.ValueError?
  {
    ParseStrippedInt(Strip(s))
  }

  /** `int` once the surrounding whitespace is gone. */
  function ParseStrippedInt(t: string): (r: Result<int>)
    ensures r.Err? ==> r.error.ValueError?
  {
    var (negative, body) := SignSplit(t);
    if body != [] && AllDigits(body) then
      var v: int := DigitsValue(body);
      Ok(if negative then -v else v)
    else Err(ValueError("invalid literal for int()"))
  }

  /** The value of `digits.fraction` for two digit strings. */
  function DecimalValue(whole: string, fraction: string): (v: real)
    requires AllDigits(whole) && AllDigits(fraction)
    ensures v >= 0.0
  {
    DigitsValue(whole) as real + DigitsValue(fraction) as real / Pow10(|fraction|) as real
  }

  /** `float(s)` for the decimal forms `12`, `12.`, `.5` and `12.5` with an optional
      sign and surrounding whitespace; anything else raises `ValueError`. */
  function ParseFloat(s: string): (r: Result<real>)
    ensures r.Err? ==> r.error.ValueError?
  {
    ParseStrippedFloat(Strip(s))
  }

  /** `float` once the surrounding whitespace is gone. */
  function ParseStrippedFloat(t: string): (r: Result<real>)
    ensures r.Err? ==> r.error.ValueError?
  {
    var (negative, body) := SignSplit(t);
    var dot := Find(body, ".");
    var whole := if dot.Some? then body[..dot.value] else body;
    var fraction := if dot.Some? then body[dot.value + 1..] else [];
    if |whole| + |fraction| > 0 && AllDigits(whole) && AllDigits(fraction) then
      var v := DecimalValue(whole, fraction);
      Ok(if negative then -v else v)
    else Err(ValueError("could not convert string to float"))
  }

  /** `int(x)` on a real: truncation toward zero. */
  function Trunc(x: real): (r: int)
    ensures x >= 0.0 ==> r as real <= x < r as real + 1.0
    ensures x < 0.0 ==> r as real - 1.0 < x <= r as real
  {
    if x >= 0.0 then x.Floor else -((-x).Floor)
  }

  lemma NoDotInDigits(s: string)
    requires AllDigits(s)
    ensures Find(s, ".") == None
  {
    ContainsChar(s, '.');
  }

  /** A rendered natural number reads back as the same integer. */
  lemma ParseIntOfNat(n: nat, a: string, b: string)
    requires AllSpace(a) && AllSpace(b)
    ensures ParseInt(a + NatToString(n) + b) == Ok(n)
  {
    var t := NatToString(n);
    StripSurrounded(a, t, b);
    assert ParseInt(a + t + b) == ParseStrippedInt(t);
    assert SignSplit(t) == (false, t);
  }

  /** A rendered integer, negative or not, reads back as the same integer. */
  lemma ParseIntOfInt(i: int)
    ensures ParseInt(IntToString(i)) == Ok(i)
  {
    var r := IntToString(i);
    assert r == [] + r + [];
    StripSurrounded([], r, []);
    assert ParseInt(r) == ParseStrippedInt(r);
    if i < 0 {
      assert SignSplit(r) == (true, NatToString(-i));
    } else {
      assert SignSplit(r) == (false, r);
    }
  }

  /** A rendered natural number, with surrounding whitespace, reads back as that float. */
  lemma ParseFloatOfNat(n: nat, a: string, b: string)
    requires AllSpace(a) && AllSpace(b)
    ensures ParseFloat(a + NatToString(n) + b) == Ok(n as real)
  {
    var t := NatToString(n);
    StripSurrounded(a, t, b);
    assert ParseFloat(a + t + b) == ParseStrippedFloat(t);
    assert SignSplit(t) == (false, t);
    NoDotInDigits(t);
    assert DecimalValue(t, []) == n as real by {
      assert DigitsValue([]) == 0;
    }
  }

  /** `str(w) + "." + f`: the decimal text a tool prints, such as `0.301` or `90.1`. */
  function DecimalText(w: nat, f: string): string
    requires AllDigits(f)
  {
    NatToString(w) + "." + f
  }

  /** `w.f` is digits and one dot, and so free of whitespace. */
  lemma DecimalTextShape(w: nat, f: string)
    requires AllDigits(f)
    ensures var r := DecimalText(w, f); r != [] && Trimmed(r) && NoSpace(r) && ' ' !in r
  {
    var r := DecimalText(w, f);
    var n := |NatToString(w)|;
    forall i | 0 <= i < |r| ensures !IsSpace(r[i]) {
      if i < n {
        assert r[i] == NatToString(w)[i];
      } else if i > n {
        assert r[i] == f[i - n - 1];
      }
    }
  }

  /** The value of `DecimalText(w, f)`. */
  function DecimalOf(w: nat, f: string): real
    requires AllDigits(f)
  {
    w as real + DigitsValue(f) as real / Pow10(|f|) as real
  }

  /** The first dot of `w.f` is the one after the whole part. */
  lemma DecimalDot(w: nat, f: string)
    requires AllDigits(f)
    ensures var t, n := DecimalText(w, f), |NatToString(w)|;
      Find(t, ".") == Some(n) && t[..n] == NatToString(w) && t[n + 1..] == f
  {
    var tw := NatToString(w);
    var t := DecimalText(w, f);
    var n := |tw|;
    assert OccursAt(t, ".", n) by { assert t[n..n + 1] == "."; }
    forall i | 0 <= i < n ensures !OccursAt(t, ".", i) {
      assert t[i] == tw[i];
      assert t[i..i + 1] == [t[i]];
    }
  }

  /** A decimal `w.f` with surrounding whitespace reads back as its value, as `float` does. */
  lemma ParseFloatOfDecimal(w: nat, f: string, a: string, b: string)
    requires AllDigits(f) && AllSpace(a) && AllSpace(b)
    ensures ParseFloat(a + DecimalText(w, f) + b) == Ok(DecimalOf(w, f))
  {
    var t := DecimalText(w, f);
    DecimalTextShape(w, f);
    StripSurrounded(a, t, b);
    assert SignSplit(t) == (false, t);
    DecimalDot(w, f);
    assert ParseStrippedFloat(t) == Ok(DecimalValue(NatToString(w), f));
  }

  /** A decimal `w.f` on its own reads back as its value. */
  lemma ParseFloatOfDecimalText(w: nat, f: string)
    requires AllDigits(f)
    ensures ParseFloat(DecimalText(w, f)) == Ok(DecimalOf(w, f))
  {
    ParseFloatOfDecimal(w, f, "", "");
    assert "" + DecimalText(w, f) + "" == DecimalText(w, f);
  }

  /** A rendered natural number on its own reads back as that float. */
  lemma ParseFloatOfNatText(n: nat)
    ensures ParseFloat(NatToString(n)) == Ok(n as real)
  {
    ParseFloatOfNat(n, "", "");
    assert "" + NatToString(n) + "" == NatToString(n);
  }
}
