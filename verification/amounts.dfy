/** Donation amounts. The form keeps its amount as a JavaScript number, read from the custom
    amount field with `parseFloat` and written into payment links with `${amount}`. Here an
    amount is the exact decimal it was typed as, `units / 10^scale`, kept in lowest terms;
    for the amounts a donor types, which have few significant digits, a double and its
    decimal text carry exactly this value. */
module Amounts {
  import opened Text

  function Pow10(n: nat): (p: nat)
    ensures p >= 1
  {
    if n == 0 then 1 else 10 * Pow10(n - 1)
  }

  /** The value `units / 10^scale`. */
  datatype Decimal = Decimal(units: int, scale: nat)

  /** In lowest terms: no trailing zero after the point. */
  predicate Normal(d: Decimal) {
    d.scale == 0 || d.units % 10 != 0
  }

  /** `a` and `b` denote the same number. */
  predicate SameValue(a: Decimal, b: Decimal) {
    a.units * Pow10(b.scale) == b.units * Pow10(a.scale)
  }

  function Whole(n: int): (d: Decimal)
    ensures Normal(d)
  {
    Decimal(n, 0)
  }

  /** `amount > 0` */
  predicate Positive(d: Decimal) {
    d.units > 0
  }

  /** Drops trailing zeros after the point. */
  function Normalize(units: int, scale: nat): (d: Decimal)
    ensures Normal(d)
    ensures (scale == 0 || units % 10 != 0) ==> d == Decimal(units, scale)
    decreases scale
  {
    if scale > 0 && units % 10 == 0 then Normalize(units / 10, scale - 1) else Decimal(units, scale)
  }

  /** Multiplying both sides of `u * p == q * r` by ten. */
  lemma TimesTen(u: int, p: int, q: int, r: int)
    requires u * p == q * r
    ensures u * (10 * p) == (q * 10) * r
  {
    calc {
      u * (10 * p);
      10 * (u * p);
      10 * (q * r);
      (q * 10) * r;
    }
  }

  lemma {:induction false} NormalizeSameValue(units: int, scale: nat)
    ensures SameValue(Normalize(units, scale), Decimal(units, scale))
    decreases scale
  {
    if scale > 0 && units % 10 == 0 {
      var q := units / 10;
      NormalizeSameValue(q, scale - 1);
      var d := Normalize(q, scale - 1);
      assert units == q * 10;
      assert Pow10(scale) == 10 * Pow10(scale - 1);
      TimesTen(d.units, Pow10(scale - 1), q, Pow10(d.scale));
    }
  }

  /** The length of the sign `parseFloat` accepts at the head of `t`. */
  function SignLength(t: string): (n: nat)
    ensures n <= 1 && n <= |t|
  {
    if t != [] && (t[0] == '-' || t[0] == '+') then 1 else 0
  }

  /** The number of fraction digits after a point at `j`, if there is one. */
  function FractionLength(t: string, j: nat): (n: nat)
    requires j <= |t|
    ensures n > 0 ==> j < |t| && t[j] == '.' && j + 1 + n <= |t|
  {
    if j < |t| && t[j] == '.' then SpanLen(t, j + 1, IsDigit) else 0
  }

  /** The number read from the head of a text with no leading space. */
  function ParseNumber(t: string): (r: Option<Decimal>)
    ensures r.Some? ==> Normal(r.value)
  {
    var i := SignLength(t);
    var a := SpanLen(t, i, IsDigit);
    var b := FractionLength(t, i + a);
    if a == 0 && b == 0 then None
    else
      var m: int := DigitsValue(t[i..i + a] + (if b > 0 then t[i + a + 1..i + a + 1 + b] else []));
      Some(Normalize(if i == 1 && t[0] == '-' then -m else m, b))
  }

  /** `parseFloat(s)`, `None` standing for `NaN`: leading spaces skipped, then the longest
      prefix of the form `[+-]? digits [. digits]` or `[+-]? . digits`. */
  function ParseFloat(s: string): (r: Option<Decimal>)
    ensures r.Some? ==> Normal(r.value)
  {
    ParseNumber(TrimStart(s))
  }

  /** `n` written with exactly `w` digits, zeros in front. */
  function Padded(n: nat, w: nat): (t: string)
    ensures |t| == w && forall i :: 0 <= i < w ==> IsDigit(t[i])
  {
    if w == 0 then [] else Padded(n / 10, w - 1) + [DigitChar(n % 10)]
  }

  lemma DigitOfChar(d: nat)
    requires d < 10
    ensures DigitValue(DigitChar(d)) == d
  {
  }

  lemma {:induction false} PaddedValue(n: nat, w: nat)
    requires n < Pow10(w)
    ensures DigitsValue(Padded(n, w)) == n
  {
    if w > 0 {
      assert n / 10 < Pow10(w - 1);
      PaddedValue(n / 10, w - 1);
      var t := Padded(n, w);
      assert t[..|t| - 1] == Padded(n / 10, w - 1);
      DigitOfChar(n % 10);
    }
  }

  lemma Regroup(a: int, q: int, b: int, c: int)
    ensures (a * q + b) * 10 + c == a * (q * 10) + (b * 10 + c)
  {
    calc {
      (a * q + b) * 10 + c;
      (a * q) * 10 + b * 10 + c;
      a * (q * 10) + (b * 10 + c);
    }
  }

  lemma {:induction false} DigitsValueAppend(x: string, y: string)
    ensures DigitsValue(x + y) == DigitsValue(x) * Pow10(|y|) + DigitsValue(y)
    decreases |y|
  {
    if y != [] {
      var y' := y[..|y| - 1];
      assert (x + y)[..|x + y| - 1] == x + y';
      DigitsValueAppend(x, y');
      var a, q, b, c := DigitsValue(x), Pow10(|y'|), DigitsValue(y'), DigitValue(y[|y| - 1]);
      assert DigitsValue(x + y) == (a * q + b) * 10 + c;
      Regroup(a, q, b, c);
      assert y[..|y| - 1] == y';
    } else {
      assert x + y == x;
    }
  }

  function SignText(negative: bool): string {
    if negative then "-" else ""
  }

  /** The sign and the magnitude of a decimal's units. */
  function Magnitude(d: Decimal): (m: nat)
    ensures d.units == (if d.units < 0 then -(m as int) else m)
  {
    if d.units < 0 then -d.units else d.units
  }

  /** Euclidean division by a positive divisor. */
  lemma DivMod(m: nat, p: nat)
    requires p >= 1
    ensures m / p >= 0 && 0 <= m % p < p && m == (m / p) * p + m % p
  {
  }

  /** `${amount}`: the sign, the whole part, and the fractional part padded to the scale. */
  function AmountText(d: Decimal): (t: string)
    ensures t != [] && (t[0] == '-' <==> d.units < 0)
    ensures d.scale == 0 ==> '.' !in t
    ensures d.scale > 0 ==> |t| > d.scale + 1 && t[|t| - d.scale - 1] == '.' && AllDigits(t[|t| - d.scale..])
  {
    var m := Magnitude(d);
    if d.scale == 0 then SignText(d.units < 0) + NatText(m)
    else
      var p := Pow10(d.scale);
      DivMod(m, p);
      SignText(d.units < 0) + NatText(m / p) + "." + Padded(m % p, d.scale)
  }

  /** The sign of a signed digit string is what `parseFloat` reads as its sign. */
  lemma {:induction false} SignRead(t: string, negative: bool)
    requires |SignText(negative)| < |t| && t[..|SignText(negative)|] == SignText(negative)
    requires IsDigit(t[|SignText(negative)|])
    ensures SignLength(t) == |SignText(negative)|
    ensures (SignLength(t) == 1 && t[0] == '-') == negative
  {
    if negative {
      assert t[0] == t[..1][0];
    }
  }

  /** What `parseFloat` reads from a text with no leading space: a sign, the digits
      `whole`, and then, when `frac` is not empty, a point followed by the digits `frac`. */
  lemma {:induction false} ParseShape(t: string, negative: bool, whole: string, frac: string)
    requires whole != [] && |SignText(negative)| + |whole| <= |t|
    requires SignLength(t) == |SignText(negative)|
    requires (SignLength(t) == 1 && t[0] == '-') == negative
    requires SpanLen(t, |SignText(negative)|, IsDigit) == |whole|
    requires t[|SignText(negative)|..|SignText(negative)| + |whole|] == whole
    requires FractionLength(t, |SignText(negative)| + |whole|) == |frac|
    requires var j := |SignText(negative)| + |whole|;
      frac != [] ==> t[j + 1..j + 1 + |frac|] == frac
    ensures var v: int := DigitsValue(whole + frac);
      ParseNumber(t) == Some(Normalize(if negative then -v else v, |frac|))
  {
    if frac == [] {
      assert whole + frac == whole + [];
    }
  }

  /** `t` without leading space whose digits run over `[i, j)`. */
  lemma {:induction false} DigitsWithin(t: string, negative: bool, whole: string, j: nat)
    requires whole != [] && AllDigits(whole)
    requires j == |SignText(negative)| + |whole| <= |t|
    requires t[..j] == SignText(negative) + whole
    ensures forall k :: |SignText(negative)| <= k < j ==> IsDigit(t[k])
    ensures SignLength(t) == |SignText(negative)|
    ensures (SignLength(t) == 1 && t[0] == '-') == negative
    ensures t[|SignText(negative)|..j] == whole
    ensures !IsSpace(t[0])
  {
    var i := |SignText(negative)|;
    assert t[i..j] == t[..j][i..] == whole;
    forall k | i <= k < j ensures IsDigit(t[k]) {
      assert t[k] == t[i..j][k - i];
    }
    assert t[..i] == t[..j][..i] == SignText(negative);
    SignRead(t, negative);
  }

  /** A text that does not start with a space is its own `trimStart`. */
  lemma {:induction false} NoLeadingSpace(t: string)
    requires t != [] && !IsSpace(t[0])
    ensures ParseFloat(t) == ParseNumber(t)
  {
    TrimStartSpaces([], t);
    assert [] + t == t;
  }

  /** A text after which `parseFloat` stops reading: nothing, or a character that can
      neither continue the digits nor start a fraction. */
  predicate StopsNumber(rest: string) {
    rest == [] || (!IsDigit(rest[0]) && rest[0] != '.')
  }

  /** The parts `parseFloat` finds in signed digits followed by a text that stops the
      number. */
  lemma {:induction false} WholeParts(t: string, negative: bool, whole: string, rest: string)
    requires whole != [] && AllDigits(whole) && StopsNumber(rest)
    requires t == SignText(negative) + whole + rest
    ensures var j := |SignText(negative)| + |whole|;
      && j <= |t| && !IsSpace(t[0])
      && SignLength(t) == |SignText(negative)|
      && (SignLength(t) == 1 && t[0] == '-') == negative
      && SpanLen(t, |SignText(negative)|, IsDigit) == |whole|
      && t[|SignText(negative)|..j] == whole
      && FractionLength(t, j) == 0
  {
    var head := SignText(negative) + whole;
    var j := |head|;
    assert t[..j] == head;
    DigitsWithin(t, negative, whole, j);
    assert j < |t| ==> t[j] == rest[0];
    DigitRun(t, |SignText(negative)|, |whole|);
  }

  /** A signed whole number reads back as its value, whatever stops it. */
  lemma {:induction false} ParseSignedWhole(negative: bool, whole: string, rest: string)
    requires whole != [] && AllDigits(whole) && StopsNumber(rest)
    ensures var v: int := DigitsValue(whole);
      ParseFloat(SignText(negative) + whole + rest) == Some(Normalize(if negative then -v else v, 0))
  {
    var t := SignText(negative) + whole + rest;
    WholeParts(t, negative, whole, rest);
    NoLeadingSpace(t);
    ParseShape(t, negative, whole, []);
    assert whole + [] == whole;
  }

  /** The parts `parseFloat` finds in signed digits followed by a point, more digits and
      then a text that stops the number. */
  lemma {:induction false} FractionParts(t: string, negative: bool, whole: string, frac: string, rest: string)
    requires whole != [] && AllDigits(whole) && frac != [] && AllDigits(frac)
    requires rest == [] || !IsDigit(rest[0])
    requires t == SignText(negative) + whole + "." + frac + rest
    ensures var j := |SignText(negative)| + |whole|;
      && j < |t| && !IsSpace(t[0])
      && SignLength(t) == |SignText(negative)|
      && (SignLength(t) == 1 && t[0] == '-') == negative
      && SpanLen(t, |SignText(negative)|, IsDigit) == |whole|
      && t[|SignText(negative)|..j] == whole
      && FractionLength(t, j) == |frac|
      && t[j + 1..j + 1 + |frac|] == frac
  {
    var head := SignText(negative) + whole;
    var j := |head|;
    assert t[..j] == head;
    DigitsWithin(t, negative, whole, j);
    assert t[j] == '.';
    DigitRun(t, |SignText(negative)|, |whole|);
    var e := j + 1 + |frac|;
    assert t[j + 1..e] == frac;
    forall k | j + 1 <= k < e ensures IsDigit(t[k]) {
      assert t[k] == frac[k - j - 1];
    }
    assert e < |t| ==> t[e] == rest[0];
    DigitRun(t, j + 1, |frac|);
  }

  /** Signed digits with a fraction read back as their value, scaled by the length of the
      fraction, whatever non-digit follows them. */
  lemma {:induction false} ParseSignedFraction(negative: bool, whole: string, frac: string, rest: string)
    requires whole != [] && AllDigits(whole) && frac != [] && AllDigits(frac)
    requires rest == [] || !IsDigit(rest[0])
    ensures var v: int := DigitsValue(whole + frac);
      ParseFloat(SignText(negative) + whole + "." + frac + rest)
        == Some(Normalize(if negative then -v else v, |frac|))
  {
    var t := SignText(negative) + whole + "." + frac + rest;
    FractionParts(t, negative, whole, frac, rest);
    NoLeadingSpace(t);
    ParseShape(t, negative, whole, frac);
  }

  /** The whole part and the padded fraction of `m / 10^scale` put back together read as `m`. */
  lemma {:induction false} SplitDigitsValue(m: nat, scale: nat)
    ensures Pow10(scale) >= 1
    ensures m / Pow10(scale) >= 0
    ensures DigitsValue(NatText(m / Pow10(scale)) + Padded(m % Pow10(scale), scale)) == m
  {
    var p := Pow10(scale);
    DivMod(m, p);
    DigitsValueAppend(NatText(m / p), Padded(m % p, scale));
    NatTextRoundTrip(m / p);
    PaddedValue(m % p, scale);
  }

  lemma WholeText(d: Decimal)
    requires d.scale == 0
    ensures AmountText(d) == SignText(d.units < 0) + NatText(Magnitude(d))
  {
  }

  lemma {:induction false} WholeTextRoundTrip(d: Decimal, rest: string)
    requires d.scale == 0 && StopsNumber(rest)
    ensures ParseFloat(AmountText(d) + rest) == Some(d)
  {
    var m := Magnitude(d);
    var t := NatText(m);
    WholeText(d);
    ParseSignedWhole(d.units < 0, t, rest);
    NatTextRoundTrip(m);
    assert Normalize(d.units, 0) == d;
  }

  lemma {:induction false} FractionTextRoundTrip(d: Decimal, rest: string)
    requires d.scale > 0 && Normal(d) && StopsNumber(rest)
    ensures ParseFloat(AmountText(d) + rest) == Some(d)
  {
    var m := Magnitude(d);
    var p := Pow10(d.scale);
    SplitDigitsValue(m, d.scale);
    var whole := NatText(m / p);
    var frac := Padded(m % p, d.scale);
    assert AmountText(d) + rest == SignText(d.units < 0) + whole + "." + frac + rest;
    ParseSignedFraction(d.units < 0, whole, frac, rest);
  }

  /** Reading the text of an amount back with `parseFloat` gives the amount, also when a
      text that stops the number follows it. */
  lemma {:induction false} AmountTextRoundTrip(d: Decimal, rest: string)
    requires Normal(d) && StopsNumber(rest)
    ensures ParseFloat(AmountText(d) + rest) == Some(d)
  {
    if d.scale == 0 {
      WholeTextRoundTrip(d, rest);
    } else {
      FractionTextRoundTrip(d, rest);
    }
  }
}
