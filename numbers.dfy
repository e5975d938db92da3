/** JavaScript numbers as the helpers use them, with exact reals in place of doubles. */
module Numbers {
  import opened Basics
  import opened Text

  /** A JavaScript number: `NaN`, a finite value, or an infinity. */
  datatype Number = NaN | Finite(r: real) | Infinity(negative: bool)

  function Pow10(n: nat): (r: real)
    ensures r >= 1.0
  {
    if n == 0 then 1.0 else 10.0 * Pow10(n - 1)
  }

  /** `Math.round` on a finite value: the nearest integer, halves going up. */
  function RoundReal(x: real): (k: int)
    ensures x - 0.5 < k as real <= x + 0.5
  {
    (x + 0.5).Floor
  }

  /** `Math.round(n)` */
  function MathRound(n: Number): (r: Number)
    ensures r.Finite? <==> n.Finite?
    ensures r.Finite? ==> r.r == RoundReal(n.r) as real
    ensures !n.Finite? ==> r == n
  {
    match n
    case Finite(x) => Finite(RoundReal(x) as real)
    case _ => n
  }

  /** `String(Math.round(n))`: how a rounded value appears in a template literal. */
  function RoundedText(n: Number): string {
    match n
    case NaN => "NaN"
    case Infinity(neg) => if neg then "-Infinity" else "Infinity"
    case Finite(x) => IntToString(RoundReal(x))
  }

  // ---------------------------------------------------------------- toFixed(2)

  /** The nearest whole number of hundredths to `y`, the larger one on a tie. */
  function Cents(y: real): nat
    requires y >= 0.0
  {
    (y * 100.0 + 0.5).Floor
  }

  lemma CentsBounds(y: real)
    requires y >= 0.0
    ensures y * 100.0 - 0.5 < Cents(y) as real <= y * 100.0 + 0.5
  {
  }

  /** `y` rounded to hundredths. */
  function Hundredths(y: real): real
    requires y >= 0.0
  {
    (Cents(y) as real) / 100.0
  }

  function TwoDigits(n: nat): (r: string)
    requires n < 100
    ensures |r| == 2 && IsDigit(r[0]) && IsDigit(r[1])
    ensures DigitsValue(r) == n
  {
    var r := [DigitChar(n / 10), DigitChar(n % 10)];
    assert r[..1] == [DigitChar(n / 10)];
    assert r[..1][..0] == [];
    assert DigitsValue(r[..1]) == n / 10;
    r
  }

  function Fixed2(y: real): string
    requires y >= 0.0
  {
    var n := Cents(y);
    NatToString(n / 100) + "." + TwoDigits(n % 100)
  }

  /** `n.toFixed(2)` */
  function ToFixed2(n: Number): string {
    match n
    case NaN => "NaN"
    case Infinity(neg) => if neg then "-Infinity" else "Infinity"
    case Finite(x) => if x < 0.0 then "-" + Fixed2(-x) else Fixed2(x)
  }

  /** The value `ToFixed2` prints for a finite `x`: `x` rounded to hundredths, ties away from zero. */
  function Fixed2Value(x: real): real {
    if x < 0.0 then -Hundredths(-x) else Hundredths(x)
  }

  /** The printed value is within half a hundredth of `x`. */
  lemma Fixed2ValueClose(x: real)
    ensures -0.005 <= Fixed2Value(x) - x <= 0.005
  {
    if x < 0.0 { CentsBounds(-x); } else { CentsBounds(x); }
  }

  // ---------------------------------------------------------------- parseFloat

  /** Length of the leading run of decimal digits. */
  function DigitRun(s: string): (n: nat)
    ensures n <= |s|
    ensures forall k :: 0 <= k < n ==> IsDigit(s[k])
    ensures n < |s| ==> !IsDigit(s[n])
  {
    if s == [] || !IsDigit(s[0]) then 0 else 1 + DigitRun(s[1..])
  }

  /** `s` begins with `prefix`; the first characters are compared first, which a
      reader of `parseFloat` relies on to rule out `Infinity` after a digit. */
  predicate StartsWith(s: string, prefix: string) {
    && |prefix| <= |s|
    && (prefix == [] || s[0] == prefix[0])
    && s[..|prefix|] == prefix
  }

  /** The exponent of an `e`/`E` suffix, when one with at least one digit follows. */
  function ExponentOf(s: string): int {
    if |s| < 2 || (s[0] != 'e' && s[0] != 'E') then 0
    else
      var signed := s[1] == '+' || s[1] == '-';
      var digits := if signed then s[2..] else s[1..];
      var k := DigitRun(digits);
      if k == 0 then 0
      else
        var e := DigitsValue(digits[..k]);
        if signed && s[1] == '-' then 0 - e else e
  }

  function Scale(m: real, e: int): real {
    if e == 0 then m else if e > 0 then m * Pow10(e) else m / Pow10(-e)
  }

  /** The longest prefix of `t` that is an unsigned decimal literal, as a number. */
  function ParseUnsigned(t: string): Number {
    if StartsWith(t, "Infinity") then Infinity(false)
    else
      var a := DigitRun(t);
      ParseAfterInteger(DigitsValue(t[..a]) as real, a > 0, t[a..])
  }

  /** The value of the fraction digits `f` after a decimal point. */
  function Fraction(f: string): (v: real)
    requires forall c :: c in f ==> IsDigit(c)
    ensures v >= 0.0
  {
    (DigitsValue(f) as real) / Pow10(|f|)
  }

  /** The rest of a decimal literal once its integer digits (worth `whole`) are read. */
  function ParseAfterInteger(whole: real, hasDigits: bool, rest: string): Number {
    if |rest| > 0 && rest[0] == '.' then
      var f := rest[1..];
      var b := DigitRun(f);
      if !hasDigits && b == 0 then NaN
      else Finite(Scale(whole + Fraction(f[..b]), ExponentOf(f[b..])))
    else if !hasDigits then NaN
    else Finite(Scale(whole, ExponentOf(rest)))
  }

  function Negate(n: Number): Number {
    match n
    case NaN => NaN
    case Finite(x) => Finite(-x)
    case Infinity(neg) => Infinity(!neg)
  }

  /** `parseFloat(s)`: skip leading whitespace, read an optional sign and the longest
      decimal literal (or `Infinity`); `NaN` when there is none. */
  function ParseFloat(s: string): Number {
    var t := s[LeadingSpaces(s)..];
    if |t| > 0 && t[0] == '-' then Negate(ParseUnsigned(t[1..]))
    else if |t| > 0 && t[0] == '+' then ParseUnsigned(t[1..])
    else ParseUnsigned(t)
  }

  /** Text without a digit never reads as a finite number. */
  lemma ParseFloatNeedsDigit(s: string)
    requires forall c :: c in s ==> !IsDigit(c)
    ensures !ParseFloat(s).Finite?
  {
    var t := s[LeadingSpaces(s)..];
    var u := if |t| > 0 && (t[0] == '-' || t[0] == '+') then t[1..] else t;
    assert forall k :: 0 <= k < |u| ==> u[k] in s;
    if |u| > 0 { assert !IsDigit(u[0]); }
    assert DigitRun(u) == 0;
    var rest := u[0..];
    if |rest| > 1 && rest[0] == '.' {
      assert !IsDigit(rest[1..][0]);
    }
  }

  // ---------------------------------------------------------------- parseFloat reads back toFixed(2)

  lemma {:induction false} DigitRunOfDigits(d: string, rest: string)
    requires forall c :: c in d ==> IsDigit(c)
    requires rest == [] || !IsDigit(rest[0])
    ensures DigitRun(d + rest) == |d|
  {
    if d != [] {
      assert (d + rest)[1..] == d[1..] + rest;
      assert d[0] in d;
      DigitRunOfDigits(d[1..], rest);
    } else {
      assert d + rest == rest;
    }
  }

  /** The integer digits of a literal are read up to the first character that is not one. */
  lemma ParseUnsignedDigits(t: string, q: string, rest: string)
    requires t == q + rest
    requires |q| >= 1 && forall c :: c in q ==> IsDigit(c)
    requires rest == [] || !IsDigit(rest[0])
    ensures ParseUnsigned(t) == ParseAfterInteger(DigitsValue(q) as real, true, rest)
  {
    assert q[0] in q;
    assert t[0] == q[0];
    DigitRunOfDigits(q, rest);
    ParseUnsignedDigitFirst(t);
    assert t[..|q|] == q;
    assert t[|q|..] == rest;
  }

  /** A literal that starts with a digit is not `Infinity`: its digits are read first. */
  lemma ParseUnsignedDigitFirst(t: string)
    requires t != [] && IsDigit(t[0])
    ensures var a := DigitRun(t);
      ParseUnsigned(t) == ParseAfterInteger(DigitsValue(t[..a]) as real, a > 0, t[a..])
  {
    assert !StartsWith(t, "Infinity");
  }

  /** A point and digits after the integer digits add the fraction they spell. */
  lemma AfterIntegerFraction(whole: real, f: string, rest: string)
    requires rest == "." + f
    requires forall c :: c in f ==> IsDigit(c)
    ensures ParseAfterInteger(whole, true, rest) == Finite(whole + Fraction(f))
  {
    assert rest[1..] == f;
    assert f + "" == f;
    DigitRunOfDigits(f, "");
    assert f[..|f|] == f;
    assert f[|f|..] == "";
    assert ExponentOf("") == 0;
  }

  lemma Fixed2Reads(y: real)
    requires y >= 0.0
    ensures ParseUnsigned(Fixed2(y)) == Finite(Hundredths(y))
  {
    var n := Cents(y);
    var q := NatToString(n / 100);
    var two := TwoDigits(n % 100);
    var rest := "." + two;
    assert Fixed2(y) == q + rest;
    assert forall c :: c in two ==> IsDigit(c);
    ParseUnsignedDigits(Fixed2(y), q, rest);
    AfterIntegerFraction(DigitsValue(q) as real, two, rest);
    NatToStringValue(n / 100);
    CentsAdd(n, two);
  }

  /** Whole units and the two digits of hundredths add back to the hundredths. */
  lemma CentsAdd(n: nat, two: string)
    requires |two| == 2 && IsDigit(two[0]) && IsDigit(two[1]) && DigitsValue(two) == n % 100
    ensures forall c :: c in two ==> IsDigit(c)
    ensures (n / 100) as real + Fraction(two) == (n as real) / 100.0
  {
    assert Pow10(2) == 100.0;
    assert Fraction(two) == ((n % 100) as real) / 100.0;
  }

  /** Text that starts with a digit is read as an unsigned literal. */
  lemma ParseFloatDigitFirst(s: string)
    requires s != [] && IsDigit(s[0])
    ensures ParseFloat(s) == ParseUnsigned(s)
  {
    VisibleNotSpace(s[0]);
    assert LeadingSpaces(s) == 0;
    assert s[0..] == s;
  }

  /** A minus sign before a digit negates the literal. */
  lemma ParseFloatMinus(u: string)
    requires u != [] && IsDigit(u[0])
    ensures ParseFloat("-" + u) == Negate(ParseUnsigned(u))
  {
    var s := "-" + u;
    VisibleNotSpace(s[0]);
    assert LeadingSpaces(s) == 0;
    assert s[0..] == s;
    assert s[1..] == u;
  }

  /** The text of `Fixed2(y)` starts with a digit. */
  lemma Fixed2DigitFirst(y: real)
    requires y >= 0.0
    ensures Fixed2(y) != [] && IsDigit(Fixed2(y)[0])
  {
    var q := NatToString(Cents(y) / 100);
    assert q[0] in q;
    assert Fixed2(y)[0] == q[0];
  }

  /** Reading the text `toFixed(2)` prints gives back the rounded value. */
  lemma ParseFloatReadsToFixed2(x: real)
    ensures ParseFloat(ToFixed2(Finite(x))) == Finite(Fixed2Value(x))
  {
    var s := ToFixed2(Finite(x));
    if x < 0.0 {
      ReadsNegativeFixed2(s, -x);
    } else {
      ReadsFixed2(s, x);
    }
  }

  lemma ReadsFixed2(s: string, y: real)
    requires y >= 0.0 && s == Fixed2(y)
    ensures ParseFloat(s) == Finite(Hundredths(y))
  {
    Fixed2DigitFirst(y);
    ParseFloatDigitFirst(s);
    Fixed2Reads(y);
  }

  lemma ReadsNegativeFixed2(s: string, y: real)
    requires y > 0.0 && s == "-" + Fixed2(y)
    ensures ParseFloat(s) == Finite(-Hundredths(y))
  {
    Fixed2DigitFirst(y);
    ParseFloatMinus(Fixed2(y));
    Fixed2Reads(y);
  }

  /** Rounding to hundredths twice changes nothing. */
  lemma Fixed2ValueIdempotent(x: real)
    ensures Fixed2Value(Fixed2Value(x)) == Fixed2Value(x)
    ensures x >= 0.0 ==> ToFixed2(Finite(Fixed2Value(x))) == ToFixed2(Finite(x))
  {
    var y := if x < 0.0 then -x else x;
    var n := Cents(y);
    CentsBounds((n as real) / 100.0);
    assert Cents((n as real) / 100.0) == n;
  }
}
