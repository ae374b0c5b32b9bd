/**
 * ECMAScript's ToNumber applied to a string (section 7.1.4.1.1,
 * StringToNumber, of ECMA-262), which a relational comparison such as
 * `Date.now() > expiresAt` performs when `expiresAt` is a string: white
 * space is trimmed, an empty text is 0, `0x`/`0o`/`0b` introduce a
 * hexadecimal, octal or binary integer, `Infinity` may carry a sign, and a
 * decimal literal has an optional sign, fraction and exponent. Anything else
 * is NaN, which compares false. The value is kept exact, as
 * sign, mantissa and power of ten.
 */
module JsNumber {
  import opened Wrappers
  import opened Strings

  /** The digits of a mantissa as one integer, and how many of them follow the point. */
  datatype Digits = Digits(value: nat, places: nat)

  /** An unsigned decimal literal: its digits as one integer, times ten to `exponent`. */
  datatype Literal = Literal(digits: nat, exponent: int)

  /** A Number from a string: `(-1)^negative * mantissa * 10^exponent`, an infinity, or NaN. */
  datatype Number = Finite(negative: bool, mantissa: nat, exponent: int) | Infinite(negative: bool) | NaN

  /** The value of a character as a digit of bases up to 36; 36 for a character that is no digit. */
  function DigitIn(c: char): (d: nat)
    ensures d <= 36
    ensures IsDigit(c) ==> d == c as int - '0' as int
  {
    if IsDigit(c) then c as int - '0' as int
    else if 'a' <= c <= 'z' then c as int - 'a' as int + 10
    else if 'A' <= c <= 'Z' then c as int - 'A' as int + 10
    else 36
  }

  predicate AllInBase(s: string, base: nat) {
    forall i :: 0 <= i < |s| ==> DigitIn(s[i]) < base
  }

  /** The value of a numeral in `base`. */
  function BaseValue(s: string, base: nat): nat
    requires AllInBase(s, base)
  {
    if s == [] then 0 else base * BaseValue(s[..|s| - 1], base) + DigitIn(s[|s| - 1])
  }

  /** The position of the first character that is `a` or `b`, or the length when there is none. */
  function IndexOfEither(s: string, a: char, b: char): (r: nat)
    ensures r <= |s|
    ensures r < |s| ==> s[r] == a || s[r] == b
  {
    if s == [] then 0
    else if s[0] == a || s[0] == b then 0
    else 1 + IndexOfEither(s[1..], a, b)
  }

  /** The base a `0x`, `0o` or `0b` prefix names, or 0 for a text without one. */
  function RadixPrefix(t: string): (base: nat)
    ensures base in {0, 2, 8, 16}
  {
    if |t| < 2 || t[0] != '0' then 0
    else if t[1] == 'x' || t[1] == 'X' then 16
    else if t[1] == 'o' || t[1] == 'O' then 8
    else if t[1] == 'b' || t[1] == 'B' then 2
    else 0
  }

  /** DecimalDigits with an optional sign, as after the `e` of an exponent. */
  function SignedDigits(e: string): (r: Option<int>)
    ensures r.Some? && e != [] && e[0] != '+' && e[0] != '-' ==> AllDigits(e) && r.value == DigitsValue(e)
  {
    if e != [] && (e[0] == '+' || e[0] == '-') then
      var d := e[1..];
      if d != [] && AllDigits(d) then
        var v: int := DigitsValue(d);
        Some(if e[0] == '-' then -v else v)
      else None
    else if e != [] && AllDigits(e) then Some(DigitsValue(e))
    else None
  }

  /**
   * The digits of a decimal literal before its exponent: an integer part, an
   * optional point and a fraction, not both parts empty. The result is the
   * value of all the digits and the number of fraction digits.
   */
  function DecimalMantissa(m: string): Option<Digits> {
    var d := IndexOfEither(m, '.', '.');
    if d < |m| then Mantissa(m[..d], m[d + 1..]) else Mantissa(m, [])
  }

  /** The integer part and the fraction of a mantissa, both digits and not both empty. */
  function Mantissa(whole: string, fraction: string): Option<Digits> {
    if !AllDigits(whole) || !AllDigits(fraction) || (whole == [] && fraction == []) then None
    else Some(Digits(DigitsValue(whole) * Pow10(|fraction|) + DigitsValue(fraction), |fraction|))
  }

  /**
   * StrUnsignedDecimalLiteral other than Infinity: a mantissa and an
   * optional exponent. The result is the mantissa's digits and the power of
   * ten they are scaled by.
   */
  function UnsignedDecimal(u: string): Option<Literal> {
    var k := IndexOfEither(u, 'e', 'E');
    Scaled(DecimalMantissa(u[..k]), if k < |u| then SignedDigits(u[k + 1..]) else Some(0))
  }

  /** The mantissa's digits over ten to the fraction's length, times ten to the exponent. */
  function Scaled(mantissa: Option<Digits>, exponent: Option<int>): Option<Literal> {
    if mantissa.None? || exponent.None? then None
    else Some(Literal(mantissa.value.value, exponent.value - mantissa.value.places))
  }

  /** StringToNumber: the trimmed text as a numeric literal; a blank text is zero. */
  function StringToNumber(s: string): (n: Number)
    ensures IsBlank(s) ==> n == Finite(false, 0, 0)
  {
    ReadTrimmed(Trim(s))
  }

  /** A trimmed text as a numeric literal: 0 when it is empty, NaN when it is none. */
  function ReadTrimmed(t: string): Number {
    var base := RadixPrefix(t);
    if t == [] then Finite(false, 0, 0)
    else if base != 0 then
      var digits := t[2..];
      if digits != [] && AllInBase(digits, base) then Finite(false, BaseValue(digits, base), 0) else NaN
    else
      var negative := t[0] == '-';
      var u := if t[0] == '+' || t[0] == '-' then t[1..] else t;
      if u == "Infinity" then Infinite(negative) else Signed(negative, UnsignedDecimal(u))
  }

  /** A decimal literal's value with its sign, or NaN when there is no literal. */
  function Signed(negative: bool, literal: Option<Literal>): Number {
    match literal
    case None => NaN
    case Some(v) => Finite(negative, v.digits, v.exponent)
  }

  /** `now > x` for an integer `now` and a Number `x`; every comparison with NaN is false. */
  predicate Exceeds(now: int, x: Number) {
    match x
    case NaN => false
    case Infinite(negative) => negative
    case Finite(negative, m, e) =>
      var magnitude := if e >= 0 then m * Pow10(e) else m;
      var scale := if e >= 0 then 1 else Pow10(-e);
      now * scale > (if negative then -magnitude else magnitude)
  }

  /** A text that neither starts nor ends with white space is its own trim. */
  lemma TrimOfUntrimmed(s: string)
    requires s != [] && !IsWhitespace(s[0]) && !IsWhitespace(s[|s| - 1])
    ensures Trim(s) == s
  {
    assert TrimStart(s) == s;
  }

  /** A non-empty text of decimal digits reads as its value. */
  lemma DigitsRead(s: string)
    requires s != [] && AllDigits(s)
    ensures StringToNumber(s) == Finite(false, DigitsValue(s), 0)
  {
    assert IsDigit(s[0]) && IsDigit(s[|s| - 1]);
    TrimOfUntrimmed(s);
    assert |s| >= 2 ==> IsDigit(s[1]);
    assert RadixPrefix(s) == 0;
    assert s != "Infinity";
    DigitsAsUnsigned(s);
  }

  /** A non-empty text of decimal digits is an unsigned decimal literal without fraction or exponent. */
  lemma DigitsAsUnsigned(s: string)
    requires s != [] && AllDigits(s)
    ensures UnsignedDecimal(s) == Some(Literal(DigitsValue(s), 0))
  {
    DigitsHaveNo(s, 'e', 'E');
    assert s[..|s|] == s;
    DigitsMantissa(s);
  }

  lemma DigitsMantissa(s: string)
    requires s != [] && AllDigits(s)
    ensures DecimalMantissa(s) == Some(Digits(DigitsValue(s), 0))
  {
    DigitsHaveNo(s, '.', '.');
    assert s[..|s|] == s;
  }

  lemma DigitsHaveNo(s: string, a: char, b: char)
    requires AllDigits(s) && !IsDigit(a) && !IsDigit(b)
    ensures IndexOfEither(s, a, b) == |s|
  {
    var r := IndexOfEither(s, a, b);
    if r < |s| {
      assert false;
    }
  }

  /** A minus sign and a non-empty text of digits read as the negated value. */
  lemma NegativeDigitsRead(s: string)
    requires s != [] && AllDigits(s)
    ensures StringToNumber("-" + s) == Finite(true, DigitsValue(s), 0)
  {
    var t := "-" + s;
    assert t[|t| - 1] == s[|s| - 1] && IsDigit(s[|s| - 1]);
    TrimOfUntrimmed(t);
    assert t[1..] == s;
    assert s != "Infinity" by {
      assert IsDigit(s[0]);
    }
    DigitsAsUnsigned(s);
  }

  /** The decimal text of an integer, as `toString()` writes it, reads back as that integer. */
  lemma IntTextRoundTrip(n: int, now: int)
    ensures Exceeds(now, StringToNumber(IntToString(n))) <==> now > n
  {
    if n >= 0 {
      DigitsRead(NatToString(n));
    } else {
      NegativeDigitsRead(NatToString(-n));
    }
  }

  /** A sign is part of the literal: "-5" is minus five, so every non-negative clock is past it. */
  lemma NegativeText(now: int)
    ensures Exceeds(now, StringToNumber("-5")) <==> now > -5
  {
    assert "-5" == "-" + "5";
    assert DigitsValue("5") == 5;
    NegativeDigitsRead("5");
  }

  /** A trimmed text that starts with a digit and has no radix prefix is read as an unsigned decimal. */
  lemma UnsignedRead(t: string)
    requires t != [] && IsDigit(t[0]) && !IsWhitespace(t[|t| - 1]) && RadixPrefix(t) == 0
    ensures StringToNumber(t) == Signed(false, UnsignedDecimal(t))
  {
    TrimOfUntrimmed(t);
    assert t != "Infinity";
  }

  /** Without an `e`, a decimal literal is its mantissa alone. */
  lemma NoExponent(u: string)
    requires IndexOfEither(u, 'e', 'E') == |u|
    ensures UnsignedDecimal(u) == Scaled(DecimalMantissa(u), Some(0))
  {
    assert u[..|u|] == u;
  }

  /** With an `e` at `k`, a decimal literal is the mantissa before it scaled by the exponent after it. */
  lemma ExponentAt(u: string, k: nat)
    requires k < |u| && IndexOfEither(u, 'e', 'E') == k
    ensures UnsignedDecimal(u) == Scaled(DecimalMantissa(u[..k]), SignedDigits(u[k + 1..]))
  {
  }

  /** In digits, a separator and more text, the separator is the first of its kind after the digits. */
  lemma SeparatorSplit(a: string, c: char, x: char, y: char, b: string)
    requires AllDigits(a) && !IsDigit(x) && !IsDigit(y) && (c == x || c == y)
    ensures IndexOfEither(a + [c] + b, x, y) == |a|
    ensures (a + [c] + b)[..|a|] == a && (a + [c] + b)[|a| + 1..] == b
  {
    assert a + [c] + b == a + ([c] + b);
    DigitsHaveNo(a, x, y);
    IndexOfEitherPrefix(a, [c] + b, x, y);
  }

  lemma UnsignedExponent(e: string)
    requires e != [] && AllDigits(e)
    ensures SignedDigits(e) == Some(DigitsValue(e) as int)
  {
    assert IsDigit(e[0]);
  }

  lemma ExponentDecimal(a: string, b: string)
    requires a != [] && AllDigits(a) && b != [] && AllDigits(b)
    ensures UnsignedDecimal(a + "e" + b) == Some(Literal(DigitsValue(a), DigitsValue(b)))
  {
    var t := a + "e" + b;
    SeparatorSplit(a, 'e', 'e', 'E', b);
    ExponentAt(t, |a|);
    DigitsMantissa(a);
    UnsignedExponent(b);
    assert UnsignedDecimal(t) == Scaled(DecimalMantissa(a), SignedDigits(b));
  }

  /** Digits, `e` and digits read as the first digits scaled by ten to the second. */
  lemma ExponentRead(a: string, b: string)
    requires a != [] && AllDigits(a) && b != [] && AllDigits(b)
    ensures StringToNumber(a + "e" + b) == Finite(false, DigitsValue(a), DigitsValue(b))
  {
    var t := a + "e" + b;
    assert t[0] == a[0] && IsDigit(a[0]);
    assert t[|t| - 1] == b[|b| - 1] && IsDigit(b[|b| - 1]);
    assert |t| >= 2 ==> t[1] == (if |a| >= 2 then a[1] else 'e');
    UnsignedRead(t);
    ExponentDecimal(a, b);
  }

  /** The first match in a prefix that has none is found in what follows it. */
  lemma IndexOfEitherPrefix(p: string, q: string, a: char, b: char)
    requires IndexOfEither(p, a, b) == |p|
    ensures IndexOfEither(p + q, a, b) == |p| + IndexOfEither(q, a, b)
  {
    if p != [] {
      assert (p + q)[1..] == p[1..] + q;
      IndexOfEitherPrefix(p[1..], q, a, b);
    } else {
      assert p + q == q;
    }
  }

  /** An exponent scales the mantissa: "1e3" is one thousand. */
  lemma ExponentText(now: int)
    ensures Exceeds(now, StringToNumber("1e3")) <==> now > 1000
  {
    ThousandRead();
    assert Pow10(3) == 1000;
  }

  lemma ThousandRead()
    ensures StringToNumber("1e3") == Finite(false, 1, 3)
  {
    assert "1e3" == "1" + "e" + "3";
    assert DigitsValue("1") == 1 && DigitsValue("3") == 3;
    ExponentRead("1", "3");
  }

  /** Digits, a point and digits hold no `e`. */
  lemma FractionHasNoExponent(a: string, b: string)
    requires AllDigits(a) && AllDigits(b)
    ensures IndexOfEither(a + "." + b, 'e', 'E') == |a + "." + b|
  {
    assert a + "." + b == a + ("." + b);
    DigitsHaveNo(a, 'e', 'E');
    DigitsHaveNo(b, 'e', 'E');
    IndexOfEitherPrefix(".", b, 'e', 'E');
    IndexOfEitherPrefix(a, "." + b, 'e', 'E');
  }

  lemma FractionDecimal(a: string, b: string)
    requires a != [] && AllDigits(a) && b != [] && AllDigits(b)
    ensures UnsignedDecimal(a + "." + b) == Scaled(Some(Digits(DigitsValue(a) * Pow10(|b|) + DigitsValue(b), |b|)), Some(0))
  {
    var t := a + "." + b;
    FractionHasNoExponent(a, b);
    NoExponent(t);
    FractionMantissa(a, b);
  }

  lemma UnscaledMantissa(digits: nat, places: nat)
    ensures Scaled(Some(Digits(digits, places)), Some(0)) == Some(Literal(digits, -(places as int)))
  {
  }

  /** With a point at `d`, a mantissa is the integer part before it and the fraction after it. */
  lemma PointAt(m: string, d: nat)
    requires d < |m| && IndexOfEither(m, '.', '.') == d
    ensures DecimalMantissa(m) == Mantissa(m[..d], m[d + 1..])
  {
  }

  lemma FractionMantissa(a: string, b: string)
    requires AllDigits(a) && AllDigits(b) && (a != [] || b != [])
    ensures DecimalMantissa(a + "." + b) == Some(Digits(DigitsValue(a) * Pow10(|b|) + DigitsValue(b), |b|))
  {
    var t := a + "." + b;
    SeparatorSplit(a, '.', '.', '.', b);
    PointAt(t, |a|);
    MantissaOfDigits(a, b);
  }

  lemma MantissaOfDigits(a: string, b: string)
    requires AllDigits(a) && AllDigits(b) && (a != [] || b != [])
    ensures Mantissa(a, b) == Some(Digits(DigitsValue(a) * Pow10(|b|) + DigitsValue(b), |b|))
  {
  }

  /** A text read as an unsigned decimal whose mantissa has `places` fraction digits and no exponent. */
  lemma ReadScaledDown(t: string, digits: nat, places: nat)
    requires StringToNumber(t) == Signed(false, UnsignedDecimal(t))
    requires UnsignedDecimal(t) == Scaled(Some(Digits(digits, places)), Some(0))
    ensures StringToNumber(t) == Finite(false, digits, -(places as int))
  {
  }

  lemma OnePointFive()
    ensures UnsignedDecimal("1.5") == Scaled(Some(Digits(15, 1)), Some(0))
  {
    assert "1.5" == "1" + "." + "5";
    assert DigitsValue("1") == 1 && DigitsValue("5") == 5 && Pow10(1) == 10;
    FractionDecimal("1", "5");
  }

  /** A fraction scales down: "1.5" is one and a half, past once the clock reaches 2. */
  lemma FractionText(now: int)
    ensures Exceeds(now, StringToNumber("1.5")) <==> now >= 2
  {
    OnePointFiveRead();
    OneAndAHalf(now);
  }

  lemma OnePointFiveRead()
    ensures StringToNumber("1.5") == Finite(false, 15, -1)
  {
    var t := "1.5";
    assert IsDigit(t[0]) && t[1] == '.' && IsDigit(t[2]);
    UnsignedRead(t);
    OnePointFive();
    ReadScaledDown(t, 15, 1);
  }

  lemma OneAndAHalf(now: int)
    ensures Exceeds(now, Finite(false, 15, -1)) <==> now >= 2
  {
    assert Pow10(1) == 10;
  }

  /** White space before a text does not change the number it reads as. */
  lemma LeadingSpaceIgnored(w: char, s: string)
    requires IsWhitespace(w)
    ensures StringToNumber([w] + s) == StringToNumber(s)
  {
    assert ([w] + s)[1..] == s;
    assert Trim([w] + s) == Trim(s);
  }

  /** Surrounding white space is trimmed: " 5" is five. */
  lemma PaddedText(now: int)
    ensures Exceeds(now, StringToNumber(" 5")) <==> now > 5
  {
    PaddedRead();
  }

  lemma PaddedRead()
    ensures StringToNumber(" 5") == Finite(false, 5, 0)
  {
    assert " 5" == [' '] + "5";
    LeadingSpaceIgnored(' ', "5");
    assert DigitsValue("5") == 5;
    DigitsRead("5");
  }

  /** `0x` and hexadecimal digits read in base sixteen. */
  lemma HexRead(d: string)
    requires d != [] && AllInBase(d, 16)
    ensures StringToNumber("0x" + d) == Finite(false, BaseValue(d, 16), 0)
  {
    var t := "0x" + d;
    assert t[|t| - 1] == d[|d| - 1] && DigitIn(d[|d| - 1]) < 16;
    TrimOfUntrimmed(t);
    assert t[2..] == d;
  }

  /** A hexadecimal literal reads in base sixteen: "0x10" is sixteen. */
  lemma HexText(now: int)
    ensures Exceeds(now, StringToNumber("0x10")) <==> now > 16
  {
    assert "0x10" == "0x" + "10";
    assert "10"[..1] == "1";
    assert BaseValue("1", 16) == 1;
    assert BaseValue("10", 16) == 16;
    HexRead("10");
  }

  /** A trimmed text that starts with a lower-case letter is no numeric literal. */
  lemma WordRead(t: string)
    requires t != [] && Trim(t) == t && 'a' <= t[0] <= 'z'
    ensures StringToNumber(t) == NaN
  {
    var k := IndexOfEither(t, 'e', 'E');
    if k > 0 {
      var m := t[..k];
      assert m[0] == t[0];
      var d := IndexOfEither(m, '.', '.');
      assert d > 0;
      assert m[..d][0] == t[0];
    }
  }

  /** A text that is no numeric literal is NaN, which no clock exceeds. */
  lemma WordText(now: int)
    ensures !Exceeds(now, StringToNumber("soon"))
  {
    assert "soon" == ['s'] + "oon";
    WordStart('s', "oon");
  }

  lemma WordStart(c: char, rest: string)
    requires 'a' <= c <= 'z' && rest != [] && 'a' <= rest[|rest| - 1] <= 'z'
    ensures StringToNumber([c] + rest) == NaN
  {
    var t := [c] + rest;
    assert t[|t| - 1] == rest[|rest| - 1];
    TrimOfUntrimmed(t);
    WordRead(t);
  }
}
