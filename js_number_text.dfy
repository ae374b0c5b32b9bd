/**
 * `Number.prototype.toString()` with no radix (the Number::toString
 * operation, section 6.1.6.1.20 of ECMA-262, 2022 edition) for the numbers
 * the rule manager shows:
 * a minus sign for a negative number, the integer part, and, when the
 * number is not whole, a point and the fraction digits without trailing
 * zeros. The number is an exact real; the fraction is written to at most
 * `MaxPlaces` digits.
 */
module JsNumberText {
  import opened Strings
  import opened JsNumber

  /** The most fraction digits the rendering writes. */
  const MaxPlaces: nat := 20

  predicate Whole(y: real) {
    y.Floor as real == y
  }

  /** `x` with the point moved `k` places to the right. */
  function Shift(x: real, k: nat): (r: real)
    ensures x >= 0.0 ==> r >= 0.0
  {
    x * Pow10(k) as real
  }

  /** The fewest places, from `k` on and at most MaxPlaces, that shift `x` to a whole number. */
  function PlacesFrom(x: real, k: nat): (p: nat)
    requires k <= MaxPlaces
    ensures k <= p <= MaxPlaces
    ensures p < MaxPlaces ==> Whole(Shift(x, p))
    ensures forall j :: k <= j < p ==> !Whole(Shift(x, j))
    decreases MaxPlaces - k
  {
    if k == MaxPlaces || Whole(Shift(x, k)) then k else PlacesFrom(x, k + 1)
  }

  /** The number of fraction digits of `x`'s decimal expansion, when it has fewer than MaxPlaces. */
  function Places(x: real): nat {
    PlacesFrom(x, 0)
  }

  /** A number whose decimal expansion ends within MaxPlaces - 1 places. */
  predicate Terminates(x: real) {
    Places(x) < MaxPlaces
  }

  function Zeros(k: nat): (z: string)
    ensures |z| == k && AllDigits(z)
  {
    if k == 0 then "" else "0" + Zeros(k - 1)
  }

  /** `s` with zeros in front up to length `n`. */
  function Padded(s: string, n: nat): (r: string)
    ensures |s| <= n ==> |r| == n
    ensures |s| > n ==> r == s
  {
    if |s| >= n then s else Zeros(n - |s|) + s
  }

  /** A non-negative number with the point moved past its last fraction digit, as a natural number. */
  function ShiftedDigits(x: real): nat
    requires x >= 0.0
  {
    Shift(x, Places(x)).Floor
  }

  /** The text of n / 10^p: the integer part, then a point and p fraction digits when p > 0. */
  function DecimalText(n: nat, p: nat): (s: string)
    ensures s != [] && IsDigit(s[0])
  {
    var unit := Pow10(p);
    DivMod(n, unit);
    if p == 0 then NatToString(n) else NatToString(n / unit) + "." + Padded(NatToString(n % unit), p)
  }

  /** The digits of a non-negative number: the integer part, then the fraction when there is one. */
  function UnsignedText(x: real): string
    requires x >= 0.0
  {
    DecimalText(ShiftedDigits(x), Places(x))
  }

  /** `x.toString()`: a minus sign exactly for a negative number. */
  function NumberToString(x: real): (s: string)
    ensures s != [] && (s[0] == '-' <==> x < 0.0)
  {
    if x < 0.0 then "-" + UnsignedText(-x) else UnsignedText(x)
  }

  /** The real a finite Number denotes. */
  function RealValue(n: Number): real
    requires n.Finite?
  {
    var m := n.mantissa as real;
    var v := if n.exponent >= 0 then m * Pow10(n.exponent) as real else m / Pow10(-n.exponent) as real;
    if n.negative then -v else v
  }

  lemma NegatedValue(m: nat, e: int)
    ensures RealValue(Finite(true, m, e)) == -RealValue(Finite(false, m, e))
  {
  }

  lemma WholeNegated(x: real)
    ensures Whole(-x) == Whole(x)
  {
    if Whole(x) {
      assert -x == (-x.Floor) as real;
    }
    if Whole(-x) {
      assert x == (-(-x).Floor) as real;
    }
  }

  lemma ShiftByZero(x: real)
    ensures Shift(x, 0) == x
  {
    assert Pow10(0) == 1;
  }

  lemma ShiftBack(x: real, k: nat)
    ensures Shift(x, k) / Pow10(k) as real == x
  {
    var q := Pow10(k) as real;
    assert q > 0.0;
    assert (x * q) / q == x;
  }

  /** The arithmetic of appending one digit to both `a + c` and `c`. */
  lemma ShiftDigit(vab: int, vac: int, va: int, pc: int, vc: int, d: int, vb: int, pb: int)
    requires vab == 10 * vac + d && vac == va * pc + vc && vb == 10 * vc + d && pb == 10 * pc
    ensures vab == va * pb + vb
  {
    assert va * pb == 10 * (va * pc);
  }

  /** Quotient and remainder of a natural number by a positive one. */
  lemma DivMod(n: nat, d: nat)
    requires d > 0
    ensures n / d >= 0 && 0 <= n % d < d && (n / d) * d + n % d == n
  {
  }

  /** `DigitsValue` splits over a concatenation. */
  lemma {:induction false} DigitsValueAppend(a: string, b: string)
    requires AllDigits(a) && AllDigits(b)
    ensures AllDigits(a + b) && DigitsValue(a + b) == DigitsValue(a) * Pow10(|b|) + DigitsValue(b)
  {
    assert AllDigits(a + b) by {
      forall i | 0 <= i < |a + b|
        ensures IsDigit((a + b)[i])
      {
        if i < |a| { assert (a + b)[i] == a[i]; } else { assert (a + b)[i] == b[i - |a|]; }
      }
    }
    if b == [] {
      assert a + b == a;
    } else {
      var c := b[..|b| - 1];
      var last := b[|b| - 1];
      assert (a + b)[..|a + b| - 1] == a + c;
      assert (a + b)[|a + b| - 1] == last;
      DigitsValueAppend(a, c);
      ShiftDigit(DigitsValue(a + b), DigitsValue(a + c), DigitsValue(a), Pow10(|c|), DigitsValue(c), DigitValue(last), DigitsValue(b), Pow10(|b|));
    }
  }

  lemma {:induction false} ZerosValue(k: nat)
    ensures DigitsValue(Zeros(k)) == 0
  {
    if k > 0 {
      ZerosValue(k - 1);
      DigitsValueAppend("0", Zeros(k - 1));
      assert DigitsValue("0") == 0;
      assert DigitsValue("0") * Pow10(k - 1) == 0;
    }
  }

  /** Leading zeros do not change the value of the digits. */
  lemma PaddedValue(s: string, n: nat)
    requires AllDigits(s)
    ensures AllDigits(Padded(s, n)) && DigitsValue(Padded(s, n)) == DigitsValue(s)
  {
    if |s| < n {
      DigitsValueAppend(Zeros(n - |s|), s);
      ZerosValue(n - |s|);
    }
  }

  /** A number below ten to the k is written with at most k digits. */
  lemma {:induction false} ShortNatText(n: nat, k: nat)
    requires 1 <= k && n < Pow10(k)
    ensures |NatToString(n)| <= k
  {
    if n >= 10 {
      assert k >= 2;
      assert Pow10(k) == 10 * Pow10(k - 1);
      ShortNatText(n / 10, k - 1);
    }
  }

  /** A whole non-negative number is written with no point. */
  lemma WholeUnsignedText(n: nat)
    ensures UnsignedText(n as real) == NatToString(n)
  {
    var x := n as real;
    ShiftByZero(x);
    assert Whole(Shift(x, 0));
    assert Places(x) == 0;
  }

  /** A whole number is written as the integer is. */
  lemma WholeText(n: int)
    ensures NumberToString(n as real) == IntToString(n)
  {
    if n < 0 {
      assert -(n as real) == (-n) as real;
      WholeUnsignedText(-n);
    } else {
      WholeUnsignedText(n);
    }
  }

  /** A number that is not whole needs at least one place. */
  lemma FractionalPlaces(u: real)
    requires !Whole(u)
    ensures Places(u) != 0
  {
    ShiftByZero(u);
  }

  /** The text of n / 10^p has a point when p > 0. */
  lemma DecimalPoint(n: nat, p: nat)
    requires p != 0
    ensures '.' in DecimalText(n, p)
  {
    DivMod(n, Pow10(p));
    var a := NatToString(n / Pow10(p));
    var t := a + "." + Padded(NatToString(n % Pow10(p)), p);
    assert DecimalText(n, p) == t;
    assert t[|a|] == '.';
  }

  /** A non-negative number that is not whole is written with a point. */
  lemma FractionalUnsignedText(u: real)
    requires u >= 0.0 && !Whole(u)
    ensures '.' in UnsignedText(u)
  {
    FractionalPlaces(u);
    DecimalPoint(ShiftedDigits(u), Places(u));
  }

  lemma SignKeepsPoint(t: string)
    requires '.' in t
    ensures '.' in "-" + t
  {
    var i :| 0 <= i < |t| && t[i] == '.';
    assert ("-" + t)[i + 1] == '.';
  }

  /** A number that is not whole is written with a point. */
  lemma FractionalText(x: real)
    requires !Whole(x)
    ensures '.' in NumberToString(x)
  {
    if x < 0.0 {
      WholeNegated(x);
      FractionalUnsignedText(-x);
      SignKeepsPoint(UnsignedText(-x));
    } else {
      FractionalUnsignedText(x);
    }
  }

  /** The text of a fraction starts with a digit, ends with a digit and has no radix prefix. */
  lemma FractionShape(n: nat, b: string)
    requires b != [] && AllDigits(b)
    ensures var t := NatToString(n) + "." + b; IsDigit(t[0]) && !IsWhitespace(t[|t| - 1]) && RadixPrefix(t) == 0
  {
    var a := NatToString(n);
    var t := a + "." + b;
    assert t[0] == a[0] && t[|t| - 1] == b[|b| - 1];
    assert IsDigit(b[|b| - 1]);
    if |a| == 1 {
      assert t[1] == '.';
    } else {
      assert t[1] == a[1];
      assert IsDigit(a[1]);
    }
  }

  /** The text of n / 10^p reads back, through StringToNumber, as n digits scaled down p places. */
  lemma DecimalTextRead(n: nat, p: nat)
    ensures var t := DecimalText(n, p); t != [] && IsDigit(t[0]) && !IsWhitespace(t[|t| - 1])
    ensures StringToNumber(DecimalText(n, p)) == Signed(false, UnsignedDecimal(DecimalText(n, p)))
    ensures StringToNumber(DecimalText(n, p)) == Finite(false, n, -(p as int))
  {
    var t := DecimalText(n, p);
    var unit := Pow10(p);
    DivMod(n, unit);
    if p == 0 {
      assert t == NatToString(n);
      assert IsDigit(t[0]) && IsDigit(t[|t| - 1]);
      assert |t| >= 2 ==> t[0] != '0';
      UnsignedRead(t);
      DigitsRead(t);
    } else {
      var a := NatToString(n / unit);
      var r := NatToString(n % unit);
      var b := Padded(r, p);
      ShortNatText(n % unit, p);
      PaddedValue(r, p);
      assert |b| == p;
      assert t == a + "." + b;
      FractionShape(n / unit, b);
      UnsignedRead(t);
      FractionDecimal(a, b);
      assert DigitsValue(a) * Pow10(|b|) + DigitsValue(b) == n;
      ReadScaledDown(t, n, p);
    }
  }

  /** Scaling a number's shifted digits back down gives the number. */
  lemma ShiftedValue(x: real)
    requires x >= 0.0 && Terminates(x)
    ensures RealValue(Finite(false, ShiftedDigits(x), -(Places(x) as int))) == x
  {
    var p := Places(x);
    var n := ShiftedDigits(x);
    assert n as real == Shift(x, p);
    ShiftBack(x, p);
    if p == 0 {
      ShiftByZero(x);
      assert Pow10(0) == 1;
    }
  }

  /** A non-negative number's digits read back, through StringToNumber, as the number. */
  lemma UnsignedTextReadsBack(x: real)
    requires x >= 0.0 && Terminates(x)
    ensures UnsignedText(x) != [] && IsDigit(UnsignedText(x)[0]) && !IsWhitespace(UnsignedText(x)[|UnsignedText(x)| - 1])
    ensures StringToNumber(UnsignedText(x)) == Signed(false, UnsignedDecimal(UnsignedText(x)))
    ensures StringToNumber(UnsignedText(x)).Finite? && RealValue(StringToNumber(UnsignedText(x))) == x
  {
    DecimalTextRead(ShiftedDigits(x), Places(x));
    ShiftedValue(x);
  }

  /** A minus sign before a text that starts with a digit negates the literal. */
  lemma NegativeRead(t: string)
    requires t != [] && IsDigit(t[0]) && !IsWhitespace(t[|t| - 1])
    ensures StringToNumber("-" + t) == Signed(true, UnsignedDecimal(t))
  {
    var s := "-" + t;
    assert s[|s| - 1] == t[|t| - 1];
    TrimOfUntrimmed(s);
    assert s[1..] == t;
    assert t != "Infinity";
  }

  /** A minus sign and a positive number's digits read back as the negated number. */
  lemma NegativeTextReadsBack(u: real)
    requires u > 0.0 && Terminates(u)
    ensures StringToNumber("-" + UnsignedText(u)).Finite? && RealValue(StringToNumber("-" + UnsignedText(u))) == -u
  {
    var t := UnsignedText(u);
    UnsignedTextReadsBack(u);
    NegativeRead(t);
    var n := StringToNumber(t);
    assert StringToNumber("-" + t) == Finite(true, n.mantissa, n.exponent);
    NegatedValue(n.mantissa, n.exponent);
  }

  /**
   * A number's text reads back, through StringToNumber, as the number
   * itself: `Number(x.toString()) === x` for every number whose expansion
   * ends within the modelled places.
   */
  lemma TextReadsBack(x: real)
    requires Terminates(if x < 0.0 then -x else x)
    ensures StringToNumber(NumberToString(x)).Finite?
    ensures RealValue(StringToNumber(NumberToString(x))) == x
  {
    if x < 0.0 {
      NegativeTextReadsBack(-x);
    } else {
      UnsignedTextReadsBack(x);
    }
  }

  /** One and a half is written "1.5". */
  lemma OneAndAHalfText()
    ensures NumberToString(1.5) == "1.5"
  {
    ShiftByZero(1.5);
    assert Pow10(1) == 10;
    assert Shift(1.5, 1) == 15.0;
    assert Places(1.5) == 1;
    assert NatToString(1) == "1" && NatToString(5) == "5";
  }
}
