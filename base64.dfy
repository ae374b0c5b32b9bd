/**
 * Base64 as in section 4 of RFC 4648, with `=` padding: what
 * `Buffer.toString('base64')` produces and what decoding reads back.
 */
module Base64 {
  import opened Wrappers

  /** A byte, as the integer it holds. */
  type Byte = b: int | 0 <= b < 256

  /** A 6-bit value: one base64 digit. */
  type Sextet = d: int | 0 <= d < 64

  /** The character of a 6-bit value in the base64 alphabet A–Z, a–z, 0–9, `+`, `/`. */
  function IndexChar(d: Sextet): (c: char)
    ensures c != '='
  {
    if d < 26 then ('A' as int + d) as char
    else if d < 52 then ('a' as int + (d - 26)) as char
    else if d < 62 then ('0' as int + (d - 52)) as char
    else if d == 62 then '+'
    else '/'
  }

  /** The 6-bit value of an alphabet character, or None for any other character (`=` included). */
  function CharIndex(c: char): (r: Option<Sextet>)
    ensures r.Some? ==> IndexChar(r.value) == c
  {
    if 'A' <= c <= 'Z' then Some(c as int - 'A' as int)
    else if 'a' <= c <= 'z' then Some(c as int - 'a' as int + 26)
    else if '0' <= c <= '9' then Some(c as int - '0' as int + 52)
    else if c == '+' then Some(62)
    else if c == '/' then Some(63)
    else None
  }

  lemma CharIndexOfIndexChar(d: Sextet)
    ensures CharIndex(IndexChar(d)) == Some(d)
  {
  }

  /** The four base-64 digits of a 24-bit group, most significant first. */
  function Digits24(n: int): (r: seq<Sextet>)
    requires 0 <= n < 16777216
    ensures |r| == 4
  {
    [n / 262144, (n / 4096) % 64, (n / 64) % 64, n % 64]
  }

  function Join24(d: seq<Sextet>): (n: int)
    requires |d| == 4
    ensures 0 <= n < 16777216
  {
    (d[0] as int) * 262144 + (d[1] as int) * 4096 + (d[2] as int) * 64 + (d[3] as int)
  }

  lemma Join24OfDigits24(n: int)
    requires 0 <= n < 16777216
    ensures Join24(Digits24(n)) == n
  {
    var q1 := n / 64;
    var q2 := q1 / 64;
    assert n == q1 * 64 + n % 64;
    assert q1 == q2 * 64 + q1 % 64;
    assert n / 4096 == q2;
    assert n / 262144 == q2 / 64;
    assert q2 == (q2 / 64) * 64 + q2 % 64;
  }

  /** The three bytes of a 24-bit group. */
  function Bytes24(n: int): (r: seq<Byte>)
    requires 0 <= n < 16777216
    ensures |r| == 3
  {
    [n / 65536, (n / 256) % 256, n % 256]
  }

  function Group(b0: Byte, b1: Byte, b2: Byte): (n: int)
    ensures 0 <= n < 16777216
  {
    (b0 as int) * 65536 + (b1 as int) * 256 + (b2 as int)
  }

  lemma Bytes24OfGroup(b0: Byte, b1: Byte, b2: Byte)
    ensures Bytes24(Group(b0, b1, b2)) == [b0, b1, b2]
  {
    var n := Group(b0, b1, b2);
    assert n / 256 == b0 * 256 + b1;
    assert n / 65536 == b0;
  }

  /** The characters of a run of digits. */
  function Chars(d: seq<Sextet>): (s: string)
    ensures |s| == |d| && forall i :: 0 <= i < |s| ==> s[i] != '=' && s[i] == IndexChar(d[i])
  {
    if d == [] then [] else [IndexChar(d[0])] + Chars(d[1..])
  }

  /** How many digits `n` bytes take: four per full group, then two or three for a short last group. */
  function DigitCount(n: nat): nat {
    if n == 0 then 0 else if n == 1 then 2 else if n == 2 then 3 else 4 + DigitCount(n - 3)
  }

  /** How many `=` complete the last group: two after one byte, one after two. */
  function PadCount(n: nat): (k: nat)
    ensures k <= 2
  {
    if n == 0 then 0 else if n == 1 then 2 else if n == 2 then 1 else PadCount(n - 3)
  }

  /** Digits and padding fill whole groups of four, and padding follows at least two digits. */
  lemma {:induction false} GroupsAreFull(n: nat)
    ensures (DigitCount(n) + PadCount(n)) % 4 == 0
    ensures PadCount(n) > 0 ==> DigitCount(n) >= 2
    ensures DigitCount(n) == 0 <==> n == 0
  {
    if n >= 3 {
      GroupsAreFull(n - 3);
    }
  }

  /**
   * The base-64 digits of a byte string: four per full group of three
   * bytes; a last group of one byte gives two digits, of two bytes three.
   */
  function Sextets(b: seq<Byte>): (d: seq<Sextet>)
    ensures |d| == DigitCount(|b|)
    decreases |b|
  {
    if |b| == 0 then []
    else if |b| == 1 then Digits24(Group(b[0], 0, 0))[..2]
    else if |b| == 2 then Digits24(Group(b[0], b[1], 0))[..3]
    else Digits24(Group(b[0], b[1], b[2])) + Sextets(b[3..])
  }

  /** The padding that completes the last group: `==` after one byte, `=` after two. */
  function Padding(n: nat): (p: string)
    ensures |p| == PadCount(n) && forall i :: 0 <= i < |p| ==> p[i] == '='
  {
    if PadCount(n) == 2 then "==" else if PadCount(n) == 1 then "=" else ""
  }

  /** `Buffer.from(bytes).toString('base64')`. */
  function Encode(b: seq<Byte>): (s: string)
    ensures |s| % 4 == 0
    ensures s == [] <==> b == []
  {
    GroupsAreFull(|b|);
    Chars(Sextets(b)) + Padding(|b|)
  }

  /** The digits of the characters, or None when one is not in the alphabet. */
  function Indices(s: string): (r: Option<seq<Sextet>>)
    ensures r.Some? ==> |r.value| == |s|
  {
    if s == [] then Some([])
    else
      match (CharIndex(s[0]), Indices(s[1..]))
      case (Some(d), Some(ds)) => Some([d] + ds)
      case _ => None
  }

  lemma {:induction false} IndicesOfChars(d: seq<Sextet>)
    ensures Indices(Chars(d)) == Some(d)
  {
    if d != [] {
      var s := Chars(d);
      assert s[1..] == Chars(d[1..]);
      CharIndexOfIndexChar(d[0]);
      IndicesOfChars(d[1..]);
      assert [d[0]] + d[1..] == d;
    }
  }

  /**
   * The bytes of a run of digits: three per group of four, one from a last
   * pair, two from a last triple; a single last digit is refused.
   */
  function FromSextets(d: seq<Sextet>): (r: Option<seq<Byte>>)
    decreases |d|
  {
    if |d| == 0 then Some([])
    else if |d| == 1 then None
    else if |d| == 2 then Some(Bytes24(Join24(d + [0, 0]))[..1])
    else if |d| == 3 then Some(Bytes24(Join24(d + [0]))[..2])
    else
      match FromSextets(d[4..])
      case None => None
      case Some(rest) => Some(Bytes24(Join24(d[..4])) + rest)
  }

  /** The string without its trailing `=` or `==`. */
  function StripPadding(s: string): (r: string)
    ensures |r| <= |s| && r == s[..|r|]
  {
    if |s| >= 2 && s[|s| - 2] == '=' && s[|s| - 1] == '=' then s[..|s| - 2]
    else if |s| >= 1 && s[|s| - 1] == '=' then s[..|s| - 1]
    else s
  }

  /**
   * Base64 decoding; None for a length that is not a multiple of four, a
   * character outside the alphabet, or padding anywhere but at the end.
   */
  function Decode(s: string): (r: Option<seq<Byte>>)
    ensures |s| % 4 != 0 ==> r.None?
  {
    if |s| % 4 != 0 then None
    else
      match Indices(StripPadding(s))
      case None => None
      case Some(d) => FromSextets(d)
  }

  lemma GroupBytes(b0: Byte, b1: Byte, b2: Byte)
    ensures Bytes24(Join24(Digits24(Group(b0, b1, b2)))) == [b0, b1, b2]
  {
    Join24OfDigits24(Group(b0, b1, b2));
    Bytes24OfGroup(b0, b1, b2);
  }

  /** A group whose low 12 or 6 bits are zero ends in two or one zero digits. */
  lemma LowDigitsZero(hi: int, k: int)
    requires 0 <= hi && (k == 64 || k == 4096)
    requires 0 <= hi * k < 16777216
    ensures var d := Digits24(hi * k); d[3] == 0 && (k == 4096 ==> d[2] == 0)
  {
    var n := hi * k;
    if k == 4096 {
      assert n == (hi * 64) * 64;
      assert n / 64 == hi * 64;
    } else {
      assert n == hi * 64;
    }
  }

  lemma OneByteBack(b0: Byte)
    ensures FromSextets(Digits24(Group(b0, 0, 0))[..2]) == Some([b0])
  {
    var n := Group(b0, 0, 0);
    assert n == (b0 * 16) * 4096;
    LowDigitsZero(b0 * 16, 4096);
    var d := Digits24(n);
    var t := d[..2];
    assert t + [0, 0] == d;
    assert FromSextets(t) == Some(Bytes24(Join24(t + [0, 0]))[..1]);
    GroupBytes(b0, 0, 0);
    assert Bytes24(Join24(t + [0, 0])) == [b0, 0, 0];
    assert [b0, 0, 0][..1] == [b0];
  }

  lemma TwoBytesBack(b0: Byte, b1: Byte)
    ensures FromSextets(Digits24(Group(b0, b1, 0))[..3]) == Some([b0, b1])
  {
    var n := Group(b0, b1, 0);
    assert n == (b0 * 1024 + b1 * 4) * 64;
    LowDigitsZero(b0 * 1024 + b1 * 4, 64);
    var d := Digits24(n);
    var t := d[..3];
    assert t + [0] == d;
    assert FromSextets(t) == Some(Bytes24(Join24(t + [0]))[..2]);
    GroupBytes(b0, b1, 0);
    assert Bytes24(Join24(t + [0])) == [b0, b1, 0];
    assert [b0, b1, 0][..2] == [b0, b1];
  }

  lemma GroupBack(b0: Byte, b1: Byte, b2: Byte, ds: seq<Sextet>, rest: seq<Byte>)
    requires FromSextets(ds) == Some(rest)
    ensures FromSextets(Digits24(Group(b0, b1, b2)) + ds) == Some([b0, b1, b2] + rest)
  {
    var d := Digits24(Group(b0, b1, b2));
    var all := d + ds;
    assert all[..4] == d && all[4..] == ds;
    GroupBytes(b0, b1, b2);
  }

  /** Reading the digits back gives the bytes. */
  lemma {:induction false} FromSextetsOfSextets(b: seq<Byte>)
    ensures FromSextets(Sextets(b)) == Some(b)
    decreases |b|
  {
    if |b| == 1 {
      OneByteBack(b[0]);
      assert [b[0]] == b;
    } else if |b| == 2 {
      TwoBytesBack(b[0], b[1]);
      assert [b[0], b[1]] == b;
    } else if |b| >= 3 {
      FromSextetsOfSextets(b[3..]);
      GroupBack(b[0], b[1], b[2], Sextets(b[3..]), b[3..]);
      assert [b[0], b[1], b[2]] + b[3..] == b;
    }
  }

  /** The padding comes off exactly: alphabet characters are never `=`. */
  lemma StripPaddingOfEncode(b: seq<Byte>)
    ensures StripPadding(Encode(b)) == Chars(Sextets(b))
  {
    var c := Chars(Sextets(b));
    var s := Encode(b);
    assert s == c + Padding(|b|);
    GroupsAreFull(|b|);
    if PadCount(|b|) == 2 {
      assert s[..|s| - 2] == c;
    } else if PadCount(|b|) == 1 {
      assert s[|s| - 2] == c[|c| - 1];
      assert s[..|s| - 1] == c;
    } else if c != [] {
      assert s == c;
      assert s[|s| - 1] == c[|c| - 1];
    }
  }

  /** Decoding undoes encoding for every byte string. */
  lemma RoundTrip(b: seq<Byte>)
    ensures Decode(Encode(b)) == Some(b)
  {
    StripPaddingOfEncode(b);
    IndicesOfChars(Sextets(b));
    FromSextetsOfSextets(b);
  }
}
