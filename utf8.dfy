/**
 * UTF-8 as in section 3 of RFC 3629: what `Buffer.from(string)` writes and,
 * for well-formed input, what `toString('utf-8')` reads back. A `char` is a
 * Unicode scalar value, so the encoder never meets a lone surrogate.
 */
module Utf8 {
  import opened Wrappers
  import opened Base64

  /** A continuation byte, 10xxxxxx, carrying six bits. */
  predicate IsContinuation(b: Byte) {
    0x80 <= b < 0xC0
  }

  function Cont(bits: int): (b: Byte)
    requires 0 <= bits < 64
    ensures IsContinuation(b) && b - 0x80 == bits
  {
    0x80 + bits
  }

  /** The one to four bytes of a code point. */
  function EncodeChar(c: char): (e: seq<Byte>)
    ensures 1 <= |e| <= 4
  {
    var cp := c as int;
    if cp < 0x80 then [cp]
    else if cp < 0x800 then [0xC0 + cp / 64, Cont(cp % 64)]
    else if cp < 0x10000 then [0xE0 + cp / 4096, Cont((cp / 64) % 64), Cont(cp % 64)]
    else [0xF0 + cp / 262144, Cont((cp / 4096) % 64), Cont((cp / 64) % 64), Cont(cp % 64)]
  }

  /** The encoding of a string: the encodings of its characters, in order. */
  function Encode(s: string): (b: seq<Byte>)
    ensures |b| >= |s|
  {
    if s == [] then [] else EncodeChar(s[0]) + Encode(s[1..])
  }

  /** A decoded code point, once it is known to be a scalar value of the expected range. */
  function Scalar(cp: int, lo: int, hi: int): (r: Option<char>)
    requires 0 <= lo
    ensures r.Some? ==> lo <= cp < hi && r.value as int == cp
  {
    if lo <= cp < hi && cp <= 0x10FFFF && !(0xD800 <= cp < 0xE000) then Some(cp as char) else None
  }

  /**
   * The first character of a byte string and how many bytes it took, or
   * None for a stray continuation byte, a truncated sequence, an overlong
   * form, a surrogate or a value above U+10FFFF.
   */
  function DecodeFirst(b: seq<Byte>): (r: Option<(char, nat)>)
    requires b != []
    ensures r.Some? ==> 1 <= r.value.1 <= |b|
  {
    var b0 := b[0] as int;
    if b0 < 0x80 then Some((b0 as char, 1))
    else if 0xC0 <= b0 < 0xE0 && |b| >= 2 && IsContinuation(b[1]) then
      var c := Scalar((b0 - 0xC0) * 64 + (b[1] as int - 0x80), 0x80, 0x800);
      if c.Some? then Some((c.value, 2)) else None
    else if 0xE0 <= b0 < 0xF0 && |b| >= 3 && IsContinuation(b[1]) && IsContinuation(b[2]) then
      var c := Scalar((b0 - 0xE0) * 4096 + (b[1] as int - 0x80) * 64 + (b[2] as int - 0x80), 0x800, 0x10000);
      if c.Some? then Some((c.value, 3)) else None
    else if 0xF0 <= b0 < 0xF8 && |b| >= 4 && IsContinuation(b[1]) && IsContinuation(b[2]) && IsContinuation(b[3]) then
      var c := Scalar((b0 - 0xF0) * 262144 + (b[1] as int - 0x80) * 4096 + (b[2] as int - 0x80) * 64 + (b[3] as int - 0x80),
                      0x10000, 0x110000);
      if c.Some? then Some((c.value, 4)) else None
    else None
  }

  /** Strict decoding: None as soon as one sequence is ill-formed. */
  function Decode(b: seq<Byte>): Option<string>
    decreases |b|
  {
    if b == [] then Some([])
    else
      match DecodeFirst(b)
      case None => None
      case Some((c, k)) =>
        match Decode(b[k..])
        case None => None
        case Some(rest) => Some([c] + rest)
  }

  lemma TwoByteForm(cp: int)
    requires 0x80 <= cp < 0x800
    ensures (cp / 64) * 64 + cp % 64 == cp && 2 <= cp / 64 < 32
  {
  }

  lemma ThreeByteForm(cp: int)
    requires 0x800 <= cp < 0x10000
    ensures (cp / 4096) * 4096 + ((cp / 64) % 64) * 64 + cp % 64 == cp && cp / 4096 < 16
  {
    var q := cp / 64;
    assert cp == q * 64 + cp % 64;
    assert q == (q / 64) * 64 + q % 64;
    assert cp / 4096 == q / 64;
  }

  lemma FourByteForm(cp: int)
    requires 0x10000 <= cp < 0x110000
    ensures (cp / 262144) * 262144 + ((cp / 4096) % 64) * 4096 + ((cp / 64) % 64) * 64 + cp % 64 == cp
    ensures cp / 262144 < 5
  {
    var q1 := cp / 64;
    var q2 := q1 / 64;
    assert cp == q1 * 64 + cp % 64;
    assert q1 == q2 * 64 + q1 % 64;
    assert cp / 4096 == q2;
    assert q2 == (q2 / 64) * 64 + q2 % 64;
    assert cp / 262144 == q2 / 64;
  }

  /** The decoder reads back exactly the bytes of one encoded character, whatever follows. */
  lemma DecodeFirstOfEncodeChar(c: char, rest: seq<Byte>)
    ensures DecodeFirst(EncodeChar(c) + rest) == Some((c, |EncodeChar(c)|))
  {
    var cp := c as int;
    var b := EncodeChar(c) + rest;
    if cp < 0x80 {
    } else if cp < 0x800 {
      TwoByteForm(cp);
      assert b[0] == 0xC0 + cp / 64 && b[1] == Cont(cp % 64);
    } else if cp < 0x10000 {
      ThreeByteForm(cp);
      assert b[0] == 0xE0 + cp / 4096 && b[1] == Cont((cp / 64) % 64) && b[2] == Cont(cp % 64);
    } else {
      FourByteForm(cp);
      assert b[0] == 0xF0 + cp / 262144 && b[1] == Cont((cp / 4096) % 64);
      assert b[2] == Cont((cp / 64) % 64) && b[3] == Cont(cp % 64);
    }
  }

  /** Decoding undoes encoding for every string. */
  lemma {:induction false} RoundTrip(s: string)
    ensures Decode(Encode(s)) == Some(s)
  {
    if s != [] {
      var e := EncodeChar(s[0]);
      var tail := Encode(s[1..]);
      var b := e + tail;
      assert Encode(s) == b;
      DecodeFirstOfEncodeChar(s[0], tail);
      assert b[|e|..] == tail;
      RoundTrip(s[1..]);
      assert [s[0]] + s[1..] == s;
    }
  }

  /** ASCII text is its own encoding, one byte per character. */
  lemma {:induction false} AsciiIsItself(s: string)
    requires forall i :: 0 <= i < |s| ==> s[i] as int < 0x80
    ensures |Encode(s)| == |s|
    ensures forall i :: 0 <= i < |s| ==> Encode(s)[i] == s[i] as int
  {
    if s != [] {
      AsciiIsItself(s[1..]);
    }
  }
}
