/**
 * JSON text (RFC 8259) for a flat object whose members are strings and
 * integers: the text `JSON.stringify` writes for such an object, and a
 * parser that reads those members back for an expected list of keys.
 */
module Json {
  import opened Wrappers
  import opened Strings

  /** A member value: a string or an integral number. */
  datatype Field = Text(text: string) | Number(num: int)

  datatype Kind = TextKind | NumberKind

  function KindOf(f: Field): Kind {
    if f.Text? then TextKind else NumberKind
  }

  /** A lower-case hexadecimal digit, as `JSON.stringify` writes them in `\u00XX`. */
  function HexDigit(d: nat): (c: char)
    requires d < 16
  {
    if d < 10 then ('0' as int + d) as char else ('a' as int + (d - 10)) as char
  }

  /** The value of a hexadecimal digit of either case. */
  function HexValue(c: char): (r: Option<nat>)
    ensures r.Some? ==> r.value < 16
  {
    if '0' <= c <= '9' then Some(c as int - '0' as int)
    else if 'a' <= c <= 'f' then Some(c as int - 'a' as int + 10)
    else if 'A' <= c <= 'F' then Some(c as int - 'A' as int + 10)
    else None
  }

  /**
   * One character inside a JSON string: `"` and `\` get a backslash, the
   * five control characters with a short form use it, the other characters
   * below U+0020 become `\u00XX`, and everything else is written as is.
   */
  function EscapeChar(c: char): (e: string)
    ensures e != [] && e[0] != '"'
    ensures (c as int >= 0x20 && c != '"' && c != '\\') <==> e == [c]
  {
    if c == '"' then "\\\""
    else if c == '\\' then "\\\\"
    else if c == '\U{8}' then "\\b"
    else if c == '\U{C}' then "\\f"
    else if c == '\n' then "\\n"
    else if c == '\r' then "\\r"
    else if c == '\t' then "\\t"
    else if (c as int) < 0x20 then "\\u00" + [HexDigit(c as int / 16), HexDigit(c as int % 16)]
    else [c]
  }

  function Escape(s: string): string {
    if s == [] then [] else EscapeChar(s[0]) + Escape(s[1..])
  }

  /** A string value: its escaped characters between double quotes. */
  function Quote(s: string): string {
    "\"" + Escape(s) + "\""
  }

  /**
   * The character an escape sequence stands for (the text after the
   * backslash) and the length of that text; None for an unknown escape or
   * a `\u` escape naming a surrogate.
   */
  function Unescape(t: string): (r: Option<(char, nat)>)
    requires t != []
    ensures r.Some? ==> 1 <= r.value.1 <= |t|
  {
    if t[0] == '"' then Some(('"', 1))
    else if t[0] == '\\' then Some(('\\', 1))
    else if t[0] == '/' then Some(('/', 1))
    else if t[0] == 'b' then Some(('\U{8}', 1))
    else if t[0] == 'f' then Some(('\U{C}', 1))
    else if t[0] == 'n' then Some(('\n', 1))
    else if t[0] == 'r' then Some(('\r', 1))
    else if t[0] == 't' then Some(('\t', 1))
    else if t[0] == 'u' && |t| >= 5 then
      var h := [HexValue(t[1]), HexValue(t[2]), HexValue(t[3]), HexValue(t[4])];
      if h[0].Some? && h[1].Some? && h[2].Some? && h[3].Some? then
        var v := h[0].value * 4096 + h[1].value * 256 + h[2].value * 16 + h[3].value;
        if 0xD800 <= v < 0xE000 then None else Some((v as char, 5))
      else None
    else None
  }

  /**
   * The characters of a string value up to its closing quote (the opening
   * quote already read) and the text after it; None for an unterminated
   * string, a raw control character or a bad escape.
   */
  function ParseStringBody(s: string): (r: Option<(string, string)>)
    ensures r.Some? ==> |r.value.1| < |s|
    decreases |s|
  {
    if s == [] then None
    else if s[0] == '"' then Some(([], s[1..]))
    else if s[0] == '\\' then
      if |s| < 2 then None
      else
        match Unescape(s[1..])
        case None => None
        case Some((c, k)) =>
          match ParseStringBody(s[1 + k..])
          case None => None
          case Some((x, rest)) => Some(([c] + x, rest))
    else if (s[0] as int) < 0x20 then None
    else
      match ParseStringBody(s[1..])
      case None => None
      case Some((x, rest)) => Some(([s[0]] + x, rest))
  }

  /** The number of decimal digits at the front of a string. */
  function DigitRun(s: string): (k: nat)
    ensures k <= |s| && AllDigits(s[..k])
    ensures k < |s| ==> !IsDigit(s[k])
  {
    if s == [] || !IsDigit(s[0]) then 0
    else
      var k := 1 + DigitRun(s[1..]);
      assert s[..k] == [s[0]] + s[1..][..k - 1];
      k
  }

  /** A natural number: one or more digits, with no leading zero unless the number is 0. */
  function ParseNat(s: string): (r: Option<(nat, string)>)
    ensures r.Some? ==> |r.value.1| < |s|
  {
    var k := DigitRun(s);
    if k == 0 || (k > 1 && s[0] == '0') then None
    else Some((DigitsValue(s[..k]), s[k..]))
  }

  /** An integer: an optional minus sign and a natural number. */
  function ParseInt(s: string): (r: Option<(int, string)>)
    ensures r.Some? ==> |r.value.1| < |s|
  {
    if s != [] && s[0] == '-' then
      match ParseNat(s[1..])
      case None => None
      case Some((n, rest)) => Some((-(n as int), rest))
    else
      match ParseNat(s)
      case None => None
      case Some((n, rest)) => Some((n as int, rest))
  }

  /** The text after an expected literal, or None when the text does not start with it. */
  function Expect(lit: string, s: string): (r: Option<string>)
    ensures r.Some? ==> s == lit + r.value
  {
    if StartsWith(s, lit) then
      assert s == lit + s[|lit|..];
      Some(s[|lit|..])
    else None
  }

  /** A member value as `JSON.stringify` writes it; integers as `toString()` does. */
  function EncodeField(f: Field): string {
    match f
    case Text(t) => Quote(t)
    case Number(n) => IntToString(n)
  }

  /** What precedes a member's value: a comma unless it comes first, then its quoted key and a colon. */
  function Lead(key: string, first: bool): string {
    (if first then "" else ",") + Quote(key) + ":"
  }

  /** The members of an object, each `"key":value`, separated by commas; `first` says no comma precedes. */
  function EncodeMembers(ms: seq<(string, Field)>, first: bool): string {
    if ms == [] then ""
    else Lead(ms[0].0, first) + (EncodeField(ms[0].1) + EncodeMembers(ms[1..], false))
  }

  /** `JSON.stringify` of a flat object, members in insertion order, no white space. */
  function EncodeObject(ms: seq<(string, Field)>): string {
    "{" + EncodeMembers(ms, true) + "}"
  }

  function ParseField(k: Kind, s: string): (r: Option<(Field, string)>)
    ensures r.Some? ==> KindOf(r.value.0) == k && |r.value.1| < |s|
  {
    match k
    case TextKind =>
      (match Expect("\"", s)
       case None => None
       case Some(t) =>
         match ParseStringBody(t)
         case None => None
         case Some((x, rest)) => Some((Text(x), rest)))
    case NumberKind =>
      match ParseInt(s)
      case None => None
      case Some((n, rest)) => Some((Number(n), rest))
  }

  /** The members for the expected keys and kinds, in that order, and the text after them. */
  function ParseMembers(shape: seq<(string, Kind)>, s: string, first: bool): (r: Option<(seq<Field>, string)>)
    ensures r.Some? ==> |r.value.0| == |shape|
    ensures r.Some? ==> forall i :: 0 <= i < |shape| ==> KindOf(r.value.0[i]) == shape[i].1
    decreases |shape|
  {
    if shape == [] then Some(([], s))
    else
      match Expect(Lead(shape[0].0, first), s)
      case None => None
      case Some(t) =>
        match ParseField(shape[0].1, t)
        case None => None
        case Some((f, t')) =>
          match ParseMembers(shape[1..], t', false)
          case None => None
          case Some((fs, rest)) => Some(([f] + fs, rest))
  }

  /** The values of an object with exactly the expected members, or None for any other text. */
  function ParseObject(shape: seq<(string, Kind)>, s: string): (r: Option<seq<Field>>)
    ensures r.Some? ==> |r.value| == |shape|
    ensures r.Some? ==> forall i :: 0 <= i < |shape| ==> KindOf(r.value[i]) == shape[i].1
  {
    match Expect("{", s)
    case None => None
    case Some(t) =>
      match ParseMembers(shape, t, true)
      case None => None
      case Some((fs, rest)) => if rest == "}" then Some(fs) else None
  }

  /** The keys and kinds of a list of members. */
  function ShapeOf(ms: seq<(string, Field)>): (shape: seq<(string, Kind)>)
    ensures |shape| == |ms|
    ensures forall i :: 0 <= i < |ms| ==> shape[i] == (ms[i].0, KindOf(ms[i].1))
  {
    if ms == [] then [] else [(ms[0].0, KindOf(ms[0].1))] + ShapeOf(ms[1..])
  }

  function Values(ms: seq<(string, Field)>): (vs: seq<Field>)
    ensures |vs| == |ms| && forall i :: 0 <= i < |ms| ==> vs[i] == ms[i].1
  {
    if ms == [] then [] else [ms[0].1] + Values(ms[1..])
  }

  lemma ExpectPrefix(lit: string, rest: string)
    ensures Expect(lit, lit + rest) == Some(rest)
  {
    assert (lit + rest)[..|lit|] == lit;
    assert (lit + rest)[|lit|..] == rest;
  }

  /** Every escape this encoder writes is read back as its character. */
  lemma UnescapeOfEscapeChar(c: char, rest: string)
    requires EscapeChar(c) != [c]
    ensures EscapeChar(c)[0] == '\\'
    ensures Unescape(EscapeChar(c)[1..] + rest) == Some((c, |EscapeChar(c)| - 1))
  {
    var e := EscapeChar(c);
    var t := e[1..] + rest;
    if c != '"' && c != '\\' && c != '\U{8}' && c != '\U{C}' && c != '\n' && c != '\r' && c != '\t' {
      var v := c as int;
      assert t[0] == 'u' && t[1] == '0' && t[2] == '0';
      assert t[3] == HexDigit(v / 16) && t[4] == HexDigit(v % 16);
      assert HexValue(t[3]) == Some(v / 16) && HexValue(t[4]) == Some(v % 16);
    }
  }

  /** A string value is read back exactly, and the parser stops right after its closing quote. */
  lemma {:induction false} ParseStringBodyOfEscape(x: string, rest: string)
    ensures ParseStringBody(Escape(x) + "\"" + rest) == Some((x, rest))
  {
    var s := Escape(x) + "\"" + rest;
    if x == [] {
      assert s == "\"" + rest;
    } else {
      var e := EscapeChar(x[0]);
      var tail := Escape(x[1..]) + "\"" + rest;
      assert s == e + tail;
      ParseStringBodyOfEscape(x[1..], rest);
      if e == [x[0]] {
        assert s[0] == x[0] && s[1..] == tail;
      } else {
        UnescapeOfEscapeChar(x[0], tail);
        assert s[1..] == e[1..] + tail;
        assert s[1 + (|e| - 1)..] == tail;
      }
      assert [x[0]] + x[1..] == x;
    }
  }

  /** The digit run of a digit string followed by a non-digit is that string. */
  lemma {:induction false} DigitRunOf(d: string, rest: string)
    requires AllDigits(d)
    requires rest == [] || !IsDigit(rest[0])
    ensures DigitRun(d + rest) == |d|
  {
    if d != [] {
      assert (d + rest)[1..] == d[1..] + rest;
      DigitRunOf(d[1..], rest);
    } else {
      assert d + rest == rest;
    }
  }

  /** An integer's decimal text is read back as that integer, up to the next non-digit. */
  lemma ParseIntOfIntToString(i: int, rest: string)
    requires rest == [] || !IsDigit(rest[0])
    ensures ParseInt(IntToString(i) + rest) == Some((i, rest))
  {
    var n: nat := if i < 0 then -i else i;
    var d := NatToString(n);
    var s := d + rest;
    DigitRunOf(d, rest);
    assert s[..|d|] == d && s[|d|..] == rest;
    assert ParseNat(s) == Some((n, rest));
    if i < 0 {
      assert IntToString(i) + rest == "-" + s;
      assert ("-" + s)[1..] == s;
    }
  }

  lemma ParseFieldOfEncodeField(f: Field, rest: string)
    requires rest == [] || !IsDigit(rest[0])
    ensures ParseField(KindOf(f), EncodeField(f) + rest) == Some((f, rest))
  {
    match f
    case Text(t) =>
      assert EncodeField(f) + rest == "\"" + (Escape(t) + "\"" + rest);
      ExpectPrefix("\"", Escape(t) + "\"" + rest);
      ParseStringBodyOfEscape(t, rest);
    case Number(n) =>
      ParseIntOfIntToString(n, rest);
  }

  /** How `ParseMembers` reads one member and goes on. */
  lemma ParseMembersUnfold(shape: seq<(string, Kind)>, s: string, first: bool, t: string, f: Field, t': string,
                           fs: seq<Field>, rest: string)
    requires shape != []
    requires Expect(Lead(shape[0].0, first), s) == Some(t)
    requires ParseField(shape[0].1, t) == Some((f, t'))
    requires ParseMembers(shape[1..], t', false) == Some((fs, rest))
    ensures ParseMembers(shape, s, first) == Some(([f] + fs, rest))
  {
  }

  lemma EncodeMembersCons(ms: seq<(string, Field)>, first: bool, rest: string)
    requires ms != []
    ensures EncodeMembers(ms, first) + rest
         == Lead(ms[0].0, first) + (EncodeField(ms[0].1) + (EncodeMembers(ms[1..], false) + rest))
  {
  }

  /** One member more in front: read its key and value, then the rest as before. */
  lemma MembersStep(ms: seq<(string, Field)>, first: bool, rest: string)
    requires ms != []
    requires rest == [] || !IsDigit(rest[0])
    requires ParseMembers(ShapeOf(ms[1..]), EncodeMembers(ms[1..], false) + rest, false) == Some((Values(ms[1..]), rest))
    ensures ParseMembers(ShapeOf(ms), EncodeMembers(ms, first) + rest, first) == Some((Values(ms), rest))
  {
    var shape := ShapeOf(ms);
    var after := EncodeMembers(ms[1..], false) + rest;
    var t := EncodeField(ms[0].1) + after;
    EncodeMembersCons(ms, first, rest);
    ExpectPrefix(Lead(ms[0].0, first), t);
    assert after == [] || !IsDigit(after[0]) by {
      if ms[1..] != [] {
        assert after[0] == ',';
      }
    }
    ParseFieldOfEncodeField(ms[0].1, after);
    assert shape[1..] == ShapeOf(ms[1..]);
    ParseMembersUnfold(shape, EncodeMembers(ms, first) + rest, first, t, ms[0].1, after, Values(ms[1..]), rest);
    assert [ms[0].1] + Values(ms[1..]) == Values(ms);
  }

  /** The members are read back for their own keys and kinds, whatever non-digit text follows. */
  lemma {:induction false} ParseMembersOfEncode(ms: seq<(string, Field)>, first: bool, rest: string)
    requires rest == [] || !IsDigit(rest[0])
    ensures ParseMembers(ShapeOf(ms), EncodeMembers(ms, first) + rest, first) == Some((Values(ms), rest))
  {
    if ms != [] {
      ParseMembersOfEncode(ms[1..], false, rest);
      MembersStep(ms, first, rest);
    } else {
      assert ShapeOf(ms) == [] && Values(ms) == [];
      assert EncodeMembers(ms, first) + rest == rest;
    }
  }

  /** Parsing undoes `JSON.stringify` for a flat object of strings and integers. */
  lemma ObjectRoundTrip(ms: seq<(string, Field)>)
    ensures ParseObject(ShapeOf(ms), EncodeObject(ms)) == Some(Values(ms))
  {
    var body := EncodeMembers(ms, true) + "}";
    assert EncodeObject(ms) == "{" + body;
    ExpectPrefix("{", body);
    ParseMembersOfEncode(ms, true, "}");
  }
}
