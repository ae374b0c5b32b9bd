/**
 * The registration challenge of lib/otp-utils.ts: a record kept in one
 * cookie between the send, resend and verify routes, written as base64 of
 * the UTF-8 bytes of its JSON text; the six-digit code generator; and the
 * expiry and attempt constants.
 */
module OtpUtils {
  import opened Wrappers
  import opened Strings
  import opened Json
  import Base64
  import Utf8

  /** A pending registration: the code, its expiry (epoch ms), failed attempts and the sign-up payload. */
  datatype OtpData = OtpData(
    otp: string,
    expiresAt: int,
    attempts: int,
    firstName: string,
    lastName: string,
    password: string,
    email: string)

  const CookieName: string := "pending_registration"

  /** Five minutes, in milliseconds. */
  const OtpExpiryMs: int := 5 * 60 * 1000

  const MaxOtpAttempts: int := 3

  lemma ConstantsValues()
    ensures OtpExpiryMs == 300000 && OtpExpiryMs / 1000 == 300 && MaxOtpAttempts == 3
  {
  }

  /** The members of the record in the order the routes write them. */
  function Members(d: OtpData): (ms: seq<(string, Field)>)
    ensures ShapeOf(ms) == OtpShape()
  {
    [("otp", Text(d.otp)), ("expiresAt", Number(d.expiresAt)), ("attempts", Number(d.attempts)),
     ("firstName", Text(d.firstName)), ("lastName", Text(d.lastName)), ("password", Text(d.password)),
     ("email", Text(d.email))]
  }

  function OtpShape(): seq<(string, Kind)> {
    [("otp", TextKind), ("expiresAt", NumberKind), ("attempts", NumberKind), ("firstName", TextKind),
     ("lastName", TextKind), ("password", TextKind), ("email", TextKind)]
  }

  /** The record from the values of its seven members, read in the order of `OtpShape`. */
  function FromValues(vs: seq<Field>): (r: Option<OtpData>)
    ensures r.Some? ==> Values(Members(r.value)) == vs
  {
    if |vs| == 7 && vs[0].Text? && vs[1].Number? && vs[2].Number? && vs[3].Text? && vs[4].Text?
       && vs[5].Text? && vs[6].Text?
    then Some(OtpData(vs[0].text, vs[1].num, vs[2].num, vs[3].text, vs[4].text, vs[5].text, vs[6].text))
    else None
  }

  /** `encode`: `Buffer.from(JSON.stringify(data)).toString('base64')`. */
  function Encode(d: OtpData): (s: string)
    ensures |s| % 4 == 0
  {
    Base64.Encode(Utf8.Encode(EncodeObject(Members(d))))
  }

  /**
   * `decode`: base64, then UTF-8, then the JSON record; any failure on the
   * way is None, as the `catch` turns every error into `null`.
   */
  function Decode(s: string): (r: Option<OtpData>)
    ensures |s| % 4 != 0 ==> r.None?
  {
    match Base64.Decode(s)
    case None => None
    case Some(bytes) =>
      match Utf8.Decode(bytes)
      case None => None
      case Some(text) =>
        match ParseObject(OtpShape(), text)
        case None => None
        case Some(vs) => FromValues(vs)
  }

  /** How `Decode` reads a value once each layer is known. */
  lemma DecodeLayers(s: string, bytes: seq<Base64.Byte>, text: string, vs: seq<Field>)
    requires Base64.Decode(s) == Some(bytes) && Utf8.Decode(bytes) == Some(text)
    requires ParseObject(OtpShape(), text) == Some(vs)
    ensures Decode(s) == FromValues(vs)
  {
  }

  /** The record is read back from the values of its own members. */
  lemma FromValuesOfMembers(d: OtpData)
    ensures FromValues(Values(Members(d))) == Some(d)
  {
    var vs := Values(Members(d));
    assert vs[0] == Text(d.otp) && vs[1] == Number(d.expiresAt) && vs[2] == Number(d.attempts);
    assert vs[3] == Text(d.firstName) && vs[4] == Text(d.lastName);
    assert vs[5] == Text(d.password) && vs[6] == Text(d.email);
  }

  /** Each layer of the encoding is undone by the matching layer of the decoding. */
  lemma LayersRoundTrip(d: OtpData)
    ensures Decode(Encode(d)) == FromValues(Values(Members(d)))
  {
    var text := EncodeObject(Members(d));
    var bytes := Utf8.Encode(text);
    Base64.RoundTrip(bytes);
    Utf8.RoundTrip(text);
    ObjectRoundTrip(Members(d));
    DecodeLayers(Base64.Encode(bytes), bytes, text, Values(Members(d)));
  }

  /** Decoding undoes encoding for every record. */
  lemma CodecRoundTrip(d: OtpData)
    ensures Decode(Encode(d)) == Some(d)
  {
    LayersRoundTrip(d);
    FromValuesOfMembers(d);
  }

  /** An encoded record is never the empty cookie value. */
  lemma EncodedIsNonEmpty(d: OtpData)
    ensures Encode(d) != ""
  {
    var text := EncodeObject(Members(d));
    assert text[0] == '{';
    assert |Utf8.Encode(text)| >= |text| > 0;
  }

  /** Malformed input is refused: an empty value, or one whose length is not a multiple of four. */
  lemma DecodeRefusesMalformed(s: string)
    ensures s == "" ==> Decode(s).None?
    ensures |s| % 4 != 0 ==> Decode(s).None?
  {
    if s == "" {
      assert Base64.Decode(s) == Some([]);
      assert Utf8.Decode([]) == Some([]);
    }
  }

  /** What `getOTPData` yields for the cookie: nothing for a missing or empty value, else the decoded record. */
  function ReadSlot(slot: Option<string>): Option<OtpData> {
    if slot.None? || slot.value == "" then None else Decode(slot.value)
  }

  /** After a set, a get returns the record that was set. */
  lemma SetThenGet(d: OtpData)
    ensures ReadSlot(Some(Encode(d))) == Some(d)
  {
    EncodedIsNonEmpty(d);
    CodecRoundTrip(d);
  }

  /** The cookie `pending_registration`, as the one slot it is. */
  class OtpCookie {
    var slot: Option<string>

    constructor ()
      ensures slot.None?
    {
      slot := None;
    }

    /** `setOTPData`: the slot now holds the encoding of `d`, whatever it held. */
    method SetOtpData(d: OtpData)
      modifies this
      ensures slot == Some(Encode(d))
    {
      slot := Some(Encode(d));
    }

    /** `getOTPData`. */
    method GetOtpData() returns (r: Option<OtpData>)
      ensures r == ReadSlot(slot)
      ensures slot.None? ==> r.None?
    {
      if slot.None? || slot.value == "" {
        return None;
      }
      r := Decode(slot.value);
    }

    /** `deleteOTPData`: a following get finds nothing. */
    method DeleteOtpData()
      modifies this
      ensures slot.None? && ReadSlot(slot).None?
    {
      slot := None;
    }

    /**
     * `updateOTPAttempts`: read the record, change its attempt count, write
     * it back; nothing happens when no record can be read.
     */
    method UpdateOtpAttempts(attempts: int)
      modifies this
      ensures ReadSlot(old(slot)).None? ==> slot == old(slot)
      ensures ReadSlot(old(slot)).Some? ==>
        ReadSlot(slot) == Some(ReadSlot(old(slot)).value.(attempts := attempts))
    {
      var data := GetOtpData();
      if data.Some? {
        SetOtpData(data.value.(attempts := attempts));
        SetThenGet(data.value.(attempts := attempts));
      }
    }
  }

  /** Rewriting the attempt count through the cookie changes that field and no other. */
  lemma UpdateChangesOnlyAttempts(d: OtpData, attempts: int)
    ensures var r := ReadSlot(Some(Encode(d.(attempts := attempts))));
      && r.Some? && r.value.attempts == attempts
      && r.value.otp == d.otp && r.value.expiresAt == d.expiresAt && r.value.email == d.email
      && r.value.firstName == d.firstName && r.value.lastName == d.lastName && r.value.password == d.password
  {
    SetThenGet(d.(attempts := attempts));
  }

  /**
   * `generateOTP`: `Math.floor(100000 + r * 900000).toString()` for the
   * draw `r` of `Math.random()`, in [0, 1).
   */
  function GenerateOtp(r: real): (s: string)
    requires 0.0 <= r < 1.0
    ensures |s| == 6 && AllDigits(s)
    ensures 100000 <= DigitsValue(s) <= 999999
  {
    var v := (100000.0 + r * 900000.0).Floor;
    assert 100000 <= v < 1000000;
    assert Pow10(5) == 100000 && Pow10(6) == 1000000;
    NatToStringLength(v, 6);
    NatToString(v)
  }
}
