/**
 * POST /api/auth/send-otp (app/api/auth/send-otp/route.ts): check the
 * registration form in a fixed order, then issue a challenge into the
 * registration cookie.
 */
module SendOtp {
  import opened Wrappers
  import opened Strings
  import opened Types
  import opened OtpUtils

  /** The request body; None for a field that is absent or null. */
  datatype SendBody = SendBody(email: Option<string>, firstName: Option<string>, lastName: Option<string>,
                               password: Option<string>)

  datatype SendResponse =
    | Refused(status: int, error: string)
    | Sent(message: string, expiresIn: int, devOtp: Option<string>)

  const PresenceError: string := "Email, first name, last name, and password are required"
  const FormatError: string := "Invalid email format"
  const LengthError: string := "Password must be at least 6 characters"

  predicate AllPresent(b: SendBody) {
    !MissingText(b.email) && !MissingText(b.firstName) && !MissingText(b.lastName) && !MissingText(b.password)
  }

  /** The first check the body fails, in the route's order, or None when it passes them all. */
  function SendCheck(b: SendBody): (r: Option<SendResponse>)
    ensures r.None? <==> AllPresent(b) && MatchesEmail(b.email.value) && |b.password.value| >= 6
    ensures r.Some? ==> r.value.Refused? && r.value.status == 400
  {
    if !AllPresent(b) then Some(Refused(400, PresenceError))
    else if !MatchesEmail(b.email.value) then Some(Refused(400, FormatError))
    else if |b.password.value| < 6 then Some(Refused(400, LengthError))
    else None
  }

  /** Presence is checked first, then the email format, then the password length. */
  lemma ChecksInOrder(b: SendBody)
    ensures !AllPresent(b) ==> SendCheck(b) == Some(Refused(400, PresenceError))
    ensures AllPresent(b) && !MatchesEmail(b.email.value) ==> SendCheck(b) == Some(Refused(400, FormatError))
    ensures AllPresent(b) && MatchesEmail(b.email.value) && |b.password.value| < 6 ==>
              SendCheck(b) == Some(Refused(400, LengthError))
  {
  }

  /** The challenge the route stores: a fresh code, no attempts, the payload verbatim and the email lower-cased. */
  function Issued(b: SendBody, otp: string, now: int): (d: OtpData)
    requires AllPresent(b)
    ensures d.attempts == 0 && d.expiresAt == now + 300000 && d.email == ToLower(b.email.value)
    ensures d.firstName == b.firstName.value && d.lastName == b.lastName.value && d.password == b.password.value
  {
    OtpData(otp, now + OtpExpiryMs, 0, b.firstName.value, b.lastName.value, b.password.value, ToLower(b.email.value))
  }

  /**
   * The handler. `body` is None when the request is not JSON; `draw` is the
   * value of `Math.random()`; `isDev` says whether the server runs in
   * development, the only case in which the code is echoed.
   */
  method Post(cookie: OtpCookie, body: Option<SendBody>, now: int, draw: real, isDev: bool)
    returns (resp: SendResponse)
    requires 0.0 <= draw < 1.0
    modifies cookie
    ensures body.None? ==> resp == Refused(500, "Failed to send OTP. Please try again.")
    ensures body.Some? && SendCheck(body.value).Some? ==> resp == SendCheck(body.value).value
    ensures resp.Refused? ==> cookie.slot == old(cookie.slot)
    ensures body.Some? && SendCheck(body.value).None? ==>
      var d := Issued(body.value, GenerateOtp(draw), now);
      && cookie.slot == Some(Encode(d))
      && resp == Sent("OTP sent successfully to your email", 300, if isDev then Some(d.otp) else None)
  {
    if body.None? {
      return Refused(500, "Failed to send OTP. Please try again.");
    }
    var failed := SendCheck(body.value);
    if failed.Some? {
      return failed.value;
    }
    var otp := GenerateOtp(draw);
    var d := Issued(body.value, otp, now);
    cookie.SetOtpData(d);
    resp := Sent("OTP sent successfully to your email", OtpExpiryMs / 1000, if isDev then Some(otp) else None);
  }

  /** Every code the route issues is six digits, between 100000 and 999999. */
  lemma IssuedCodeIsSixDigits(b: SendBody, draw: real, now: int)
    requires AllPresent(b) && 0.0 <= draw < 1.0
    ensures var d := Issued(b, GenerateOtp(draw), now);
      |d.otp| == 6 && AllDigits(d.otp) && 100000 <= DigitsValue(d.otp) <= 999999
  {
  }
}
