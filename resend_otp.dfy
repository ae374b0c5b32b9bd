/**
 * POST /api/auth/resend-otp (app/api/auth/resend-otp/route.ts): reissue the
 * code of the pending registration in the cookie, keeping its payload.
 */
module ResendOtp {
  import opened Wrappers
  import opened Strings
  import opened Types
  import opened OtpUtils
  import opened SendOtp

  const EmailError: string := "Email is required"
  const NoPendingError: string := "No pending registration found. Please start over."
  const MismatchError: string := "Email mismatch. Please start over."
  const FailureError: string := "Failed to resend OTP. Please try again."
  const ResentMessage: string := "New OTP sent successfully"

  /** A stored record can be reissued only when its name and password fields are all non-empty. */
  predicate HasPayload(d: OtpData) {
    d.firstName != "" && d.lastName != "" && d.password != ""
  }

  /**
   * The first check that fails, in the route's order, for the request email
   * and the record read from the cookie; None when the code can be reissued.
   */
  function ResendCheck(email: Option<string>, existing: Option<OtpData>): (r: Option<SendResponse>)
    ensures r.None? <==>
      !MissingText(email) && existing.Some? && HasPayload(existing.value) && existing.value.email == ToLower(email.value)
    ensures r.Some? ==> r.value.Refused? && r.value.status == 400
    ensures MissingText(email) ==> r == Some(Refused(400, EmailError))
    ensures !MissingText(email) && (existing.None? || !HasPayload(existing.value)) ==>
              r == Some(Refused(400, NoPendingError))
    ensures !MissingText(email) && existing.Some? && HasPayload(existing.value) && existing.value.email != ToLower(email.value) ==>
              r == Some(Refused(400, MismatchError))
  {
    if MissingText(email) then Some(Refused(400, EmailError))
    else if existing.None? || !HasPayload(existing.value) then Some(Refused(400, NoPendingError))
    else if existing.value.email != ToLower(email.value) then Some(Refused(400, MismatchError))
    else None
  }

  /** The record the route writes back: a new code and expiry, no attempts, the rest copied from `prior`. */
  function Reissued(prior: OtpData, otp: string, now: int): (d: OtpData)
    ensures d.otp == otp && d.expiresAt == now + 300000 && d.attempts == 0
    ensures d.firstName == prior.firstName && d.lastName == prior.lastName
    ensures d.password == prior.password && d.email == prior.email
  {
    OtpData(otp, now + OtpExpiryMs, 0, prior.firstName, prior.lastName, prior.password, prior.email)
  }

  /** The checks and the write once the body is read: `existing` is what the cookie held. */
  method CheckAndReissue(cookie: OtpCookie, email: Option<string>, existing: Option<OtpData>, now: int, draw: real, isDev: bool)
    returns (resp: SendResponse)
    requires 0.0 <= draw < 1.0
    modifies cookie
    ensures ResendCheck(email, existing).Some? ==> resp == ResendCheck(email, existing).value && cookie.slot == old(cookie.slot)
    ensures ResendCheck(email, existing).None? ==>
      var d := Reissued(existing.value, GenerateOtp(draw), now);
      && cookie.slot == Some(Encode(d))
      && resp == Sent(ResentMessage, 300, if isDev then Some(d.otp) else None)
  {
    var failed := ResendCheck(email, existing);
    if failed.Some? {
      return failed.value;
    }
    var otp := GenerateOtp(draw);
    var d := Reissued(existing.value, otp, now);
    cookie.SetOtpData(d);
    resp := Sent(ResentMessage, OtpExpiryMs / 1000, if isDev then Some(otp) else None);
  }

  /**
   * The handler. `email` is the `email` member of the body, and `body` is
   * false when the body is not JSON; `draw` is the value of `Math.random()`.
   */
  method Post(cookie: OtpCookie, body: bool, email: Option<string>, now: int, draw: real, isDev: bool)
    returns (resp: SendResponse)
    requires 0.0 <= draw < 1.0
    modifies cookie
    ensures !body ==> resp == Refused(500, FailureError)
    ensures body && ResendCheck(email, ReadSlot(old(cookie.slot))).Some? ==>
              resp == ResendCheck(email, ReadSlot(old(cookie.slot))).value
    ensures resp.Refused? ==> cookie.slot == old(cookie.slot)
    ensures body && ResendCheck(email, ReadSlot(old(cookie.slot))).None? ==>
      var d := Reissued(ReadSlot(old(cookie.slot)).value, GenerateOtp(draw), now);
      && cookie.slot == Some(Encode(d))
      && resp == Sent(ResentMessage, 300, if isDev then Some(d.otp) else None)
  {
    if !body {
      return Refused(500, FailureError);
    }
    if MissingText(email) {
      return Refused(400, EmailError);
    }
    var existing := cookie.GetOtpData();
    resp := CheckAndReissue(cookie, email, existing, now, draw, isDev);
  }

  /**
   * After a resend the cookie reads back as the prior registration with a
   * new code, a new expiry and the attempt count reset.
   */
  lemma ResendKeepsPayload(prior: OtpData, otp: string, now: int)
    ensures var r := ReadSlot(Some(Encode(Reissued(prior, otp, now))));
      && r.Some? && r.value.otp == otp && r.value.attempts == 0 && r.value.expiresAt == now + 300000
      && r.value.firstName == prior.firstName && r.value.lastName == prior.lastName
      && r.value.password == prior.password && r.value.email == prior.email
  {
    SetThenGet(Reissued(prior, otp, now));
  }

  /** Resending twice leaves the payload of the first registration in place. */
  lemma ResendTwiceKeepsPayload(prior: OtpData, otp1: string, otp2: string, now1: int, now2: int)
    ensures Reissued(Reissued(prior, otp1, now1), otp2, now2) == Reissued(prior, otp2, now2)
  {
  }
}
