/**
 * POST /api/auth/verify-otp (app/api/auth/verify-otp/route.ts): check a
 * submitted code against the pending registration in the cookie, in a fixed
 * order, and create the account once it matches.
 */
module VerifyOtp {
  import opened Wrappers
  import opened Strings
  import opened Types
  import opened OtpUtils

  const RequiredError: string := "Email and OTP are required"
  const NotFoundError: string := "OTP expired or not found. Please request a new OTP."
  const MismatchError: string := "Email mismatch. Please request a new OTP."
  const ExpiredError: string := "OTP has expired. Please request a new OTP."
  const TooManyError: string := "Too many failed attempts. Please request a new OTP."
  const NoPayloadError: string := "Registration data not found. Please start over."
  const FailureError: string := "Failed to verify OTP. Please try again."
  const LoginMessage: string := "Account created successfully. Please log in."
  const VerifiedMessage: string := "Account created and verified successfully"

  /** What a refusal does to the cookie: nothing, delete it, or rewrite the attempt count. */
  datatype Action = Keep | Clear | SetAttempts(attempts: int)

  /** The outcome of the checks: a 400 with its effect on the cookie, or the matched record. */
  datatype Verdict = Reject(error: string, action: Action) | Accept(d: OtpData)

  /** The cookie's contents after an action, as `getOTPData` reads them. */
  function Apply(a: Action, stored: Option<OtpData>): (r: Option<OtpData>)
    ensures a.Keep? ==> r == stored
    ensures a.Clear? ==> r.None?
    ensures a.SetAttempts? && stored.Some? ==> r == Some(stored.value.(attempts := a.attempts))
  {
    match a
    case Keep => stored
    case Clear => None
    case SetAttempts(n) => if stored.Some? then Some(stored.value.(attempts := n)) else None
  }

  /** The message of a wrong code: the attempts left, with "attempt" in the plural unless exactly one is left. */
  function AttemptsMessage(remaining: int): (m: string)
    ensures remaining == 2 ==> m == "Invalid OTP. 2 attempts remaining."
    ensures remaining == 1 ==> m == "Invalid OTP. 1 attempt remaining."
    ensures remaining == 0 ==> m == "Invalid OTP. 0 attempts remaining."
  {
    "Invalid OTP. " + IntToString(remaining) + " attempt" + (if remaining != 1 then "s" else "") + " remaining."
  }

  /**
   * The checks of the route up to account creation, in its order: presence
   * of email and code, a record in the cookie, the email, the expiry, the
   * attempt count, the code, and the sign-up payload.
   */
  function Decide(email: Option<string>, otp: Option<string>, stored: Option<OtpData>, now: int): (v: Verdict)
    ensures v.Accept? ==> && stored == Some(v.d) && email.Some? && otp.Some?
                          && v.d.email == ToLower(email.value) && now <= v.d.expiresAt
                          && v.d.attempts < MaxOtpAttempts && v.d.otp == otp.value
    ensures v.Reject? && v.action.SetAttempts? ==> stored.Some? && v.action.attempts == stored.value.attempts + 1
  {
    if MissingText(email) || MissingText(otp) then Reject(RequiredError, Keep)
    else if stored.None? then Reject(NotFoundError, Keep)
    else if stored.value.email != ToLower(email.value) then Reject(MismatchError, Keep)
    else if now > stored.value.expiresAt then Reject(ExpiredError, Clear)
    else if stored.value.attempts >= MaxOtpAttempts then Reject(TooManyError, Clear)
    else if stored.value.otp != otp.value then
      var n := stored.value.attempts + 1;
      Reject(AttemptsMessage(MaxOtpAttempts - n), SetAttempts(n))
    else if stored.value.firstName == "" || stored.value.lastName == "" || stored.value.password == "" then
      Reject(NoPayloadError, Keep)
    else Accept(stored.value)
  }

  /** The metadata the account is created with. */
  datatype SignUpRequest = SignUpRequest(
    email: string,
    password: string,
    firstName: string,
    lastName: string,
    fullName: string,
    role: UserRole,
    emailVerified: bool)

  /** The sign-up call for the matched record: the email as submitted, role maker, marked verified. */
  function SignUpOf(email: string, d: OtpData): (r: SignUpRequest)
    ensures r.email == email && r.password == d.password && r.role == Maker && r.emailVerified
    ensures r.firstName == d.firstName && r.lastName == d.lastName
    ensures r.fullName == d.firstName + " " + d.lastName
  {
    SignUpRequest(email, d.password, d.firstName, d.lastName, d.firstName + " " + d.lastName, Maker, true)
  }

  /** `authData.user` of a successful sign-up. */
  datatype AuthUser = AuthUser(id: string, email: string)

  datatype UserSummary = UserSummary(id: Option<string>, email: Option<string>, firstName: string, lastName: string)

  datatype VerifyResponse =
    | Failed(status: int, error: string)
    | Created(message: string, redirectTo: string, user: Option<UserSummary>)

  /**
   * The handler. `body` is false when the body is not JSON, and `email` and
   * `otp` are its members. The authentication service is an oracle:
   * `signUpError` is the message of a failed sign-up, `user` the user of a
   * successful one, and `signInOk` whether the sign-in after it succeeds.
   * `signUp` is the sign-up call the route makes, if any.
   */
  method Post(cookie: OtpCookie, body: bool, email: Option<string>, otp: Option<string>, now: int,
              signUpError: Option<string>, user: Option<AuthUser>, signInOk: bool)
    returns (resp: VerifyResponse, signUp: Option<SignUpRequest>)
    modifies cookie
    ensures !body ==> resp == Failed(500, FailureError) && signUp.None? && cookie.slot == old(cookie.slot)
    ensures body && Decide(email, otp, ReadSlot(old(cookie.slot)), now).Reject? ==>
      var v := Decide(email, otp, ReadSlot(old(cookie.slot)), now);
      && resp == Failed(400, v.error) && signUp.None?
      && (v.action.Keep? ==> cookie.slot == old(cookie.slot))
      && (v.action.Clear? ==> cookie.slot.None?)
      && ReadSlot(cookie.slot) == Apply(v.action, ReadSlot(old(cookie.slot)))
    ensures body && Decide(email, otp, ReadSlot(old(cookie.slot)), now).Accept? ==>
      var d := Decide(email, otp, ReadSlot(old(cookie.slot)), now).d;
      && signUp == Some(SignUpOf(email.value, d))
      && (signUpError.Some? ==> resp == Failed(400, signUpError.value) && cookie.slot == old(cookie.slot))
      && (signUpError.None? && !signInOk ==>
            cookie.slot.None? && resp == Created(LoginMessage, "/auth/login", None))
      && (signUpError.None? && signInOk ==>
            cookie.slot.None? &&
            resp == Created(VerifiedMessage, "/auth/onboarding",
                            Some(UserSummary(if user.Some? then Some(user.value.id) else None,
                                             if user.Some? then Some(user.value.email) else None,
                                             d.firstName, d.lastName))))
  {
    if !body {
      return Failed(500, FailureError), None;
    }
    if MissingText(email) || MissingText(otp) {
      return Failed(400, RequiredError), None;
    }
    var stored := cookie.GetOtpData();
    var v := Decide(email, otp, stored, now);
    if v.Reject? {
      if v.action.Clear? {
        cookie.DeleteOtpData();
      } else if v.action.SetAttempts? {
        cookie.UpdateOtpAttempts(v.action.attempts);
      }
      return Failed(400, v.error), None;
    }
    var d := v.d;
    signUp := Some(SignUpOf(email.value, d));
    if signUpError.Some? {
      return Failed(400, signUpError.value), signUp;
    }
    cookie.DeleteOtpData();
    if !signInOk {
      resp := Created(LoginMessage, "/auth/login", None);
      return;
    }
    var id := if user.Some? then Some(user.value.id) else None;
    var mail := if user.Some? then Some(user.value.email) else None;
    resp := Created(VerifiedMessage, "/auth/onboarding", Some(UserSummary(id, mail, d.firstName, d.lastName)));
  }

  /** A code is accepted exactly when every check passes, and the accepted record is the stored one. */
  lemma AcceptIff(email: Option<string>, otp: Option<string>, stored: Option<OtpData>, now: int)
    ensures Decide(email, otp, stored, now).Accept? <==>
      && !MissingText(email) && !MissingText(otp) && stored.Some?
      && stored.value.email == ToLower(email.value)
      && now <= stored.value.expiresAt && stored.value.attempts < 3
      && stored.value.otp == otp.value
      && stored.value.firstName != "" && stored.value.lastName != "" && stored.value.password != ""
    ensures Decide(email, otp, stored, now).Accept? ==> Decide(email, otp, stored, now).d == stored.value
  {
  }

  /** A mismatched email is refused whatever the code, and the record stays in the cookie. */
  lemma MismatchKeepsRecord(email: string, otp: string, d: OtpData, now: int)
    requires email != "" && otp != "" && d.email != ToLower(email)
    ensures Decide(Some(email), Some(otp), Some(d), now) == Reject(MismatchError, Keep)
  {
  }

  /** Once the expiry has passed, even the right code fails and the record is deleted. */
  lemma ExpiredFailsWithRightCode(email: string, d: OtpData, now: int)
    requires email != "" && d.otp != "" && d.email == ToLower(email) && now > d.expiresAt
    ensures Decide(Some(email), Some(d.otp), Some(d), now) == Reject(ExpiredError, Clear)
    ensures Apply(Clear, Some(d)).None?
  {
  }

  /** After three failed attempts, even the right code fails and the record is deleted. */
  lemma ExhaustedFailsWithRightCode(email: string, d: OtpData, now: int)
    requires email != "" && d.otp != "" && d.email == ToLower(email) && now <= d.expiresAt
    requires d.attempts >= 3
    ensures Decide(Some(email), Some(d.otp), Some(d), now) == Reject(TooManyError, Clear)
  {
  }

  /** A wrong code, every earlier check passing, stores one more attempt and reports what is left. */
  lemma WrongCodeCounts(email: string, otp: string, d: OtpData, now: int)
    requires email != "" && otp != "" && d.email == ToLower(email) && now <= d.expiresAt
    requires d.attempts < 3 && otp != d.otp
    ensures Decide(Some(email), Some(otp), Some(d), now) ==
              Reject(AttemptsMessage(2 - d.attempts), SetAttempts(d.attempts + 1))
    ensures Apply(SetAttempts(d.attempts + 1), Some(d)) == Some(d.(attempts := d.attempts + 1))
  {
    var n := d.attempts + 1;
    assert MaxOtpAttempts - n == 2 - d.attempts;
    var m := AttemptsMessage(2 - d.attempts);
    assert Decide(Some(email), Some(otp), Some(d), now) == Reject(m, SetAttempts(n));
  }

  /** The state after a submission: the cookie record once the verdict's action is applied. */
  function After(email: string, otp: string, stored: Option<OtpData>, now: int): Option<OtpData> {
    var v := Decide(Some(email), Some(otp), stored, now);
    if v.Reject? then Apply(v.action, stored) else None
  }

  /**
   * From a fresh record: two wrong codes report 2 and then 1 attempt left,
   * and the right code then succeeds.
   */
  lemma TwoWrongThenRight(email: string, d: OtpData, w1: string, w2: string, now: int)
    requires email != "" && d.email == ToLower(email) && d.attempts == 0 && now <= d.expiresAt
    requires d.otp != "" && w1 != "" && w2 != "" && w1 != d.otp && w2 != d.otp
    requires d.firstName != "" && d.lastName != "" && d.password != ""
    ensures Decide(Some(email), Some(w1), Some(d), now) ==
              Reject("Invalid OTP. 2 attempts remaining.", SetAttempts(1))
    ensures After(email, w1, Some(d), now) == Some(d.(attempts := 1))
    ensures Decide(Some(email), Some(w2), Some(d.(attempts := 1)), now) ==
              Reject("Invalid OTP. 1 attempt remaining.", SetAttempts(2))
    ensures After(email, w2, Some(d.(attempts := 1)), now) == Some(d.(attempts := 2))
    ensures Decide(Some(email), Some(d.otp), Some(d.(attempts := 2)), now) == Accept(d.(attempts := 2))
  {
    WrongCodeCounts(email, w1, d, now);
    WrongCodeCounts(email, w2, d.(attempts := 1), now);
  }

  /** From a fresh record, three wrong codes lock it: the right code then fails and the record is deleted. */
  lemma ThreeWrongLockOut(email: string, d: OtpData, w1: string, w2: string, w3: string, now: int)
    requires email != "" && d.email == ToLower(email) && d.attempts == 0 && now <= d.expiresAt
    requires d.otp != "" && w1 != "" && w2 != "" && w3 != "" && w1 != d.otp && w2 != d.otp && w3 != d.otp
    ensures After(email, w3, After(email, w2, After(email, w1, Some(d), now), now), now) == Some(d.(attempts := 3))
    ensures Decide(Some(email), Some(d.otp), Some(d.(attempts := 3)), now) == Reject(TooManyError, Clear)
    ensures After(email, d.otp, Some(d.(attempts := 3)), now).None?
  {
    WrongCodeCounts(email, w1, d, now);
    WrongCodeCounts(email, w2, d.(attempts := 1), now);
    WrongCodeCounts(email, w3, d.(attempts := 2), now);
    assert After(email, w1, Some(d), now) == Some(d.(attempts := 1));
    assert After(email, w2, Some(d.(attempts := 1)), now) == Some(d.(attempts := 2));
  }

  /** Without a record in the cookie, no submission leaves one behind. */
  lemma RefusalNeverCreates(email: string, otp: string, now: int)
    ensures After(email, otp, None, now).None?
  {
  }
}
