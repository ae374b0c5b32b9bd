/**
 * POST /api/auth/mfa/challenge (app/api/auth/mfa/challenge/route.ts): the
 * second factor of a login. `send` stores a login code in the user's
 * metadata and mails it; `verify` checks a submitted code and withdraws it.
 */
module MfaChallenge {
  import opened Wrappers
  import opened Types
  import opened Store
  import opened OtpUtils
  import opened UserMetadata
  import opened Email
  import Mfa

  const LoginCodeKey: string := "mfa_login_otp"
  const LoginExpiryKey: string := "mfa_login_otp_expires"

  const InternalError: string := "Internal server error"
  const ConfigError: string := "Server configuration error"
  const NotAuthenticated: string := "Not authenticated"
  const MailError: string := "Failed to send OTP"
  const RequiredError: string := "OTP is required"
  const NoCodeError: string := "No MFA challenge found. Please try again."
  const ExpiredError: string := "Code expired. Please request a new one."
  const WrongError: string := "Invalid code"
  const ActionError: string := "Invalid action"

  datatype ChallengeResponse = Failure(status: int, error: string) | ChallengeSent(message: string) | Verified

  function FailureMessage(f: CodeFailure): string {
    match f
    case NoCode => NoCodeError
    case Expired => ExpiredError
    case WrongCode => WrongError
  }

  /**
   * The first name the code mail greets: the first word of the profile's
   * full name, or "User". The profile is looked up with `.single()` on its
   * primary key `id`, so the first row with that id is the only one.
   */
  function ProfileGreeting(profiles: seq<Profile>, id: string): (g: string)
    ensures g != ""
  {
    var p := FirstWhere(profiles, (p: Profile) => p.id == id);
    Greeting(if p.Some? then p.value.fullName else None)
  }

  /**
   * POST. `body` says whether the body is JSON, and `action` (when a
   * string) and `otp` (any JSON value) are its members. `serviceKey` is
   * whether the service-role key is configured, `signedIn` whether the
   * session has a user. The services are oracles: `updateOk` whether the
   * metadata update takes effect (its error is not checked) and `mail` what
   * the mail provider does. `sent` is the code mail the route asks for.
   */
  method Post(user: AuthUser, db: Db, body: bool, action: Option<string>, otp: Option<Meta>, serviceKey: bool,
              signedIn: bool, now: int, draw: real, updateOk: bool, mail: ProviderOutcome)
    returns (resp: ChallengeResponse, sent: Option<OtpEmail>)
    requires 0.0 <= draw < 1.0
    modifies user
    ensures !body ==> resp == Failure(500, InternalError)
    ensures body && !serviceKey ==> resp == Failure(500, ConfigError)
    ensures !body || !serviceKey ==> user.metadata == old(user.metadata) && sent.None?
    ensures resp.Failure? && resp.status != 500 ==> user.metadata == old(user.metadata) && sent.None?
    // send
    ensures body && serviceKey && action == Some("send") ==>
      && (!signedIn ==> resp == Failure(401, NotAuthenticated))
      && (signedIn ==>
            && user.metadata == (if updateOk
                                 then Merge(old(user.metadata),
                                            Issue(LoginCodeKey, LoginExpiryKey, GenerateOtp(draw), now + OtpExpiryMs))
                                 else old(user.metadata))
            && sent == Some(OtpEmail(user.email, ProfileGreeting(db.profiles, user.id), GenerateOtp(draw), 5))
            && resp == (if mail.Accepted? then ChallengeSent("MFA code sent to your email") else Failure(500, MailError)))
    // verify
    ensures body && serviceKey && action == Some("verify") ==>
      && sent.None?
      && (!Truthy(otp) ==> resp == Failure(400, RequiredError))
      && (Truthy(otp) && !signedIn ==> resp == Failure(401, NotAuthenticated))
      && (Truthy(otp) && signedIn ==>
            var failure := CheckCode(old(user.metadata), LoginCodeKey, LoginExpiryKey, otp.value, now);
            && (failure.Some? ==> resp == Failure(400, FailureMessage(failure.value)))
            && (failure.None? ==>
                  resp == Verified
                  && user.metadata == (if updateOk then Merge(old(user.metadata), Withdraw(LoginCodeKey, LoginExpiryKey))
                                       else old(user.metadata))))
    ensures body && serviceKey && action != Some("send") && action != Some("verify") ==>
      resp == Failure(400, ActionError)
  {
    if !body {
      return Failure(500, InternalError), None;
    }
    if !serviceKey {
      return Failure(500, ConfigError), None;
    }
    if action == Some("send") {
      if !signedIn {
        return Failure(401, NotAuthenticated), None;
      }
      var code := GenerateOtp(draw);
      var expiresAt := now + OtpExpiryMs;
      user.Update(Issue(LoginCodeKey, LoginExpiryKey, code, expiresAt), updateOk);
      var greeting := ProfileGreeting(db.profiles, user.id);
      sent := Some(OtpEmail(user.email, greeting, code, 5));
      if !mail.Accepted? {
        return Failure(500, MailError), sent;
      }
      return ChallengeSent("MFA code sent to your email"), sent;
    }
    if action == Some("verify") {
      if !Truthy(otp) {
        return Failure(400, RequiredError), None;
      }
      if !signedIn {
        return Failure(401, NotAuthenticated), None;
      }
      var failure := CheckCode(user.metadata, LoginCodeKey, LoginExpiryKey, otp.value, now);
      if failure.Some? {
        return Failure(400, FailureMessage(failure.value)), None;
      }
      user.Update(Withdraw(LoginCodeKey, LoginExpiryKey), updateOk);
      return Verified, None;
    }
    return Failure(400, ActionError), None;
  }

  /** A login challenge touches neither the enrolment code nor the MFA flag. */
  lemma ChallengeLeavesEnrolment(m: Fields, code: string, expiresAt: int)
    ensures var m' := Merge(m, Issue(LoginCodeKey, LoginExpiryKey, code, expiresAt));
      && Get(m', Mfa.CodeKey) == Get(m, Mfa.CodeKey)
      && Get(m', Mfa.ExpiryKey) == Get(m, Mfa.ExpiryKey)
      && Get(m', Mfa.EnabledKey) == Get(m, Mfa.EnabledKey)
    ensures var m' := Merge(m, Withdraw(LoginCodeKey, LoginExpiryKey));
      Get(m', Mfa.EnabledKey) == Get(m, Mfa.EnabledKey)
  {
    MergeKeepsOthers(m, Issue(LoginCodeKey, LoginExpiryKey, code, expiresAt), Mfa.CodeKey);
    MergeKeepsOthers(m, Issue(LoginCodeKey, LoginExpiryKey, code, expiresAt), Mfa.ExpiryKey);
    MergeKeepsOthers(m, Issue(LoginCodeKey, LoginExpiryKey, code, expiresAt), Mfa.EnabledKey);
    MergeKeepsOthers(m, Withdraw(LoginCodeKey, LoginExpiryKey), Mfa.EnabledKey);
  }

  /** A code submitted as a JSON number never matches the stored text code. */
  lemma NumericCodeNeverMatches(m: Fields, n: int, now: int)
    requires Truthy(Get(m, LoginCodeKey)) && m[LoginCodeKey].MText?
    ensures CheckCode(m, LoginCodeKey, LoginExpiryKey, MNum(n), now).Some?
  {
  }

  /** Verification withdraws the code: the same code submitted again finds no challenge. */
  lemma VerifiedCodeIsSingleUse(m: Fields, submitted: Meta, now: int)
    ensures CheckCode(Merge(m, Withdraw(LoginCodeKey, LoginExpiryKey)), LoginCodeKey, LoginExpiryKey, submitted, now)
              == Some(NoCode)
  {
    WithdrawnCodeRefused(m, LoginCodeKey, LoginExpiryKey, submitted, now);
  }
}
