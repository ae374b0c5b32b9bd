/**
 * /api/auth/mfa (app/api/auth/mfa/route.ts): the MFA status of the signed-in
 * user, and the enrolment actions send-otp, verify-otp and disable. The code
 * and its expiry live in the user's metadata; no attempt is ever counted.
 */
module Mfa {
  import opened Wrappers
  import opened Types
  import opened Store
  import opened OtpUtils
  import opened UserMetadata
  import opened Email

  const CodeKey: string := "mfa_otp"
  const ExpiryKey: string := "mfa_otp_expires"
  const EnabledKey: string := "mfa_enabled"
  const FullNameKey: string := "full_name"

  const Unauthorized: string := "Unauthorized"
  const InternalError: string := "Internal server error"
  const ConfigError: string := "Server configuration error"
  const StoreError: string := "Failed to generate OTP"
  const MailError: string := "Failed to send OTP email"
  const RequiredError: string := "OTP is required"
  const NoCodeError: string := "No OTP found. Please request a new one."
  const ExpiredError: string := "OTP has expired. Please request a new one."
  const WrongError: string := "Invalid OTP"
  const ActionError: string := "Invalid action"

  datatype MfaResponse =
    | Error(status: int, error: string)
    | Done(message: string, mfaEnabled: Option<bool>)

  /** GET: the profile's flag, false when there is no profile row; 401 without a session. */
  datatype MfaStatus = NotSignedIn | Status(mfaEnabled: bool, email: string)

  function StatusOf(signedIn: bool, profile: Option<Profile>, email: string): (r: MfaStatus)
    ensures !signedIn <==> r.NotSignedIn?
    ensures signedIn ==> r.mfaEnabled == (profile.Some? && profile.value.mfaEnabled) && r.email == email
  {
    if !signedIn then NotSignedIn
    else Status(if profile.Some? then profile.value.mfaEnabled else false, email)
  }

  /** The values a successful verification stores: the code withdrawn and MFA on. */
  function EnableFields(): Fields {
    Withdraw(CodeKey, ExpiryKey)[EnabledKey := MBool(true)]
  }

  /** The values `disable` stores: MFA off and any pending code withdrawn. */
  function DisableFields(): Fields {
    Withdraw(CodeKey, ExpiryKey)[EnabledKey := MBool(false)]
  }

  /** The 400 a failed check of the submitted code yields. */
  function FailureMessage(f: CodeFailure): string {
    match f
    case NoCode => NoCodeError
    case Expired => ExpiredError
    case WrongCode => WrongError
  }

  /** The profile rows after the MFA flag of user `id` is set to `flag`. */
  function WithMfa(profiles: seq<Profile>, id: string, flag: bool): (r: seq<Profile>)
    ensures |r| == |profiles|
    ensures forall i :: 0 <= i < |r| ==>
      r[i] == if profiles[i].id == id then profiles[i].(mfaEnabled := flag) else profiles[i]
  {
    UpdateWhere(profiles, (p: Profile) => p.id == id, (p: Profile) => p.(mfaEnabled := flag))
  }

  /**
   * POST. `signedIn` says whether the session has a user, `body` whether the
   * body is JSON, with `action` and `otp` its members when they are strings.
   * `serviceKey` is whether the service-role key is configured, `draw` the
   * value of `Math.random()`, `now` the clock. The services are oracles:
   * `storeOk` whether the metadata update of send-otp succeeds, `mail` what
   * the mail provider does, `updateOk` and `profileOk` whether the later
   * metadata and profile updates take effect (their errors are not checked).
   * `sent` is the code mail the route asks for, if any.
   */
  method Post(user: AuthUser, db: Db, signedIn: bool, body: bool, action: Option<string>, otp: Option<string>,
              serviceKey: bool, now: int, draw: real, storeOk: bool, mail: ProviderOutcome,
              updateOk: bool, profileOk: bool)
    returns (resp: MfaResponse, sent: Option<OtpEmail>)
    requires 0.0 <= draw < 1.0
    modifies user, db`profiles
    ensures !signedIn ==> resp == Error(401, Unauthorized)
    ensures !signedIn || !body ==> user.metadata == old(user.metadata) && db.profiles == old(db.profiles)
    ensures signedIn && !body ==> resp == Error(500, InternalError)
    ensures resp.Error? && resp.status == 400 ==> user.metadata == old(user.metadata) && db.profiles == old(db.profiles)
    ensures sent.Some? ==> signedIn && body && action == Some("send-otp")
    // send-otp
    ensures signedIn && body && action == Some("send-otp") ==>
      && db.profiles == old(db.profiles)
      && (!serviceKey ==> resp == Error(500, ConfigError) && user.metadata == old(user.metadata) && sent.None?)
      && (serviceKey && !storeOk ==> resp == Error(500, StoreError) && user.metadata == old(user.metadata) && sent.None?)
      && (serviceKey && storeOk ==>
            user.metadata == Merge(old(user.metadata), Issue(CodeKey, ExpiryKey, GenerateOtp(draw), now + OtpExpiryMs))
            && (MetaGreeting(Get(old(user.metadata), FullNameKey)).None? ==> resp == Error(500, InternalError) && sent.None?)
            && (MetaGreeting(Get(old(user.metadata), FullNameKey)).Some? ==>
                  sent == Some(OtpEmail(user.email, MetaGreeting(Get(old(user.metadata), FullNameKey)).value,
                                        GenerateOtp(draw), 5))
                  && resp == (if mail.Accepted? then Done("OTP sent to your email", None) else Error(500, MailError))))
    // verify-otp
    ensures signedIn && body && action == Some("verify-otp") ==>
      && (MissingText(otp) ==> resp == Error(400, RequiredError))
      && (!MissingText(otp) && CheckCode(old(user.metadata), CodeKey, ExpiryKey, MText(otp.value), now).Some? ==>
            resp == Error(400, FailureMessage(CheckCode(old(user.metadata), CodeKey, ExpiryKey, MText(otp.value), now).value)))
      && (!MissingText(otp) && CheckCode(old(user.metadata), CodeKey, ExpiryKey, MText(otp.value), now).None? ==>
            if !serviceKey then
              resp == Error(500, InternalError) && user.metadata == old(user.metadata) && db.profiles == old(db.profiles)
            else
              && resp == Done("MFA has been enabled successfully", Some(true))
              && user.metadata == (if updateOk then Merge(old(user.metadata), EnableFields()) else old(user.metadata))
              && db.profiles == (if profileOk then WithMfa(old(db.profiles), user.id, true) else old(db.profiles)))
    // disable
    ensures signedIn && body && action == Some("disable") ==>
      if !serviceKey then
        resp == Error(500, ConfigError) && user.metadata == old(user.metadata) && db.profiles == old(db.profiles)
      else
        && resp == Done("MFA has been disabled", Some(false))
        && user.metadata == (if updateOk then Merge(old(user.metadata), DisableFields()) else old(user.metadata))
        && db.profiles == (if profileOk then WithMfa(old(db.profiles), user.id, false) else old(db.profiles))
    // anything else
    ensures signedIn && body && action != Some("send-otp") && action != Some("verify-otp") && action != Some("disable") ==>
      resp == Error(400, ActionError) && user.metadata == old(user.metadata) && db.profiles == old(db.profiles)
  {
    sent := None;
    if !signedIn {
      return Error(401, Unauthorized), None;
    }
    if !body {
      return Error(500, InternalError), None;
    }
    if action == Some("send-otp") {
      var code := GenerateOtp(draw);
      var expiresAt := now + OtpExpiryMs;
      if !serviceKey {
        return Error(500, ConfigError), None;
      }
      if !storeOk {
        return Error(500, StoreError), None;
      }
      var greeting := MetaGreeting(Get(user.metadata, FullNameKey));
      user.Update(Issue(CodeKey, ExpiryKey, code, expiresAt), true);
      if greeting.None? {
        return Error(500, InternalError), None;
      }
      sent := Some(OtpEmail(user.email, greeting.value, code, 5));
      if !mail.Accepted? {
        return Error(500, MailError), sent;
      }
      return Done("OTP sent to your email", None), sent;
    }
    if action == Some("verify-otp") {
      if MissingText(otp) {
        return Error(400, RequiredError), None;
      }
      var failure := CheckCode(user.metadata, CodeKey, ExpiryKey, MText(otp.value), now);
      if failure.Some? {
        return Error(400, FailureMessage(failure.value)), None;
      }
      if !serviceKey {
        return Error(500, InternalError), None;
      }
      user.Update(EnableFields(), updateOk);
      if profileOk {
        db.profiles := WithMfa(db.profiles, user.id, true);
      }
      return Done("MFA has been enabled successfully", Some(true)), None;
    }
    if action == Some("disable") {
      if !serviceKey {
        return Error(500, ConfigError), None;
      }
      user.Update(DisableFields(), updateOk);
      if profileOk {
        db.profiles := WithMfa(db.profiles, user.id, false);
      }
      return Done("MFA has been disabled", Some(false)), None;
    }
    return Error(400, ActionError), None;
  }

  /** send-otp keeps every other metadata key: the code and its expiry are merged in. */
  lemma SendKeepsOtherMetadata(m: Fields, code: string, expiresAt: int, k: string)
    requires k != CodeKey && k != ExpiryKey
    ensures Get(Merge(m, Issue(CodeKey, ExpiryKey, code, expiresAt)), k) == Get(m, k)
  {
    MergeKeepsOthers(m, Issue(CodeKey, ExpiryKey, code, expiresAt), k);
  }

  /** The code send-otp stores is accepted for five minutes, to the millisecond, and refused as expired after. */
  lemma SentCodeAcceptedUntilExpiry(m: Fields, draw: real, sentAt: int, now: int)
    requires 0.0 <= draw < 1.0 && sentAt >= 0
    ensures var m' := Merge(m, Issue(CodeKey, ExpiryKey, GenerateOtp(draw), sentAt + OtpExpiryMs));
      && (now <= sentAt + 300000 ==> CheckCode(m', CodeKey, ExpiryKey, MText(GenerateOtp(draw)), now).None?)
      && (now > sentAt + 300000 ==> CheckCode(m', CodeKey, ExpiryKey, MText(GenerateOtp(draw)), now) == Some(Expired))
  {
    IssuedCodeAccepted(m, CodeKey, ExpiryKey, GenerateOtp(draw), sentAt + OtpExpiryMs, now);
  }

  /** After a successful verification, or a disable, the code is gone: a resubmission finds no code. */
  lemma CodeIsSingleUse(m: Fields, submitted: Meta, now: int)
    ensures CheckCode(Merge(m, EnableFields()), CodeKey, ExpiryKey, submitted, now) == Some(NoCode)
    ensures CheckCode(Merge(m, DisableFields()), CodeKey, ExpiryKey, submitted, now) == Some(NoCode)
    ensures Get(Merge(m, EnableFields()), EnabledKey) == Some(MBool(true))
    ensures Get(Merge(m, DisableFields()), EnabledKey) == Some(MBool(false))
  {
    assert Merge(m, EnableFields())[CodeKey] == MNull;
    assert Merge(m, DisableFields())[CodeKey] == MNull;
  }
}
