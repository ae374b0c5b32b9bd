/**
 * POST /api/auth/change-password (app/api/auth/change-password/route.ts): a
 * signed-in user replaces their password. The body is checked first; then
 * the current password is verified by signing in with it, and only then is
 * the new one stored. The account service, which holds the passwords, is an
 * object whose password table the route changes.
 */
module ChangePassword {
  import opened Wrappers
  import opened Types

  const MinimumLength: int := 8
  const RequiredError: string := "Current password and new password are required"
  const LengthError: string := "New password must be at least 8 characters"
  const SameError: string := "New password must be different from current password"
  const IncorrectError: string := "Current password is incorrect"
  const UpdatedMessage: string := "Password updated successfully"

  /** The session's user: their id and their e-mail, which the account may lack. */
  datatype SessionAccount = SessionAccount(id: string, email: Option<string>)

  datatype ChangeResponse = Refused(status: int, error: string) | Changed(message: string)

  /** The body checks before the service is asked anything. */
  function PasswordCheck(current: Option<string>, proposed: Option<string>): (r: Option<(int, string)>)
    ensures r.None? <==> !MissingText(current) && !MissingText(proposed) && |proposed.value| >= MinimumLength
                         && current.value != proposed.value
    ensures r.Some? ==> r.value.0 == 400
    ensures MissingText(current) || MissingText(proposed) ==> r == Some((400, RequiredError))
    ensures !MissingText(current) && !MissingText(proposed) && |proposed.value| < MinimumLength ==> r == Some((400, LengthError))
  {
    if MissingText(current) || MissingText(proposed) then Some((400, RequiredError))
    else if |proposed.value| < MinimumLength then Some((400, LengthError))
    else if current.value == proposed.value then Some((400, SameError))
    else None
  }

  /** A password that passes the checks is at least eight characters long and differs from the current one. */
  lemma AcceptedPasswordIsNew(current: string, proposed: string)
    requires PasswordCheck(Some(current), Some(proposed)).None?
    ensures |proposed| >= MinimumLength && proposed != current && current != ""
  {
  }

  /** `signInWithPassword`: an account with this e-mail holds this password. */
  predicate SignsIn(passwords: map<string, string>, email: Option<string>, password: string) {
    email.Some? && email.value in passwords && passwords[email.value] == password
  }

  /** The account service: each account's e-mail and its password. */
  class Accounts {
    var passwords: map<string, string>

    constructor (initial: map<string, string>)
      ensures passwords == initial
    {
      passwords := initial;
    }

    /**
     * The handler. `user` is the session's user, `body` whether the body is
     * JSON, `current` and `proposed` its `currentPassword` and `newPassword`
     * members. `updateError` is what `updateUser` answers: None on success,
     * else its error message.
     */
    method Post(user: Option<SessionAccount>, body: bool, current: Option<string>, proposed: Option<string>,
                updateError: Option<string>)
      returns (resp: ChangeResponse)
      modifies this`passwords
      ensures user.None? ==> resp == Refused(401, "Unauthorized")
      ensures user.Some? && !body ==> resp == Refused(500, "Internal server error")
      ensures user.Some? && body && PasswordCheck(current, proposed).Some? ==>
        resp == Refused(PasswordCheck(current, proposed).value.0, PasswordCheck(current, proposed).value.1)
      ensures user.Some? && body && PasswordCheck(current, proposed).None? && !SignsIn(old(passwords), user.value.email, current.value) ==>
        resp == Refused(400, IncorrectError)
      ensures user.Some? && body && PasswordCheck(current, proposed).None? && SignsIn(old(passwords), user.value.email, current.value)
              && updateError.Some?
              ==> resp == Refused(500, if updateError.value == "" then "Failed to update password" else updateError.value)
      ensures resp.Changed? <==> user.Some? && body && PasswordCheck(current, proposed).None?
                                 && SignsIn(old(passwords), user.value.email, current.value) && updateError.None?
      ensures resp.Changed? ==> resp.message == UpdatedMessage && passwords == old(passwords)[user.value.email.value := proposed.value]
      ensures !resp.Changed? ==> passwords == old(passwords)
    {
      if user.None? {
        return Refused(401, "Unauthorized");
      }
      if !body {
        return Refused(500, "Internal server error");
      }
      var invalid := PasswordCheck(current, proposed);
      if invalid.Some? {
        return Refused(invalid.value.0, invalid.value.1);
      }
      if !SignsIn(passwords, user.value.email, current.value) {
        return Refused(400, IncorrectError);
      }
      if updateError.Some? {
        return Refused(500, if updateError.value == "" then "Failed to update password" else updateError.value);
      }
      passwords := passwords[user.value.email.value := proposed.value];
      resp := Changed(UpdatedMessage);
    }
  }

  /**
   * After a change the new password signs in and the old one no longer does;
   * every other account keeps its password.
   */
  lemma ChangeTakesEffect(passwords: map<string, string>, email: string, current: string, proposed: string, other: string)
    requires SignsIn(passwords, Some(email), current)
    requires PasswordCheck(Some(current), Some(proposed)).None?
    requires other != email
    ensures var after := passwords[email := proposed];
      && SignsIn(after, Some(email), proposed) && !SignsIn(after, Some(email), current)
      && (forall p :: SignsIn(after, Some(other), p) <==> SignsIn(passwords, Some(other), p))
  {
    AcceptedPasswordIsNew(current, proposed);
  }
}
