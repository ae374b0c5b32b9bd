/**
 * GET /auth/callback (app/auth/callback/route.ts): the landing page of the
 * e-mail and OAuth links. It exchanges the link's code for a session, then
 * sends the user to the `next` page when the link names one, else to the
 * dashboard of their role.
 */
module AuthCallback {
  import opened Wrappers
  import opened Strings
  import opened Types
  import opened Store

  const ErrorPath: string := "/auth/error"
  const AdminHome: string := "/dashboard/admin"
  const CheckerHome: string := "/dashboard/checker"
  const MakerHome: string := "/dashboard/maker"

  /** The user of the new session: their id and the role of their metadata, if any. */
  datatype CallbackUser = CallbackUser(id: string, metaRole: Option<string>)

  /** Where the callback sends the browser; `Threw` when it fails before answering. */
  datatype CallbackOutcome = Redirect(path: string) | Threw

  /** `profile?.role || user?.user_metadata?.role || 'maker'`. */
  function LandingRole(profile: Option<Profile>, metaRole: Option<string>): (role: string)
    ensures profile.Some? && profile.value.role != "" ==> role == profile.value.role
    ensures (profile.None? || profile.value.role == "") && !MissingText(metaRole) ==> role == metaRole.value
    ensures (profile.None? || profile.value.role == "") && MissingText(metaRole) ==> role == "maker"
  {
    if profile.Some? && profile.value.role != "" then profile.value.role
    else if !MissingText(metaRole) then metaRole.value
    else "maker"
  }

  /** The dashboard of a role: the admin one for superadmin, the checker one for checker and admin, else the maker one. */
  function DashboardFor(role: string): (path: string)
    ensures path == AdminHome <==> role == "superadmin"
    ensures path == CheckerHome <==> role == "checker" || role == "admin"
    ensures path == MakerHome <==> role != "superadmin" && role != "checker" && role != "admin"
  {
    if role == "superadmin" then AdminHome
    else if role == "checker" || role == "admin" then CheckerHome
    else MakerHome
  }

  /**
   * The handler. `code` and `next` are the query parameters; `user` is the
   * session's user after the exchange (None when the exchange left none) and
   * `profiles` the profiles table.
   */
  function Callback(code: Option<string>, next: Option<string>, user: Option<CallbackUser>,
                    profiles: seq<Profile>): (r: CallbackOutcome)
    ensures MissingText(code) ==> r == Redirect(ErrorPath)
    ensures !MissingText(code) && MissingText(next) && user.Some? ==>
              r.Redirect? && r.path in [AdminHome, CheckerHome, MakerHome]
  {
    if MissingText(code) then Redirect(ErrorPath)
    else if !MissingText(next) then Redirect(next.value)
    else if user.None? then Threw
    else
      var profile := Single(profiles, (p: Profile) => p.id == user.value.id);
      Redirect(DashboardFor(LandingRole(profile, user.value.metaRole)))
  }

  /** Without a code the callback sends to the error page, whatever else the request holds. */
  lemma NoCodeIsAnError(code: Option<string>, next: Option<string>, user: Option<CallbackUser>, profiles: seq<Profile>)
    requires MissingText(code)
    ensures Callback(code, next, user, profiles) == Redirect(ErrorPath)
  {
  }

  /** A `next` page wins over the role: the user goes there whatever their profile says, and nothing is looked up. */
  lemma NextWins(code: string, next: string, user: Option<CallbackUser>, profiles: seq<Profile>,
                 otherUser: Option<CallbackUser>, otherProfiles: seq<Profile>)
    requires code != "" && next != ""
    ensures Callback(Some(code), Some(next), user, profiles) == Redirect(next)
    ensures Callback(Some(code), Some(next), user, profiles) == Callback(Some(code), Some(next), otherUser, otherProfiles)
  {
  }

  /** The stored role decides over the metadata: a user whose profile says checker lands on the checker dashboard. */
  lemma ProfileRoleDecides(code: string, u: CallbackUser, profiles: seq<Profile>, i: nat)
    requires code != ""
    requires i < |profiles| && profiles[i].id == u.id && profiles[i].role != ""
    requires forall j :: 0 <= j < |profiles| && j != i ==> profiles[j].id != u.id
    ensures Callback(Some(code), None, Some(u), profiles) == Redirect(DashboardFor(profiles[i].role))
  {
    var profile := Single(profiles, (p: Profile) => p.id == u.id);
    assert profiles[i] in profiles;
    if profile.None? {
      assert false;
    }
  }

  /** Without a profile row the metadata role decides, and without that the user is a maker. */
  lemma MetadataRoleDecides(code: string, u: CallbackUser, profiles: seq<Profile>)
    requires code != ""
    requires forall j :: 0 <= j < |profiles| ==> profiles[j].id != u.id
    ensures !MissingText(u.metaRole) ==> Callback(Some(code), None, Some(u), profiles) == Redirect(DashboardFor(u.metaRole.value))
    ensures MissingText(u.metaRole) ==> Callback(Some(code), None, Some(u), profiles) == Redirect(MakerHome)
  {
    var profile := Single(profiles, (p: Profile) => p.id == u.id);
    assert profile.None?;
  }

  /** Every landing page chosen by role is a dashboard page. */
  lemma LandingIsADashboard(role: string)
    ensures StartsWith(DashboardFor(role), "/dashboard/")
  {
  }
}
