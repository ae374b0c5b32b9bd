/**
 * The redirect decision of the middleware (`updateSession` in
 * lib/supabase/proxy.ts): who may see which path, and where a maker without
 * completed KYC is sent. The session cookies it refreshes are not modelled.
 */
module Proxy {
  import opened Wrappers
  import opened Strings
  import opened Types

  const PublicRoutes: seq<string> := ["/auth/login", "/auth/sign-up", "/auth/sign-up-success", "/auth/callback", "/auth/error", "/"]
  /** The KYC flow's routes. The middleware computes `isKycRoute` from them but never reads it, so no decision below uses them. */
  const KycRoutes: seq<string> := ["/auth/onboarding", "/auth/kyc-pending"]

  const LoginPath: string := "/auth/login"
  const MakerHome: string := "/dashboard/maker"
  const OnboardingPath: string := "/auth/onboarding"
  const PendingPath: string := "/auth/kyc-pending"

  datatype Decision = PassThrough | Redirect(path: string)

  /** A path is under a route when it is the route or starts with the route and a slash. */
  predicate UnderRoute(pathname: string, route: string) {
    pathname == route || StartsWith(pathname, route + "/")
  }

  predicate UnderAny(pathname: string, routes: seq<string>) {
    exists i :: 0 <= i < |routes| && UnderRoute(pathname, routes[i])
  }

  /** The signed-in user, with the role of their metadata when it has one. */
  datatype SessionUser = SessionUser(metaRole: Option<string>)

  /**
   * The redirect for a request to `pathname`. For a maker, `kycCompleted` is
   * the profile's flag (None without a profile row) and `application` the
   * status of their single KYC application (None without one).
   */
  function Decide(user: Option<SessionUser>, pathname: string, kycCompleted: Option<bool>,
                  application: Option<KycStatus>): (d: Decision)
    ensures d.Redirect? ==> d.path != pathname
    ensures d.Redirect? ==> d.path in [LoginPath, MakerHome, OnboardingPath, PendingPath]
  {
    PublicRouteFacts();
    var isPublic := UnderAny(pathname, PublicRoutes);
    var isApi := StartsWith(pathname, "/api/");
    if user.None? then
      if !isPublic && !isApi then Redirect(LoginPath) else PassThrough
    else if isPublic && pathname != "/" then Redirect(MakerHome)
    else if StartsWith(pathname, "/dashboard") && RoleOf(user.value) == "maker"
            && !(kycCompleted.Some? && kycCompleted.value) then
      var target := if application.None? then OnboardingPath
                    else if application.value != KycApproved then PendingPath
                    else pathname;
      if target != pathname then Redirect(target) else PassThrough
    else PassThrough
  }

  /** `user.user_metadata?.role || 'maker'`. */
  function RoleOf(u: SessionUser): (role: string)
    ensures MissingText(u.metaRole) ==> role == "maker"
    ensures !MissingText(u.metaRole) ==> role == u.metaRole.value
  {
    if MissingText(u.metaRole) then "maker" else u.metaRole.value
  }

  /** A path that differs from a text at a position both have neither is it nor starts with it. */
  lemma NotPrefixAt(p: string, q: string, i: nat)
    requires i < |p| && i < |q| && p[i] != q[i]
    ensures p != q && !StartsWith(p, q)
  {
    assert |q| <= |p| ==> p[..|q|][i] == p[i];
  }

  /** A path that differs from a route at a position both have is not under it. */
  lemma DiffersAt(p: string, route: string, i: nat)
    requires i < |p| && i < |route| && p[i] != route[i]
    ensures !UnderRoute(p, route)
  {
    NotPrefixAt(p, route, i);
    assert (route + "/")[i] == route[i];
    NotPrefixAt(p, route + "/", i);
  }

  /** A path longer than one character whose second character is not a slash is not under the home route. */
  lemma NotUnderHome(p: string)
    requires |p| > 1 && p[1] != '/'
    ensures !UnderRoute(p, "/")
  {
    assert ("/" + "/")[1] == '/';
    NotPrefixAt(p, "/" + "/", 1);
  }

  /** A path of the form "/auth/x…" whose x starts none of login, sign-up, callback or error is not public. */
  lemma AuthPageNotPublic(p: string)
    requires |p| > 6 && p[1] == 'a' && p[6] != 'l' && p[6] != 's' && p[6] != 'c' && p[6] != 'e'
    ensures !UnderAny(p, PublicRoutes)
  {
    forall i | 0 <= i < |PublicRoutes|
      ensures !UnderRoute(p, PublicRoutes[i])
    {
      if i < 5 {
        DiffersAt(p, PublicRoutes[i], 6);
      } else {
        NotUnderHome(p);
      }
    }
  }

  /** The public route facts the decision lemmas rest on, one per path. */
  lemma PublicRouteFacts()
    ensures UnderAny(LoginPath, PublicRoutes)
    ensures UnderAny("/", PublicRoutes)
    ensures !UnderAny(MakerHome, PublicRoutes)
    ensures !UnderAny(OnboardingPath, PublicRoutes)
    ensures !UnderAny(PendingPath, PublicRoutes)
  {
    assert UnderRoute(LoginPath, PublicRoutes[0]);
    assert UnderRoute("/", PublicRoutes[5]);
    DashboardIsNotPublic(MakerHome);
    AuthPageNotPublic(OnboardingPath);
    AuthPageNotPublic(PendingPath);
  }

  /** Without a session, every page but the public ones and the API is sent to the login page, and the login page is let through. */
  lemma SignedOutGoesToLogin(pathname: string, kycCompleted: Option<bool>, application: Option<KycStatus>)
    ensures !UnderAny(pathname, PublicRoutes) && !StartsWith(pathname, "/api/") ==>
      Decide(None, pathname, kycCompleted, application) == Redirect(LoginPath)
    ensures UnderAny(pathname, PublicRoutes) || StartsWith(pathname, "/api/") ==>
      Decide(None, pathname, kycCompleted, application) == PassThrough
    ensures Decide(None, LoginPath, kycCompleted, application) == PassThrough
  {
    PublicRouteFacts();
  }

  /** A signed-in user on a public page other than the home page is sent to the maker dashboard. */
  lemma SignedInLeavesPublicPages(u: SessionUser, pathname: string, kycCompleted: Option<bool>, application: Option<KycStatus>)
    requires UnderAny(pathname, PublicRoutes) && pathname != "/"
    ensures Decide(Some(u), pathname, kycCompleted, application) == Redirect(MakerHome)
  {
  }

  /** Only a maker on a dashboard page is checked for KYC: checkers, admins and everything outside the dashboard pass. */
  lemma OnlyMakersAreChecked(u: SessionUser, pathname: string, kycCompleted: Option<bool>, application: Option<KycStatus>)
    requires !UnderAny(pathname, PublicRoutes) || pathname == "/"
    requires RoleOf(u) != "maker" || !StartsWith(pathname, "/dashboard")
    ensures Decide(Some(u), pathname, kycCompleted, application) == PassThrough
  {
  }

  /**
   * A maker without completed KYC on a dashboard page goes to onboarding
   * when there is no application and to the pending page when it is not
   * approved; with an approved application, or completed KYC, the page shows.
   */
  lemma MakerKycRedirects(u: SessionUser, pathname: string, kycCompleted: Option<bool>, application: Option<KycStatus>)
    requires StartsWith(pathname, "/dashboard") && RoleOf(u) == "maker"
    ensures !(kycCompleted.Some? && kycCompleted.value) && application.None? ==>
      Decide(Some(u), pathname, kycCompleted, application) == Redirect(OnboardingPath)
    ensures !(kycCompleted.Some? && kycCompleted.value) && application.Some? && application.value != KycApproved ==>
      Decide(Some(u), pathname, kycCompleted, application) == Redirect(PendingPath)
    ensures application == Some(KycApproved) || (kycCompleted.Some? && kycCompleted.value) ==>
      Decide(Some(u), pathname, kycCompleted, application) == PassThrough
  {
    DashboardIsNotPublic(pathname);
    assert pathname[1] == "/dashboard"[1] == 'd';
    assert pathname != OnboardingPath && pathname != PendingPath by {
      assert OnboardingPath[1] != 'd' && PendingPath[1] != 'd';
    }
  }

  /** No dashboard path is a public one. */
  lemma DashboardIsNotPublic(pathname: string)
    requires StartsWith(pathname, "/dashboard")
    ensures !UnderAny(pathname, PublicRoutes)
  {
    assert pathname[1] == "/dashboard"[1] == 'd';
    forall i | 0 <= i < |PublicRoutes|
      ensures !UnderRoute(pathname, PublicRoutes[i])
    {
      if i < 5 {
        DiffersAt(pathname, PublicRoutes[i], 1);
      } else {
        NotUnderHome(pathname);
      }
    }
  }

  /** The pages the maker is sent to are let through when reached: a redirect never loops. */
  lemma RedirectTargetsSettle(u: SessionUser, kycCompleted: Option<bool>, application: Option<KycStatus>)
    ensures Decide(Some(u), OnboardingPath, kycCompleted, application) == PassThrough
    ensures Decide(Some(u), PendingPath, kycCompleted, application) == PassThrough
  {
    PublicRouteFacts();
    assert !StartsWith(OnboardingPath, "/dashboard") by {
      assert OnboardingPath[1] != "/dashboard"[1];
    }
    assert !StartsWith(PendingPath, "/dashboard") by {
      assert PendingPath[1] != "/dashboard"[1];
    }
  }
}
