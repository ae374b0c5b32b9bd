/**
 * The superadmin's user management (app/api/admin/users/route.ts): GET lists
 * the profiles a page at a time, POST creates a checker or admin account
 * whose credentials are mailed before the account is made.
 */
module AdminUsers {
  import opened Wrappers
  import opened Strings
  import opened Types
  import opened Store
  import opened Email

  const ForbiddenError: string := "Forbidden — SuperAdmin access required"
  const MissingError: string := "Missing required fields: email, full_name, role"
  const RoleError: string := "Role must be either \"checker\" or \"admin\""
  const EmailFormatError: string := "Invalid email format"
  const ExistsError: string := "A user with this email already exists"
  const ConfigError: string := "Server configuration error: SUPABASE_SERVICE_ROLE_KEY is not set"
  const DefaultSiteUrl: string := "http://localhost:3000"
  const DefaultPage: int := 1
  const DefaultLimit: int := 20

  /** `requireSuperAdmin`: None when the caller is a superadmin, else the refusal. `caller` is None without a session. */
  function RequireSuperAdmin(caller: Option<string>, profiles: seq<Profile>): (r: Option<(int, string)>)
    ensures caller.None? ==> r == Some((401, "Unauthorized"))
    ensures caller.Some? ==>
      var p := Single(profiles, (p: Profile) => p.id == caller.value);
      (r.None? <==> p.Some? && p.value.role == "superadmin") && (r.Some? ==> r == Some((403, ForbiddenError)))
  {
    if caller.None? then Some((401, "Unauthorized"))
    else
      var p := Single(profiles, (p: Profile) => p.id == caller.value);
      if p.None? || p.value.role != "superadmin" then Some((403, ForbiddenError)) else None
  }

  /** An admin, a checker or a user whose profile cannot be found is refused. */
  lemma OnlySuperadminsPass(caller: string, profiles: seq<Profile>, i: nat)
    requires i < |profiles| && profiles[i].id == caller && profiles[i].role != "superadmin"
    ensures RequireSuperAdmin(Some(caller), profiles) == Some((403, ForbiddenError))
  {
    assert profiles[i] in profiles;
  }

  // ---------------------------------------------------------------- GET

  /** The page and the page size; a parameter that is absent or empty takes its default. */
  datatype Paging = Paging(page: int, limit: int)

  function PagingOf(page: Option<int>, limit: Option<int>): (p: Paging)
    ensures p.page == page.GetOr(DefaultPage) && p.limit == limit.GetOr(DefaultLimit)
  {
    Paging(page.GetOr(DefaultPage), limit.GetOr(DefaultLimit))
  }

  function Offset(p: Paging): int {
    (p.page - 1) * p.limit
  }

  /** The inclusive range `[offset, offset + limit - 1]` the query asks for. */
  function RangeOf(p: Paging): (r: (int, int))
    ensures r.0 == Offset(p) && r.1 - r.0 + 1 == p.limit
  {
    (Offset(p), Offset(p) + p.limit - 1)
  }

  /** `hasMore`: more rows than the pages so far hold. */
  predicate HasMore(total: int, p: Paging) {
    total > Offset(p) + p.limit
  }

  /** `.range(from, to)`: the rows at positions `from` to `to`, cut at the end; nothing for an empty or negative range. */
  function Window<T>(rows: seq<T>, from: int, to: int): (w: seq<T>)
    ensures 0 <= from && from <= to + 1 ==> |w| <= to - from + 1
    ensures 0 <= from <= to && from < |rows| ==> w == rows[from..if to + 1 < |rows| then to + 1 else |rows|]
  {
    if from < 0 || to < from || from >= |rows| then []
    else rows[from..if to + 1 < |rows| then to + 1 else |rows|]
  }

  /** The `role` filter: every profile when the parameter is absent or empty. */
  predicate RoleMatches(role: Option<string>, p: Profile) {
    MissingText(role) || p.role == role.value
  }

  /** `ilike '%s%'`: the text contains the search, ignoring case; a null column matches nothing. */
  predicate ILike(text: string, search: string) {
    Contains(ToLower(text), ToLower(search))
  }

  /** The `search` filter: the e-mail or the full name contains it. */
  predicate SearchMatches(search: Option<string>, p: Profile) {
    MissingText(search) || ILike(p.email, search.value) || (p.fullName.Some? && ILike(p.fullName.value, search.value))
  }

  /** The profiles both filters let through, in the order given. */
  function Filtered(profiles: seq<Profile>, role: Option<string>, search: Option<string>): seq<Profile> {
    SelectWhere(profiles, (p: Profile) => RoleMatches(role, p) && SearchMatches(search, p))
  }

  datatype ListResponse =
    | ListRefused(status: int, error: string)
    | Listed(data: seq<Profile>, total: int, page: int, limit: int, hasMore: bool)

  /**
   * GET. `profiles` is the table in the order of the query (newest first);
   * `page` and `limit` are the parsed parameters, None when absent or empty;
   * `fetchOk` whether the query succeeds.
   */
  function Get(caller: Option<string>, profiles: seq<Profile>, role: Option<string>, search: Option<string>,
               page: Option<int>, limit: Option<int>, fetchOk: bool): (r: ListResponse)
    ensures r.Listed? <==> RequireSuperAdmin(caller, profiles).None? && fetchOk
    ensures r.Listed? ==> r.total == |Filtered(profiles, role, search)|
    ensures r.Listed? ==> forall i :: 0 <= i < |r.data| ==> r.data[i] in Filtered(profiles, role, search)
  {
    var refusal := RequireSuperAdmin(caller, profiles);
    if refusal.Some? then ListRefused(refusal.value.0, refusal.value.1)
    else if !fetchOk then ListRefused(500, "Failed to fetch users")
    else
      var p := PagingOf(page, limit);
      var rows := Filtered(profiles, role, search);
      var r := RangeOf(p);
      Listed(Window(rows, r.0, r.1), |rows|, p.page, p.limit, HasMore(|rows|, p))
  }

  /** With positive paging every row lies on page `j / limit + 1`, at place `j % limit`. */
  lemma RowOnItsPage<T>(rows: seq<T>, limit: int, j: nat)
    requires limit >= 1 && j < |rows|
    ensures var p := Paging(j / limit + 1, limit); var r := RangeOf(p);
      && j % limit < |Window(rows, r.0, r.1)|
      && Window(rows, r.0, r.1)[j % limit] == rows[j]
  {
    var p := Paging(j / limit + 1, limit);
    assert Offset(p) == (j / limit) * limit;
    assert Offset(p) + j % limit == j;
  }

  /** `hasMore` is exactly "the next page is not empty". */
  lemma HasMoreIffNextPage<T>(rows: seq<T>, p: Paging)
    requires p.page >= 1 && p.limit >= 1
    ensures var next := RangeOf(Paging(p.page + 1, p.limit));
      HasMore(|rows|, p) <==> Window(rows, next.0, next.1) != []
  {
    assert Offset(Paging(p.page + 1, p.limit)) == Offset(p) + p.limit;
  }

  /** A superadmin's successful listing is the window of the filtered rows that the paging selects. */
  lemma GetListed(caller: string, profiles: seq<Profile>, role: Option<string>, search: Option<string>,
                  page: int, limit: int)
    requires RequireSuperAdmin(Some(caller), profiles).None?
    ensures var rows := Filtered(profiles, role, search); var r := RangeOf(Paging(page, limit));
      Get(Some(caller), profiles, role, search, Some(page), Some(limit), true)
        == Listed(Window(rows, r.0, r.1), |rows|, page, limit, HasMore(|rows|, Paging(page, limit)))
  {
  }

  /** Every listed profile passes both filters. */
  lemma ListedRowsMatch(caller: string, profiles: seq<Profile>, role: Option<string>, search: Option<string>,
                        page: int, limit: int)
    requires RequireSuperAdmin(Some(caller), profiles).None?
    ensures var g := Get(Some(caller), profiles, role, search, Some(page), Some(limit), true);
      g.Listed? && forall i :: 0 <= i < |g.data| ==>
        (g.data[i] in profiles && RoleMatches(role, g.data[i]) && SearchMatches(search, g.data[i]))
  {
    GetListed(caller, profiles, role, search, page, limit);
    var rows := Filtered(profiles, role, search);
    var r := RangeOf(Paging(page, limit));
    var w := Window(rows, r.0, r.1);
    forall i | 0 <= i < |w|
      ensures w[i] in rows
    {
      assert w[i] == rows[r.0 + i];
    }
  }

  /**
   * The listing: the total counts every profile the filters let through, a
   * page holds at most `limit` of them, and `hasMore` says whether the next
   * page holds any.
   */
  lemma ListingCountsFiltered(caller: string, profiles: seq<Profile>, role: Option<string>, search: Option<string>,
                              page: int, limit: int)
    requires page >= 1 && limit >= 1
    requires RequireSuperAdmin(Some(caller), profiles).None?
    ensures var g := Get(Some(caller), profiles, role, search, Some(page), Some(limit), true);
      && g.Listed? && g.total == |Filtered(profiles, role, search)| && |g.data| <= limit
      && (g.hasMore <==> Get(Some(caller), profiles, role, search, Some(page + 1), Some(limit), true).data != [])
  {
    GetListed(caller, profiles, role, search, page, limit);
    GetListed(caller, profiles, role, search, page + 1, limit);
    HasMoreIffNextPage(Filtered(profiles, role, search), Paging(page, limit));
  }

  /** Every profile the filters let through is listed: the `j`-th is on page `j / limit + 1`, at place `j % limit`. */
  lemma EveryMatchIsListed(caller: string, profiles: seq<Profile>, role: Option<string>, search: Option<string>,
                           limit: int, j: nat)
    requires limit >= 1 && j < |Filtered(profiles, role, search)|
    requires RequireSuperAdmin(Some(caller), profiles).None?
    ensures var onPage := Get(Some(caller), profiles, role, search, Some(j / limit + 1), Some(limit), true).data;
      j % limit < |onPage| && onPage[j % limit] == Filtered(profiles, role, search)[j]
  {
    GetListed(caller, profiles, role, search, j / limit + 1, limit);
    RowOnItsPage(Filtered(profiles, role, search), limit, j);
  }

  // ---------------------------------------------------------------- POST

  /** The body checks: all three fields, a role of checker or admin, and an e-mail of the right shape. */
  function CreateCheck(email: Option<string>, fullName: Option<string>, role: Option<string>): (r: Option<(int, string)>)
    ensures r.None? <==> !MissingText(email) && !MissingText(fullName) && !MissingText(role)
                         && (role.value == "checker" || role.value == "admin") && MatchesEmail(email.value)
    ensures (MissingText(email) || MissingText(fullName) || MissingText(role)) ==> r == Some((400, MissingError))
    ensures r.Some? ==> r.value.0 == 400
  {
    if MissingText(email) || MissingText(fullName) || MissingText(role) then Some((400, MissingError))
    else if role.value != "checker" && role.value != "admin" then Some((400, RoleError))
    else if !MatchesEmail(email.value) then Some((400, EmailFormatError))
    else None
  }

  /** No request creates a maker or another superadmin. */
  lemma OnlyStaffIsCreated(email: Option<string>, fullName: Option<string>, role: Option<string>)
    requires CreateCheck(email, fullName, role).None?
    ensures role.value != "superadmin" && role.value != "maker"
    ensures ParseRole(role.value) == Some(Checker) || ParseRole(role.value) == Some(Admin)
  {
  }

  /** What the account service does with `createUser`: makes the user, or fails with an optional message. */
  datatype CreateOutcome = CreatedUser(id: string) | CreateFailed(message: Option<string>)

  /** The calls to outside services, in the order made. */
  datatype ServiceCall =
    | MailCredentials(mail: CredentialsEmail)
    | CreateAccount(email: string, password: string, fullName: string, role: string)

  datatype CreateResponse =
    | Refused(status: int, error: string)
    | Created(message: string, id: string, email: string, fullName: string, role: string)

  /** `.eq('email', email).single()` finds a profile: exactly one row holds the e-mail. */
  predicate EmailTaken(profiles: seq<Profile>, email: string) {
    Single(profiles, (p: Profile) => p.email == email).Some?
  }

  /** The profile update after the creation: the new user's row takes the role and the name. */
  function Promoted(profiles: seq<Profile>, id: string, role: string, fullName: Option<string>): (r: seq<Profile>)
    ensures |r| == |profiles|
    ensures forall i :: 0 <= i < |r| ==>
      r[i] == if profiles[i].id == id then profiles[i].(role := role, fullName := fullName) else profiles[i]
  {
    UpdateWhere(profiles, (p: Profile) => p.id == id, (p: Profile) => p.(role := role, fullName := fullName))
  }

  function LoginUrl(siteUrl: Option<string>): string {
    (if MissingText(siteUrl) then DefaultSiteUrl else siteUrl.value) + "/auth/login"
  }

  function MailFailure(error: Option<string>): string {
    "Failed to send credentials email: " + (if MissingText(error) then "Unknown error" else error.value)
      + ". User was not created."
  }

  /** The audit row of a creation: the lower-cased e-mail, the name, the role and that the mail went out. */
  function CreatedAudit(adminId: string, newId: string, email: string, fullName: string, role: string): AuditLog {
    AuditLog(adminId, "USER_CREATED", "profile", newId, None,
             Some(map["email" := Str(ToLower(email)), "full_name" := Str(fullName), "role" := Str(role),
                      "email_sent" := Bool(true)]), None)
  }

  /** The checks before any call goes out: the caller, the body, its fields and an unused e-mail. */
  function Precheck(caller: Option<string>, profiles: seq<Profile>, body: bool, email: Option<string>,
                    fullName: Option<string>, role: Option<string>): (r: Option<(int, string)>)
    ensures r.None? <==> && RequireSuperAdmin(caller, profiles).None? && body && CreateCheck(email, fullName, role).None?
                         && !EmailTaken(profiles, ToLower(email.value))
    ensures RequireSuperAdmin(caller, profiles).Some? ==> r == RequireSuperAdmin(caller, profiles)
    ensures RequireSuperAdmin(caller, profiles).None? && body && CreateCheck(email, fullName, role).Some? ==>
      r == CreateCheck(email, fullName, role)
    ensures RequireSuperAdmin(caller, profiles).None? && body && CreateCheck(email, fullName, role).None?
            && EmailTaken(profiles, ToLower(email.value))
            ==> r == Some((409, ExistsError))
  {
    var refusal := RequireSuperAdmin(caller, profiles);
    if refusal.Some? then refusal
    else if !body then Some((500, "Internal server error"))
    else
      var invalid := CreateCheck(email, fullName, role);
      if invalid.Some? then invalid
      else if EmailTaken(profiles, ToLower(email.value)) then Some((409, ExistsError))
      else None
  }

  const CreatedSuffix: string := " user created successfully. Credentials have been sent via email."

  /**
   * What the creation step does once the checks pass, as a relation between
   * the tables before and after, the response and the calls made: the mail
   * goes out first and alone, the account is made only after it was accepted
   * and with the password it carried, and the tables change only when the
   * account exists.
   */
  ghost predicate CreationRules(before: seq<Profile>, beforeAudit: seq<AuditLog>, after: seq<Profile>,
                                afterAudit: seq<AuditLog>, adminId: string, email: string, fullName: string,
                                role: string, serviceKey: Option<string>, siteUrl: Option<string>,
                                mailOutcome: ProviderOutcome, create: CreateOutcome,
                                resp: CreateResponse, calls: seq<ServiceCall>) {
    && |calls| <= 2
    && (calls == [] <==> MissingText(serviceKey))
    && (calls == [] ==> resp == Refused(500, ConfigError))
    && (calls != [] ==>
          && calls[0].MailCredentials? && |calls[0].mail.temporaryPassword| == 12
          && calls[0].mail == CredentialsEmail(ToLower(email), fullName, role, calls[0].mail.temporaryPassword,
                                               LoginUrl(siteUrl)))
    && (|calls| == 1 <==> calls != [] && !mailOutcome.Accepted?)
    && (|calls| == 1 ==> resp == Refused(500, MailFailure(SendCredentials(calls[0].mail, mailOutcome).1.error)))
    && (|calls| == 2 ==> calls[1] == CreateAccount(ToLower(email), calls[0].mail.temporaryPassword, fullName, role))
    && (|calls| == 2 && create.CreateFailed? ==>
          resp == Refused(500, if MissingText(create.message) then "Failed to create user" else create.message.value))
    && (resp.Created? <==> |calls| == 2 && create.CreatedUser?)
    && (!resp.Created? ==> after == before && afterAudit == beforeAudit)
    && (resp.Created? ==>
          && after == Promoted(before, create.id, role, Some(fullName))
          && afterAudit == beforeAudit + [CreatedAudit(adminId, create.id, email, fullName, role)]
          && resp == Created(RoleLabel(role) + CreatedSuffix, create.id, ToLower(email), fullName, role))
  }

  /** The creation step: the temporary password, the configuration check, the mail, the account, the profile and the audit row. */
  method CreateStaff(db: Db, adminId: string, email: string, fullName: string, role: string,
                     serviceKey: Option<string>, siteUrl: Option<string>, draws: seq<real>, swaps: seq<(nat, nat)>,
                     mailOutcome: ProviderOutcome, create: CreateOutcome)
    returns (resp: CreateResponse, calls: seq<ServiceCall>)
    requires |draws| == PasswordLength(DefaultPasswordLength)
    requires forall i :: 0 <= i < |draws| ==> 0.0 <= draws[i] < 1.0
    modifies db`profiles, db`audit
    ensures CreationRules(old(db.profiles), old(db.audit), db.profiles, db.audit, adminId, email, fullName, role,
                          serviceKey, siteUrl, mailOutcome, create, resp, calls)
  {
    var password := GenerateTemporaryPassword(DefaultPasswordLength, draws, swaps);
    if MissingText(serviceKey) {
      return Refused(500, ConfigError), [];
    }
    resp, calls := MailThenCreate(db, adminId, email, fullName, role, serviceKey, siteUrl, password, mailOutcome, create);
  }

  /** The creation step once the service key is there: the mail with `password`, then the account, the profile and the audit row. */
  method MailThenCreate(db: Db, adminId: string, email: string, fullName: string, role: string,
                        serviceKey: Option<string>, siteUrl: Option<string>, password: string,
                        mailOutcome: ProviderOutcome, create: CreateOutcome)
    returns (resp: CreateResponse, calls: seq<ServiceCall>)
    requires !MissingText(serviceKey) && |password| == 12
    modifies db`profiles, db`audit
    ensures CreationRules(old(db.profiles), old(db.audit), db.profiles, db.audit, adminId, email, fullName, role,
                          serviceKey, siteUrl, mailOutcome, create, resp, calls)
  {
    var lower := ToLower(email);
    var mail := CredentialsEmail(lower, fullName, role, password, LoginUrl(siteUrl));
    calls := [MailCredentials(mail)];
    var sent := SendCredentials(mail, mailOutcome).1;
    if !sent.success {
      return Refused(500, MailFailure(sent.error)), calls;
    }
    calls := calls + [CreateAccount(lower, password, fullName, role)];
    if create.CreateFailed? {
      return Refused(500, if MissingText(create.message) then "Failed to create user" else create.message.value), calls;
    }
    db.profiles := Promoted(db.profiles, create.id, role, Some(fullName));
    db.AppendAudit(CreatedAudit(adminId, create.id, email, fullName, role));
    resp := Created(RoleLabel(role) + CreatedSuffix, create.id, lower, fullName, role);
  }

  /**
   * POST. `caller` is the session's user, `body` whether the body is JSON
   * with `email`, `fullName` and `role` its members; `serviceKey` and
   * `siteUrl` the environment. `draws` and `swaps` drive the temporary
   * password; `mailOutcome` and `create` are what the mail provider and the
   * account service do. The calls made to them are returned in order.
   */
  method Post(db: Db, caller: Option<string>, body: bool, email: Option<string>, fullName: Option<string>,
              role: Option<string>, serviceKey: Option<string>, siteUrl: Option<string>,
              draws: seq<real>, swaps: seq<(nat, nat)>, mailOutcome: ProviderOutcome, create: CreateOutcome)
    returns (resp: CreateResponse, calls: seq<ServiceCall>)
    requires |draws| == PasswordLength(DefaultPasswordLength)
    requires forall i :: 0 <= i < |draws| ==> 0.0 <= draws[i] < 1.0
    modifies db`profiles, db`audit
    ensures Precheck(caller, old(db.profiles), body, email, fullName, role).Some? ==>
      && resp == Refused(Precheck(caller, old(db.profiles), body, email, fullName, role).value.0,
                         Precheck(caller, old(db.profiles), body, email, fullName, role).value.1)
      && calls == [] && db.profiles == old(db.profiles) && db.audit == old(db.audit)
    ensures Precheck(caller, old(db.profiles), body, email, fullName, role).None? ==>
      && caller.Some? && email.Some? && fullName.Some? && role.Some? && (role.value == "checker" || role.value == "admin")
      && CreationRules(old(db.profiles), old(db.audit), db.profiles, db.audit, caller.value, email.value,
                       fullName.value, role.value, serviceKey, siteUrl, mailOutcome, create, resp, calls)
  {
    var refusal := Precheck(caller, db.profiles, body, email, fullName, role);
    if refusal.Some? {
      return Refused(refusal.value.0, refusal.value.1), [];
    }
    resp, calls := CreateStaff(db, caller.value, email.value, fullName.value, role.value, serviceKey, siteUrl,
                               draws, swaps, mailOutcome, create);
  }

  /** A mail the provider did not accept leaves no account behind: no creation call, no profile change, no audit row. */
  lemma MailFailureCreatesNothing(before: seq<Profile>, beforeAudit: seq<AuditLog>, after: seq<Profile>,
                                  afterAudit: seq<AuditLog>, adminId: string, email: string, fullName: string,
                                  role: string, serviceKey: Option<string>, siteUrl: Option<string>,
                                  mailOutcome: ProviderOutcome, create: CreateOutcome,
                                  resp: CreateResponse, calls: seq<ServiceCall>)
    requires CreationRules(before, beforeAudit, after, afterAudit, adminId, email, fullName, role, serviceKey, siteUrl,
                           mailOutcome, create, resp, calls)
    requires !mailOutcome.Accepted?
    ensures forall c :: c in calls ==> !c.CreateAccount?
    ensures !resp.Created? && after == before && afterAudit == beforeAudit
  {
  }

  /** The audit row and the mail carry the e-mail in lower case. */
  lemma StoredEmailIsLowerCase(adminId: string, newId: string, email: string, fullName: string, role: string)
    ensures var row := CreatedAudit(adminId, newId, email, fullName, role);
      && row.newValues.Some? && "email" in row.newValues.value && row.newValues.value["email"].Str?
      && var stored := row.newValues.value["email"].s;
         (forall i :: 0 <= i < |stored| ==> !IsUpper(stored[i])) && ToLower(stored) == ToLower(email)
  {
    ToLowerIdempotent(email);
  }
}
