/**
 * POST /api/kyc/review (app/api/kyc/review/route.ts): a checker's decision on
 * a KYC application. Any of the three actions may be taken from any current
 * status; only an approval marks the applicant's profile as KYC-complete.
 */
module KycReview {
  import opened Wrappers
  import opened Strings
  import opened Types
  import opened Store

  const ForbiddenError: string := "Unauthorized - Only checkers can review KYC applications"
  const MissingError: string := "Missing required fields: kyc_id and action"
  const ActionError: string := "Invalid action. Must be: approve, reject, or under_review"
  const NotFoundError: string := "KYC application not found"
  const UpdateError: string := "Failed to update KYC application"

  datatype ReviewResponse =
    | Refused(status: int, error: string)
    | Reviewed(id: string, kycStatus: KycStatus, reviewedAt: int)

  /** The roles that may review: checker and admin, and no other stored role. */
  predicate MayReview(profile: Option<Profile>) {
    profile.Some? && (profile.value.role == "checker" || profile.value.role == "admin")
  }

  predicate ValidAction(action: string) {
    action == "approve" || action == "reject" || action == "under_review"
  }

  /** The status an action sets: under_review for anything that is neither approve nor reject. */
  function NewStatus(action: string): (s: KycStatus)
    ensures s == KycApproved <==> action == "approve"
    ensures s == KycRejected <==> action == "reject"
    ensures s != KycPending
  {
    if action == "approve" then KycApproved
    else if action == "reject" then KycRejected
    else UnderReview
  }

  /** The application after the review; its data columns and applicant are untouched. */
  function Decided(k: KycApplication, status: KycStatus, checker: string, notes: Option<Value>, now: int)
    : (r: KycApplication)
    ensures r.id == k.id && r.applicationId == k.applicationId && r.userId == k.userId && r.columns == k.columns
    ensures r.kycStatus == status && r.checkerId == Some(checker) && r.reviewedAt == Some(now)
    ensures Falsy(notes) ==> r.checkerNotes.None?
    ensures !Falsy(notes) ==> r.checkerNotes == notes
  {
    k.(kycStatus := status, checkerId := Some(checker),
       checkerNotes := if Falsy(notes) then None else notes, reviewedAt := Some(now))
  }

  /** The rows after `update(...).eq('id', kycId)`. */
  function DecideRows(rows: seq<KycApplication>, kycId: string, status: KycStatus, checker: string,
                      notes: Option<Value>, now: int): seq<KycApplication> {
    UpdateWhere(rows, (k: KycApplication) => k.id == kycId, (k: KycApplication) => Decided(k, status, checker, notes, now))
  }

  /** The profile rows after the applicant's `kyc_completed` is set. */
  function CompleteKyc(profiles: seq<Profile>, userId: string): (r: seq<Profile>)
    ensures |r| == |profiles|
    ensures forall i :: 0 <= i < |r| ==>
      r[i] == if profiles[i].id == userId then profiles[i].(kycCompleted := true) else profiles[i]
  {
    UpdateWhere(profiles, (p: Profile) => p.id == userId, (p: Profile) => p.(kycCompleted := true))
  }

  /**
   * The audit row of a review: "KYC_" and the action in upper case, the
   * prior status, the new one and the notes as sent. A null note is stored
   * as null; an absent one leaves no key, as JSON drops `undefined`.
   */
  function ReviewAudit(checker: string, action: string, kycId: string, prior: KycStatus, status: KycStatus,
                       notes: Option<Value>): AuditLog {
    var newValues := map["kyc_status" := Str(KycStatusName(status))];
    AuditLog(checker, "KYC_" + ToUpper(action), "kyc_application", kycId,
             Some(map["kyc_status" := Str(KycStatusName(prior))]),
             Some(if notes.Some? then newValues["checker_notes" := notes.value] else newValues), None)
  }

  /** Every check of the handler passes: a reviewer, a JSON body with an id and a valid action, and the application found. */
  predicate Ready(profiles: seq<Profile>, kyc: seq<KycApplication>, checker: Option<string>, body: bool,
                  kycId: Option<string>, action: Option<string>) {
    && checker.Some? && MayReview(Single(profiles, (p: Profile) => p.id == checker.value))
    && body && !MissingText(kycId) && !MissingText(action) && ValidAction(action.value)
    && Single(kyc, (k: KycApplication) => k.id == kycId.value).Some?
  }

  /**
   * The handler. `checker` is the session's user; `body` says whether the
   * body is JSON, with `kycId`, `action` and `notes` its members (None when
   * absent). `now` is the clock. The services are oracles: `updateOk` whether
   * the application update succeeds, `profileOk` whether the profile update
   * takes effect (its error is not checked).
   */
  method Post(db: Db, checker: Option<string>, body: bool, kycId: Option<string>, action: Option<string>,
              notes: Option<Value>, now: int, updateOk: bool, profileOk: bool)
    returns (resp: ReviewResponse)
    modifies db`kyc, db`profiles, db`audit
    ensures checker.None? ==> resp == Refused(401, "Unauthorized")
    ensures checker.Some? && !MayReview(Single(old(db.profiles), (p: Profile) => p.id == checker.value)) ==>
      resp == Refused(403, ForbiddenError)
    ensures checker.Some? && MayReview(Single(old(db.profiles), (p: Profile) => p.id == checker.value)) && !body ==>
      resp == Refused(500, "Internal server error")
    ensures checker.Some? && MayReview(Single(old(db.profiles), (p: Profile) => p.id == checker.value)) && body ==>
      && ((MissingText(kycId) || MissingText(action)) ==> resp == Refused(400, MissingError))
      && (!MissingText(kycId) && !MissingText(action) && !ValidAction(action.value) ==> resp == Refused(400, ActionError))
      && ((!MissingText(kycId) && !MissingText(action) && ValidAction(action.value)
           && Single(old(db.kyc), (k: KycApplication) => k.id == kycId.value).None?) ==> resp == Refused(404, NotFoundError))
    ensures Ready(old(db.profiles), old(db.kyc), checker, body, kycId, action) && !updateOk ==>
      resp == Refused(500, UpdateError)
    ensures resp.Reviewed? <==> Ready(old(db.profiles), old(db.kyc), checker, body, kycId, action) && updateOk
    ensures !resp.Reviewed? ==> db.kyc == old(db.kyc) && db.profiles == old(db.profiles) && db.audit == old(db.audit)
    ensures resp.Reviewed? ==>
      && Ready(old(db.profiles), old(db.kyc), checker, body, kycId, action)
      && var k := Single(old(db.kyc), (k: KycApplication) => k.id == kycId.value).value;
         var status := NewStatus(action.value);
         && db.kyc == DecideRows(old(db.kyc), kycId.value, status, checker.value, notes, now)
         && db.profiles == (if status == KycApproved && profileOk then CompleteKyc(old(db.profiles), k.userId)
                            else old(db.profiles))
         && db.audit == old(db.audit) + [ReviewAudit(checker.value, action.value, kycId.value, k.kycStatus, status, notes)]
         && resp == Reviewed(kycId.value, status, now)
  {
    if checker.None? {
      return Refused(401, "Unauthorized");
    }
    var profile := Single(db.profiles, (p: Profile) => p.id == checker.value);
    if !MayReview(profile) {
      return Refused(403, ForbiddenError);
    }
    if !body {
      return Refused(500, "Internal server error");
    }
    if MissingText(kycId) || MissingText(action) {
      return Refused(400, MissingError);
    }
    if !ValidAction(action.value) {
      return Refused(400, ActionError);
    }
    var existing := Single(db.kyc, (k: KycApplication) => k.id == kycId.value);
    if existing.None? {
      return Refused(404, NotFoundError);
    }
    var status := NewStatus(action.value);
    if !updateOk {
      return Refused(500, UpdateError);
    }
    Record(db, checker.value, action.value, kycId.value, existing.value, status, notes, now, profileOk);
    resp := Reviewed(kycId.value, status, now);
  }

  /** The three writes of an accepted review: the application, the applicant's profile on approval, the audit row. */
  method Record(db: Db, checker: string, action: string, kycId: string, k: KycApplication, status: KycStatus,
                notes: Option<Value>, now: int, profileOk: bool)
    modifies db`kyc, db`profiles, db`audit
    ensures db.kyc == DecideRows(old(db.kyc), kycId, status, checker, notes, now)
    ensures db.profiles == if status == KycApproved && profileOk then CompleteKyc(old(db.profiles), k.userId)
                           else old(db.profiles)
    ensures db.audit == old(db.audit) + [ReviewAudit(checker, action, kycId, k.kycStatus, status, notes)]
  {
    db.kyc := DecideRows(db.kyc, kycId, status, checker, notes, now);
    if status == KycApproved && profileOk {
      db.profiles := CompleteKyc(db.profiles, k.userId);
    }
    db.AppendAudit(ReviewAudit(checker, action, kycId, k.kycStatus, status, notes));
  }

  /** The three actions reach their statuses from every current status: there is no transition rule. */
  lemma AnyStatusMayBeDecided(k: KycApplication, checker: string, notes: Option<Value>, now: int)
    ensures Decided(k, NewStatus("approve"), checker, notes, now).kycStatus == KycApproved
    ensures Decided(k, NewStatus("reject"), checker, notes, now).kycStatus == KycRejected
    ensures Decided(k, NewStatus("under_review"), checker, notes, now).kycStatus == UnderReview
  {
  }

  /** `toUpperCase()` of a word of lower-case letters and underscores maps each letter to its capital. */
  lemma UpperWord(w: string, upper: string)
    requires |w| == |upper|
    requires forall i :: 0 <= i < |w| ==> (IsLower(w[i]) && upper[i] as int == w[i] as int - 32) || (w[i] == '_' && upper[i] == '_')
    ensures ToUpper(w) == upper
  {
    forall i | 0 <= i < |w|
      ensures ToUpper(w)[i] == upper[i]
    {
      assert ToUpper(w)[i] == UpperChar(w[i]);
    }
  }

  /** The audit actions of the three valid actions. */
  lemma AuditActions(checker: string, kycId: string, prior: KycStatus, status: KycStatus, notes: Option<Value>)
    ensures ReviewAudit(checker, "approve", kycId, prior, status, notes).action == "KYC_APPROVE"
    ensures ReviewAudit(checker, "reject", kycId, prior, status, notes).action == "KYC_REJECT"
    ensures ReviewAudit(checker, "under_review", kycId, prior, status, notes).action == "KYC_UNDER_REVIEW"
  {
    ApproveUpper();
    RejectUpper();
    UnderReviewUpper();
  }

  /** The upper-cased names of the three actions. */
  lemma ApproveUpper()
    ensures ToUpper("approve") == "APPROVE"
  {
    UpperWord("approve", "APPROVE");
  }

  lemma RejectUpper()
    ensures ToUpper("reject") == "REJECT"
  {
    UpperWord("reject", "REJECT");
  }

  lemma UnderReviewUpper()
    ensures ToUpper("under_review") == "UNDER_REVIEW"
  {
    UpperWord("under_review", "UNDER_REVIEW");
  }

  /** The row under the reviewed id takes the new status and the checker, and keeps its data and its applicant. */
  lemma DecidedKeepsIdentity(rows: seq<KycApplication>, kycId: string, status: KycStatus, checker: string,
                             notes: Option<Value>, now: int, i: nat)
    requires i < |rows| && rows[i].id == kycId
    ensures var r := DecideRows(rows, kycId, status, checker, notes, now);
      && r[i].kycStatus == status && r[i].checkerId == Some(checker) && r[i].columns == rows[i].columns
      && r[i].userId == rows[i].userId
  {
  }

  /**
   * Notes are recorded as sent: a null note is kept in the audit row as
   * null, absent notes leave no key, and neither is written to the
   * application, which takes only truthy notes.
   */
  lemma NotesRecorded(k: KycApplication, checker: string, action: string, kycId: string, prior: KycStatus,
                      status: KycStatus, now: int, text: string)
    ensures ReviewAudit(checker, action, kycId, prior, status, Some(Null)).newValues.value["checker_notes"] == Null
    ensures "checker_notes" !in ReviewAudit(checker, action, kycId, prior, status, None).newValues.value
    ensures Decided(k, status, checker, Some(Null), now).checkerNotes.None?
    ensures Decided(k, status, checker, None, now).checkerNotes.None?
    ensures text != "" ==> Decided(k, status, checker, Some(Str(text)), now).checkerNotes == Some(Str(text))
  {
  }

  /** Only approval flags a profile, and only the applicant's: every other profile row is left as it was. */
  lemma OnlyApplicantCompleted(profiles: seq<Profile>, userId: string, i: nat)
    requires i < |profiles| && profiles[i].id != userId
    ensures CompleteKyc(profiles, userId)[i] == profiles[i]
  {
  }
}
