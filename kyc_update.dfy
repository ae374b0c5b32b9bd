/**
 * POST /api/kyc/update (app/api/kyc/update/route.ts): a maker's changes to
 * their own reviewed KYC application. Only the fields that differ are
 * written; the application goes back to pending and loses its review.
 */
module KycUpdate {
  import opened Wrappers
  import opened Strings
  import opened Types
  import opened Store

  /** The fields a maker may change; the identity documents (dob, pan, aadhaar) are not among them. */
  const EditableFields: seq<string> :=
    ["first_name", "last_name", "mobile", "email", "address_current", "address_permanent", "occupation",
     "annual_income", "account_type", "pep", "nominee_name", "nominee_relation", "nominee_dob"]

  const UpdateAction: string := "KYC_UPDATE_SUBMITTED"
  const InReviewError: string :=
    "Your KYC application is currently under review. Please wait for the current review to complete before submitting updates."
  const NoChangeError: string := "No changes detected. Please modify at least one field."
  const UpdatedMessage: string := "KYC update submitted successfully. Changes are pending compliance verification."

  datatype UpdateResponse =
    | Refused(status: int, error: string)
    | Updated(message: string, id: string, applicationId: string, kycStatus: KycStatus, changedFields: seq<string>)

  /** `existingKyc[field]`: the row has every column, and one the model's record lacks reads as null. */
  function Current(cols: Record, f: string): Value {
    Lookup(cols, f).GetOr(Null)
  }

  /** `body[f] !== undefined && body[f] !== existingKyc[f]`. */
  predicate Differs(body: Record, cols: Record, f: string) {
    f in body && body[f] != Current(cols, f)
  }

  /** The changed fields among `fields`, in their order. */
  function Changed(body: Record, cols: Record, fields: seq<string>): (r: seq<string>)
    ensures forall i :: 0 <= i < |r| ==> r[i] in fields && Differs(body, cols, r[i])
    ensures forall f :: f in fields && Differs(body, cols, f) ==> f in r
    ensures |r| <= |fields|
  {
    if fields == [] then []
    else
      var last := fields[|fields| - 1];
      Changed(body, cols, fields[..|fields| - 1]) + (if Differs(body, cols, last) then [last] else [])
  }

  /** The body's values under the given keys: `changes`. */
  function NewValues(body: Record, keys: seq<string>): (m: Record)
    ensures m.Keys == set k | k in keys && k in body
  {
    map k | k in keys && k in body :: body[k]
  }

  /** The row's values under the given keys: `oldValues`. */
  function OldValues(cols: Record, keys: seq<string>): (m: Record)
    ensures m.Keys == set k | k in keys
  {
    map k | k in keys :: Current(cols, k)
  }

  /** `String(v)`. */
  function JsString(v: Value): string {
    match v
    case Str(s) => s
    case Bool(b) => if b then "true" else "false"
    case Null => "null"
  }

  /** The checks of changed values that are truthy, in the route's order; None when they all pass. */
  function ValidationError(changes: Record): Option<string> {
    var mobile := Lookup(changes, "mobile");
    var email := Lookup(changes, "email");
    var first := Lookup(changes, "first_name");
    var last := Lookup(changes, "last_name");
    if !Falsy(mobile) && !ExactDigits(JsString(mobile.value), 10) then Some("Invalid mobile number format")
    else if !Falsy(email) && !MatchesEmail(JsString(email.value)) then Some("Invalid email format")
    else if !Falsy(first) && IsBlank(JsString(first.value)) then Some("First name cannot be empty")
    else if !Falsy(last) && IsBlank(JsString(last.value)) then Some("Last name cannot be empty")
    else None
  }

  /** The application after the update: the changes written, status pending, the review cleared. */
  function Resubmitted(k: KycApplication, changes: Record): (r: KycApplication)
    ensures r.id == k.id && r.applicationId == k.applicationId && r.userId == k.userId
    ensures r.kycStatus == KycPending && r.checkerId.None? && r.checkerNotes.None? && r.reviewedAt.None?
    ensures r.columns.Keys == k.columns.Keys + changes.Keys
    ensures forall f :: f in changes ==> r.columns[f] == changes[f]
    ensures forall f :: f in k.columns && f !in changes ==> r.columns[f] == k.columns[f]
  {
    k.(columns := k.columns + changes, kycStatus := KycPending, checkerId := None, checkerNotes := None, reviewedAt := None)
  }

  /** The rows after `update(...).eq('id', id)`. */
  function ResubmitRows(rows: seq<KycApplication>, id: string, changes: Record): seq<KycApplication> {
    UpdateWhere(rows, (k: KycApplication) => k.id == id, (k: KycApplication) => Resubmitted(k, changes))
  }

  /** One more field: `Changed` grows by it exactly when it differs. */
  lemma ChangedStep(body: Record, cols: Record, fields: seq<string>, i: nat)
    requires i < |fields|
    ensures Changed(body, cols, fields[..i + 1])
      == Changed(body, cols, fields[..i]) + (if Differs(body, cols, fields[i]) then [fields[i]] else [])
  {
    assert fields[..i + 1][..i] == fields[..i];
  }

  /** Adding a key to the changeset adds one entry to each of its two maps. */
  lemma ValuesStep(body: Record, cols: Record, keys: seq<string>, f: string)
    requires f in body
    ensures NewValues(body, keys + [f]) == NewValues(body, keys)[f := body[f]]
    ensures OldValues(cols, keys + [f]) == OldValues(cols, keys)[f := Current(cols, f)]
  {
  }

  /**
   * The loop over the editable fields, passed as `fields`: the changed ones in order, with the
   * body's values (`changes`) and the row's (`oldValues`) under them.
   */
  method Changeset(b: Record, cols: Record, fields: seq<string>) returns (changed: seq<string>, changes: Record, oldValues: Record)
    ensures changed == Changed(b, cols, fields)
    ensures changes == NewValues(b, changed) && oldValues == OldValues(cols, changed)
  {
    changed, changes, oldValues := [], map[], map[];
    var i := 0;
    while i < |fields|
      invariant 0 <= i <= |fields|
      invariant changed == Changed(b, cols, fields[..i])
      invariant changes == NewValues(b, changed) && oldValues == OldValues(cols, changed)
    {
      var f := fields[i];
      ChangedStep(b, cols, fields, i);
      if f in b && b[f] != Current(cols, f) {
        ValuesStep(b, cols, changed, f);
        changes := changes[f := b[f]];
        oldValues := oldValues[f := Current(cols, f)];
        changed := changed + [f];
      }
      i := i + 1;
    }
    assert fields[..i] == fields;
  }

  /** The statuses from which a maker may submit an update: neither awaiting nor under review. */
  predicate Updatable(status: KycStatus) {
    status != KycPending && status != UnderReview
  }

  /** The user's application exists and may be updated, and the body is JSON. */
  predicate Editable(kyc: seq<KycApplication>, userId: Option<string>, body: Option<Record>) {
    userId.Some? && OwnApplication(kyc, userId.value).Some? && Updatable(OwnApplication(kyc, userId.value).value.kycStatus)
    && body.Some?
  }

  /** The editable fields the body changes in the user's application. */
  function ChangedFields(kyc: seq<KycApplication>, userId: Option<string>, body: Option<Record>): seq<string>
    requires Editable(kyc, userId, body)
  {
    Changed(body.value, OwnApplication(kyc, userId.value).value.columns, EditableFields)
  }

  /** Every check of the handler passes: something changes and every changed value is valid. */
  predicate Acceptable(kyc: seq<KycApplication>, userId: Option<string>, body: Option<Record>) {
    && Editable(kyc, userId, body)
    && ChangedFields(kyc, userId, body) != []
    && ValidationError(NewValues(body.value, ChangedFields(kyc, userId, body))).None?
  }

  /**
   * The handler. `userId` is the session's user, `body` the parsed body
   * (None when it is not JSON). The update is an oracle: `updateError` is
   * its error message when it fails.
   */
  method Post(db: Db, userId: Option<string>, body: Option<Record>, updateError: Option<string>)
    returns (resp: UpdateResponse)
    modifies db`kyc, db`audit
    ensures userId.None? ==> resp == Refused(401, "Unauthorized")
    ensures userId.Some? ==>
      var own := OwnApplication(old(db.kyc), userId.value);
      && (own.None? ==> resp == Refused(404, "No KYC application found. Please complete onboarding first."))
      && (own.Some? && !Updatable(own.value.kycStatus) ==> resp == Refused(400, InReviewError))
      && (own.Some? && Updatable(own.value.kycStatus) && body.None? ==> resp == Refused(500, "Internal server error"))
    ensures Editable(old(db.kyc), userId, body) ==>
      var changed := ChangedFields(old(db.kyc), userId, body);
      var invalid := ValidationError(NewValues(body.value, changed));
      && (changed == [] ==> resp == Refused(400, NoChangeError))
      && (changed != [] && invalid.Some? ==> resp == Refused(400, invalid.value))
    ensures Acceptable(old(db.kyc), userId, body) && updateError.Some? ==>
      resp == Refused(500, if updateError.value != "" then updateError.value else "Failed to update KYC application")
    ensures resp.Updated? <==> Acceptable(old(db.kyc), userId, body) && updateError.None?
    ensures !resp.Updated? ==> db.kyc == old(db.kyc) && db.audit == old(db.audit)
    ensures resp.Updated? ==>
      && Acceptable(old(db.kyc), userId, body)
      && var k := OwnApplication(old(db.kyc), userId.value).value;
         var changed := ChangedFields(old(db.kyc), userId, body);
         && db.kyc == ResubmitRows(old(db.kyc), k.id, NewValues(body.value, changed))
         && db.audit == old(db.audit) + [AuditLog(userId.value, UpdateAction, "kyc_application", k.id,
                                                  Some(OldValues(k.columns, changed)),
                                                  Some(NewValues(body.value, changed)), None)]
         && resp == Updated(UpdatedMessage, k.id, k.applicationId, KycPending, changed)
  {
    if userId.None? {
      return Refused(401, "Unauthorized");
    }
    var existing := OwnApplication(db.kyc, userId.value);
    if existing.None? {
      return Refused(404, "No KYC application found. Please complete onboarding first.");
    }
    var k := existing.value;
    if k.kycStatus == KycPending || k.kycStatus == UnderReview {
      return Refused(400, InReviewError);
    }
    if body.None? {
      return Refused(500, "Internal server error");
    }
    var b := body.value;
    var changed, changes, oldValues := Changeset(b, k.columns, EditableFields);
    if |changed| == 0 {
      return Refused(400, NoChangeError);
    }
    var invalid := ValidationError(changes);
    if invalid.Some? {
      return Refused(400, invalid.value);
    }
    if updateError.Some? {
      return Refused(500, if updateError.value != "" then updateError.value else "Failed to update KYC application");
    }
    Resubmit(db, userId.value, k.id, changes, oldValues);
    resp := Updated(UpdatedMessage, k.id, k.applicationId, KycPending, changed);
  }

  /** The write of an accepted update: the application resubmitted with the changes, and the audit row. */
  method Resubmit(db: Db, userId: string, kycId: string, changes: Record, oldValues: Record)
    modifies db`kyc, db`audit
    ensures db.kyc == ResubmitRows(old(db.kyc), kycId, changes)
    ensures db.audit == old(db.audit) + [AuditLog(userId, UpdateAction, "kyc_application", kycId,
                                                  Some(oldValues), Some(changes), None)]
  {
    db.kyc := ResubmitRows(db.kyc, kycId, changes);
    db.AppendAudit(AuditLog(userId, UpdateAction, "kyc_application", kycId, Some(oldValues), Some(changes), None));
  }

  /** The identity documents are never part of a changeset, whatever the body holds. */
  lemma IdentityNeverChanges(body: Record, cols: Record)
    ensures "dob" !in Changed(body, cols, EditableFields)
    ensures "pan" !in Changed(body, cols, EditableFields)
    ensures "aadhaar" !in Changed(body, cols, EditableFields)
  {
  }

  /** The changeset: a field is in it exactly when it is editable, present in the body and different. */
  lemma ChangesetExactly(body: Record, cols: Record, f: string)
    ensures f in Changed(body, cols, EditableFields) <==> f in EditableFields && Differs(body, cols, f)
    ensures f in NewValues(body, Changed(body, cols, EditableFields)) <==> f in EditableFields && Differs(body, cols, f)
  {
  }

  /** The audit row's old and new values name the same fields, the changed ones. */
  lemma AuditKeysAgree(body: Record, cols: Record)
    ensures var changed := Changed(body, cols, EditableFields);
      NewValues(body, changed).Keys == OldValues(cols, changed).Keys == set f | f in changed
  {
    var changed := Changed(body, cols, EditableFields);
    assert forall f :: f in changed ==> f in body;
  }

  /** A resubmission clears the review and leaves untouched every column it does not change. */
  lemma ResubmitKeepsOthers(k: KycApplication, body: Record)
    ensures var changes := NewValues(body, Changed(body, k.columns, EditableFields));
      forall f :: f in k.columns && f !in EditableFields ==> Resubmitted(k, changes).columns[f] == k.columns[f]
  {
    IdentityNeverChanges(body, k.columns);
  }
}
