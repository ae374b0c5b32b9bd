/**
 * POST /api/kyc/submit (app/api/kyc/submit/route.ts): a first KYC
 * application for the signed-in user, validated and stored as pending, with
 * an audit row.
 */
module KycSubmit {
  import opened Wrappers
  import opened Strings
  import opened Types
  import opened Store

  const RequiredFields: seq<string> :=
    ["first_name", "last_name", "dob", "pan", "aadhaar", "mobile", "email", "address_current", "account_type"]

  /** The optional columns stored as null when the body leaves them falsy. */
  const NullableFields: seq<string> := ["occupation", "annual_income", "nominee_name", "nominee_relation", "nominee_dob"]

  const SubmittedAction: string := "KYC_APPLICATION_SUBMITTED"

  datatype SubmitResponse =
    | Refused(status: int, error: string, existingStatus: Option<KycStatus>)
    | Submitted(id: string, applicationId: string, kycStatus: KycStatus)

  /** The position of the first required field, in the listed order, that the body leaves falsy. */
  function FirstMissing(body: Record, fields: seq<string>): (r: Option<nat>)
    ensures r.Some? ==> r.value < |fields| && Falsy(Lookup(body, fields[r.value]))
    ensures r.Some? ==> forall j :: 0 <= j < r.value ==> !Falsy(Lookup(body, fields[j]))
    ensures r.None? <==> forall j :: 0 <= j < |fields| ==> !Falsy(Lookup(body, fields[j]))
  {
    if fields == [] then None
    else if Falsy(Lookup(body, fields[0])) then Some(0)
    else
      var rest := FirstMissing(body, fields[1..]);
      if rest.None? then None else Some(rest.value + 1)
  }

  /** `/^[A-Z]{5}[0-9]{4}[A-Z]{1}$/.test(v.toUpperCase())`, for a string. */
  predicate PanOk(pan: string) {
    MatchesPan(ToUpper(pan))
  }

  /** `/^\d{n}$/.test(v)`: a non-string converts to a text that is never all digits. */
  predicate DigitsField(v: Option<Value>, n: nat) {
    v.Some? && v.value.Str? && ExactDigits(v.value.s, n)
  }

  /**
   * `body.address_permanent?.trim() || body.address_current`: None when
   * `trim` is not a function (a boolean), which throws.
   */
  function PermanentAddress(body: Record): (r: Option<Value>)
    ensures var p := Lookup(body, "address_permanent");
      && (p.None? || p.value.Null? ==> r == Some(Lookup(body, "address_current").GetOr(Null)))
      && (p.Some? && p.value.Str? && Trim(p.value.s) != "" ==> r == Some(Str(Trim(p.value.s))))
      && (p.Some? && p.value.Str? && Trim(p.value.s) == "" ==> r == Some(Lookup(body, "address_current").GetOr(Null)))
      && (p.Some? && p.value.Bool? <==> r.None?)
  {
    var current := Lookup(body, "address_current").GetOr(Null);
    match Lookup(body, "address_permanent")
    case None => Some(current)
    case Some(Null) => Some(current)
    case Some(Bool(_)) => None
    case Some(Str(s)) => if Trim(s) != "" then Some(Str(Trim(s))) else Some(current)
  }

  /** `v || fallback`. */
  function OrElse(v: Option<Value>, fallback: Value): (r: Value)
    ensures Falsy(v) ==> r == fallback
    ensures !Falsy(v) ==> r == v.value
  {
    if Falsy(v) then fallback else v.value
  }

  /** Every required field is a key of the body. */
  predicate HasRequired(body: Record) {
    && "first_name" in body && "last_name" in body && "dob" in body && "pan" in body && "aadhaar" in body
    && "mobile" in body && "email" in body && "address_current" in body && "account_type" in body
  }

  /** A body with no falsy required field has all of them. */
  lemma NoneMissing(body: Record)
    requires FirstMissing(body, RequiredFields).None?
    ensures HasRequired(body)
  {
    var f := RequiredFields;
    assert !Falsy(Lookup(body, f[0])) && !Falsy(Lookup(body, f[1])) && !Falsy(Lookup(body, f[2]));
    assert !Falsy(Lookup(body, f[3])) && !Falsy(Lookup(body, f[4])) && !Falsy(Lookup(body, f[5]));
    assert !Falsy(Lookup(body, f[6])) && !Falsy(Lookup(body, f[7])) && !Falsy(Lookup(body, f[8]));
  }

  /** The columns of the new application, from a body that passed every check. */
  function Columns(body: Record, permanent: Value): (c: Record)
    requires HasRequired(body) && body["pan"].Str?
  {
    map[
      "first_name" := body["first_name"], "last_name" := body["last_name"], "dob" := body["dob"],
      "pan" := Str(ToUpper(body["pan"].s)), "aadhaar" := body["aadhaar"], "account_type" := body["account_type"],
      "mobile" := body["mobile"], "email" := body["email"], "address_current" := body["address_current"],
      "address_permanent" := permanent,
      "occupation" := OrElse(Lookup(body, "occupation"), Null),
      "annual_income" := OrElse(Lookup(body, "annual_income"), Null),
      "pep" := OrElse(Lookup(body, "pep"), Bool(false)),
      "nominee_name" := OrElse(Lookup(body, "nominee_name"), Null),
      "nominee_relation" := OrElse(Lookup(body, "nominee_relation"), Null),
      "nominee_dob" := OrElse(Lookup(body, "nominee_dob"), Null)]
  }

  /** The user has no application yet and has sent a JSON body with every required field. */
  predicate Complete(kyc: seq<KycApplication>, userId: Option<string>, body: Option<Record>) {
    userId.Some? && OwnApplication(kyc, userId.value).None? && body.Some? && FirstMissing(body.value, RequiredFields).None?
  }

  /** The PAN is a string matching the pattern once upper-cased. */
  predicate PanField(v: Option<Value>) {
    v.Some? && v.value.Str? && PanOk(v.value.s)
  }

  /** Every check of the handler passes, so it goes on to the insert. */
  predicate Acceptable(kyc: seq<KycApplication>, userId: Option<string>, body: Option<Record>) {
    && Complete(kyc, userId, body)
    && PanField(Lookup(body.value, "pan"))
    && DigitsField(Lookup(body.value, "aadhaar"), 12) && DigitsField(Lookup(body.value, "mobile"), 10)
    && PermanentAddress(body.value).Some?
  }

  /**
   * The handler. `userId` is the session's user (None without one); `body`
   * is the parsed body, None when it is not JSON. The insert is an oracle:
   * `insertError` is its error message when it fails; `newId` and `newAppId`
   * are the ids the database assigns.
   */
  method Post(db: Db, userId: Option<string>, body: Option<Record>, insertError: Option<string>,
              newId: string, newAppId: string)
    returns (resp: SubmitResponse)
    modifies db`kyc, db`audit
    ensures userId.None? ==> resp == Refused(401, "Unauthorized", None)
    ensures userId.Some? && OwnApplication(old(db.kyc), userId.value).Some? ==>
      resp == Refused(400, "KYC application already exists", Some(OwnApplication(old(db.kyc), userId.value).value.kycStatus))
    ensures userId.Some? && OwnApplication(old(db.kyc), userId.value).None? && body.None? ==>
      resp == Refused(500, "Internal server error", None)
    ensures userId.Some? && OwnApplication(old(db.kyc), userId.value).None? && body.Some?
            && FirstMissing(body.value, RequiredFields).Some? ==>
      resp == Refused(400, "Missing required field: " + RequiredFields[FirstMissing(body.value, RequiredFields).value], None)
    ensures Complete(old(db.kyc), userId, body) && !(Lookup(body.value, "pan").Some? && Lookup(body.value, "pan").value.Str?) ==>
      resp == Refused(500, "Internal server error", None)
    ensures Complete(old(db.kyc), userId, body) && Lookup(body.value, "pan").Some? && Lookup(body.value, "pan").value.Str?
            && !PanField(Lookup(body.value, "pan")) ==>
      resp == Refused(400, "Invalid PAN format", None)
    ensures Complete(old(db.kyc), userId, body) && PanField(Lookup(body.value, "pan"))
            && !DigitsField(Lookup(body.value, "aadhaar"), 12) ==>
      resp == Refused(400, "Invalid Aadhaar format", None)
    ensures Complete(old(db.kyc), userId, body) && PanField(Lookup(body.value, "pan"))
            && DigitsField(Lookup(body.value, "aadhaar"), 12) && !DigitsField(Lookup(body.value, "mobile"), 10) ==>
      resp == Refused(400, "Invalid mobile number format", None)
    ensures Complete(old(db.kyc), userId, body) && PanField(Lookup(body.value, "pan"))
            && DigitsField(Lookup(body.value, "aadhaar"), 12) && DigitsField(Lookup(body.value, "mobile"), 10)
            && PermanentAddress(body.value).None? ==>
      resp == Refused(500, "Internal server error", None)
    ensures Acceptable(old(db.kyc), userId, body) && insertError.Some? ==>
      resp == Refused(500, if insertError.value != "" then insertError.value else "Failed to create KYC application", None)
    ensures resp.Submitted? <==> Acceptable(old(db.kyc), userId, body) && insertError.None?
    ensures resp.Submitted? <==> db.kyc != old(db.kyc)
    ensures resp.Submitted? ==>
      && Acceptable(old(db.kyc), userId, body) && HasRequired(body.value) && body.value["pan"].Str?
      && db.kyc == old(db.kyc) + [KycApplication(newId, newAppId, userId.value,
                                                 Columns(body.value, PermanentAddress(body.value).value),
                                                 KycPending, None, None, None)]
      && db.audit == old(db.audit) + [AuditLog(userId.value, SubmittedAction, "kyc_application", newId, None,
                                               Some(map["kyc_status" := Str("pending")]), None)]
      && resp == Submitted(newId, newAppId, KycPending)
    ensures !resp.Submitted? ==> db.kyc == old(db.kyc) && db.audit == old(db.audit)
  {
    if userId.None? {
      return Refused(401, "Unauthorized", None);
    }
    var existing := OwnApplication(db.kyc, userId.value);
    if existing.Some? {
      return Refused(400, "KYC application already exists", Some(existing.value.kycStatus));
    }
    if body.None? {
      return Refused(500, "Internal server error", None);
    }
    var b := body.value;
    var i := 0;
    while i < |RequiredFields|
      invariant 0 <= i <= |RequiredFields|
      invariant forall j :: 0 <= j < i ==> !Falsy(Lookup(b, RequiredFields[j]))
    {
      if Falsy(Lookup(b, RequiredFields[i])) {
        assert FirstMissing(b, RequiredFields) == Some(i) by {
          FirstMissingIsFirst(b, RequiredFields, i);
        }
        return Refused(400, "Missing required field: " + RequiredFields[i], None);
      }
      i := i + 1;
    }
    assert FirstMissing(b, RequiredFields).None?;
    NoneMissing(b);
    if !b["pan"].Str? {
      return Refused(500, "Internal server error", None);
    }
    if !PanOk(b["pan"].s) {
      return Refused(400, "Invalid PAN format", None);
    }
    if !DigitsField(Lookup(b, "aadhaar"), 12) {
      return Refused(400, "Invalid Aadhaar format", None);
    }
    if !DigitsField(Lookup(b, "mobile"), 10) {
      return Refused(400, "Invalid mobile number format", None);
    }
    var permanent := PermanentAddress(b);
    if permanent.None? {
      return Refused(500, "Internal server error", None);
    }
    if insertError.Some? {
      return Refused(500, if insertError.value != "" then insertError.value else "Failed to create KYC application", None);
    }
    Insert(db, KycApplication(newId, newAppId, userId.value, Columns(b, permanent.value), KycPending, None, None, None));
    resp := Submitted(newId, newAppId, KycPending);
  }

  /** The insert of a new application and its audit row, by the applicant, recording the pending status. */
  method Insert(db: Db, row: KycApplication)
    modifies db`kyc, db`audit
    ensures db.kyc == old(db.kyc) + [row]
    ensures db.audit == old(db.audit) + [AuditLog(row.userId, SubmittedAction, "kyc_application", row.id, None,
                                                  Some(map["kyc_status" := Str("pending")]), None)]
  {
    db.kyc := db.kyc + [row];
    db.AppendAudit(AuditLog(row.userId, SubmittedAction, "kyc_application", row.id, None,
                            Some(map["kyc_status" := Str("pending")]), None));
  }

  /** A falsy field with every earlier one present is the one `FirstMissing` reports. */
  lemma {:induction false} FirstMissingIsFirst(body: Record, fields: seq<string>, i: nat)
    requires i < |fields| && Falsy(Lookup(body, fields[i]))
    requires forall j :: 0 <= j < i ==> !Falsy(Lookup(body, fields[j]))
    ensures FirstMissing(body, fields) == Some(i)
  {
    if i > 0 {
      FirstMissingIsFirst(body, fields[1..], i - 1);
    }
  }

  /** The stored PAN is the upper-cased one and matches the PAN pattern; the status is pending. */
  lemma StoredPan(body: Record, permanent: Value)
    requires HasRequired(body) && body["pan"].Str? && PanOk(body["pan"].s)
    ensures Columns(body, permanent)["pan"] == Str(ToUpper(body["pan"].s))
    ensures MatchesPan(Columns(body, permanent)["pan"].s)
  {
  }

  /** Optional fields the body leaves falsy are stored as null, and pep as false. */
  lemma OptionalDefaults(body: Record, permanent: Value)
    requires HasRequired(body) && body["pan"].Str?
    ensures forall j :: 0 <= j < |NullableFields| && Falsy(Lookup(body, NullableFields[j])) ==>
      Columns(body, permanent)[NullableFields[j]] == Null
    ensures Falsy(Lookup(body, "pep")) ==> Columns(body, permanent)["pep"] == Bool(false)
    ensures Columns(body, permanent)["address_permanent"] == permanent
  {
  }

  /** A permanent address that is absent, null or blank falls back to the current one. */
  lemma PermanentDefaultsToCurrent(body: Record)
    requires "address_current" in body
    requires var p := Lookup(body, "address_permanent"); p.None? || p.value.Null? || (p.value.Str? && IsBlank(p.value.s))
    ensures PermanentAddress(body) == Some(body["address_current"])
  {
  }
}
