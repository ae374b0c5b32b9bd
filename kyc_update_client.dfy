/**
 * The maker's KYC update form (app/dashboard/maker/kyc-update/kyc-update-client.tsx):
 * the editable fields prefilled from the application, the fields that differ
 * from it, the masked Aadhaar, the lock while a review is open, and the
 * submission guard. The form posts its whole contents to the update route.
 */
module KycUpdateClient {
  import opened Wrappers
  import opened Types
  import KycUpdate
  import Store

  /** The keys of the form: the route's editable fields, in the same order. */
  const FormKeys: seq<string> := KycUpdate.EditableFields

  /** `maskAadhaar`: a twelve-character number shown as "XXXX-XXXX-" and its last four characters; anything else as it is. */
  function MaskAadhaar(aadhaar: string): (r: string)
    ensures |aadhaar| != 12 ==> r == aadhaar
    ensures |aadhaar| == 12 ==> |r| == 14 && r[..10] == "XXXX-XXXX-" && r[10..] == aadhaar[8..]
  {
    if aadhaar == "" || |aadhaar| != 12 then aadhaar else "XXXX-XXXX-" + aadhaar[8..]
  }

  /** `String(v ?? '')`: absent and null show as the empty text. */
  function Shown(v: Option<Value>): (s: string)
    ensures v.None? || v.value.Null? ==> s == ""
    ensures v.Some? && v.value.Str? ==> s == v.value.s
  {
    if v.None? || v.value.Null? then "" else KycUpdate.JsString(v.value)
  }

  /** The form's first contents: each text column or "", and `pep` or false. */
  function InitialForm(k: KycApplication): (form: Record)
    ensures form.Keys == set f | f in FormKeys
    ensures forall f :: f in form ==> !form[f].Null?
  {
    map f | f in FormKeys ::
      var v := Lookup(k.columns, f);
      if Falsy(v) then (if f == "pep" then Bool(false) else Str("")) else v.value
  }

  /** A key whose shown value differs from the application's. */
  predicate Edited(form: Record, original: Record, f: string) {
    Shown(Lookup(form, f)) != Shown(Lookup(original, f))
  }

  /** The edited keys among `keys`, in their order. */
  function EditedAmong(form: Record, original: Record, keys: seq<string>): (r: seq<string>)
    ensures forall i :: 0 <= i < |r| ==> r[i] in keys && Edited(form, original, r[i])
    ensures forall f :: f in keys && Edited(form, original, f) ==> f in r
  {
    if keys == [] then []
    else
      var last := keys[|keys| - 1];
      EditedAmong(form, original, keys[..|keys| - 1]) + (if Edited(form, original, last) then [last] else [])
  }

  lemma EditedStep(form: Record, original: Record, keys: seq<string>, i: nat)
    requires i < |keys|
    ensures EditedAmong(form, original, keys[..i + 1])
      == EditedAmong(form, original, keys[..i]) + (if Edited(form, original, keys[i]) then [keys[i]] else [])
  {
    assert keys[..i + 1][..i] == keys[..i];
  }

  /** `getChangedFields`: the loop over the form's keys that collects the edited ones. */
  method GetChangedFields(form: Record, original: Record, keys: seq<string>) returns (changed: seq<string>)
    ensures changed == EditedAmong(form, original, keys)
    ensures forall f :: f in changed <==> f in keys && Edited(form, original, f)
  {
    changed := [];
    var i := 0;
    while i < |keys|
      invariant 0 <= i <= |keys|
      invariant changed == EditedAmong(form, original, keys[..i])
    {
      var key := keys[i];
      EditedStep(form, original, keys, i);
      if Shown(Lookup(form, key)) != Shown(Lookup(original, key)) {
        changed := changed + [key];
      }
      i := i + 1;
    }
    assert keys[..i] == keys;
  }

  /** The freshly loaded form differs from the application in no field whose column holds its own kind of value. */
  lemma InitialFormUnchanged(k: KycApplication, f: string)
    requires f in FormKeys
    requires f == "pep" ==> Lookup(k.columns, f).Some? && Lookup(k.columns, f).value.Bool?
    requires f != "pep" ==> Lookup(k.columns, f).None? || !Lookup(k.columns, f).value.Bool?
    ensures !Edited(InitialForm(k), k.columns, f)
  {
  }

  /** A `pep` column that is null shows as a change as soon as the form loads: the form holds false. */
  lemma NullPepShowsAsEdited(k: KycApplication)
    requires Lookup(k.columns, "pep").None? || Lookup(k.columns, "pep") == Some(Null)
    ensures Edited(InitialForm(k), k.columns, "pep")
    ensures "pep" in EditedAmong(InitialForm(k), k.columns, FormKeys)
  {
    assert "pep" in FormKeys;
  }

  /**
   * The form and the route compare differently: a column stored as null and
   * a form field left "" are the same to the form, but the route, which
   * compares the JSON values themselves, takes the "" as a change.
   */
  lemma NullAndEmptyDisagree(form: Record, cols: Record, f: string)
    requires f in form && form[f] == Str("") && Lookup(cols, f).GetOr(Null) == Null
    ensures !Edited(form, cols, f)
    ensures KycUpdate.Differs(form, cols, f)
  {
  }

  /** `isPendingOrUnderReview`: the inputs and the submit button are disabled. */
  predicate Locked(status: KycStatus) {
    status == KycPending || status == UnderReview
  }

  /**
   * The form is locked exactly when the route would refuse an update of the
   * user's own application as under review: a JSON body sent while the form is
   * unlocked gets past that check, and one sent while it is locked does not.
   */
  lemma LockedIffRouteRefuses(kyc: seq<KycApplication>, userId: string, body: Record)
    requires Store.OwnApplication(kyc, userId).Some?
    ensures Locked(Store.OwnApplication(kyc, userId).value.kycStatus)
            <==> !KycUpdate.Updatable(Store.OwnApplication(kyc, userId).value.kycStatus)
    ensures Locked(Store.OwnApplication(kyc, userId).value.kycStatus)
            <==> !KycUpdate.Editable(kyc, Some(userId), Some(body))
  {
  }

  /** The submit button: enabled only with changes, none in flight, and no open review. */
  predicate SubmitEnabled(changedCount: nat, isSubmitting: bool, locked: bool) {
    changedCount > 0 && !isSubmitting && !locked
  }

  /** What the page shows after a submission. */
  datatype SubmitResult = Success(message: string, changedFields: Option<seq<string>>) | Failure(message: string)

  /** What the update request comes back with. */
  datatype UpdateOutcome =
    | Ok(message: Option<string>, changedFields: Option<seq<string>>)
    | NotOk(error: Option<string>)
    | FetchThrew

  /** The message the page shows for an outcome, with its fallbacks. */
  function ResultOf(o: UpdateOutcome): (r: SubmitResult)
    ensures o.Ok? <==> r.Success?
    ensures r.message != ""
  {
    match o
    case Ok(m, fields) => Success(if MissingText(m) then "KYC update submitted successfully." else m.value, fields)
    case NotOk(e) => Failure(if MissingText(e) then "Failed to submit KYC update." else e.value)
    case FetchThrew => Failure("An unexpected error occurred. Please try again.")
  }

  /** The form's state. */
  class UpdateForm {
    const application: KycApplication
    var formData: Record
    var isSubmitting: bool
    var submitResult: Option<SubmitResult>

    constructor (k: KycApplication)
      ensures application == k && formData == InitialForm(k) && !isSubmitting && submitResult.None?
    {
      application := k;
      formData := InitialForm(k);
      isSubmitting := false;
      submitResult := None;
    }

    /** `handleInputChange`: one field replaced and the last result cleared. */
    method HandleInputChange(key: string, value: Value)
      modifies this`formData, this`submitResult
      ensures formData == old(formData)[key := value] && submitResult.None?
    {
      formData := formData[key := value];
      submitResult := None;
    }

    /**
     * The start of `handleSubmit`: nothing happens without changes or while a
     * submission is in flight; otherwise the whole form is the request body.
     */
    method BeginSubmit() returns (request: Option<Record>)
      modifies this`isSubmitting, this`submitResult
      ensures (EditedAmong(formData, application.columns, FormKeys) == [] || old(isSubmitting)) ==>
        request.None? && isSubmitting == old(isSubmitting) && submitResult == old(submitResult)
      ensures EditedAmong(formData, application.columns, FormKeys) != [] && !old(isSubmitting) ==>
        request == Some(formData) && isSubmitting && submitResult.None?
    {
      var changed := GetChangedFields(formData, application.columns, FormKeys);
      if |changed| == 0 || isSubmitting {
        return None;
      }
      isSubmitting := true;
      submitResult := None;
      request := Some(formData);
    }

    /** The end of `handleSubmit`: the outcome shown and the submission over. */
    method FinishSubmit(o: UpdateOutcome)
      modifies this`isSubmitting, this`submitResult
      ensures submitResult == Some(ResultOf(o)) && !isSubmitting
    {
      submitResult := Some(ResultOf(o));
      isSubmitting := false;
    }
  }

  /** The readonly fields are shown from the application, the Aadhaar masked. */
  function ReadonlyDisplay(k: KycApplication, key: string): (s: string)
    ensures key != "aadhaar" ==> s == Shown(Lookup(k.columns, key))
    ensures key == "aadhaar" ==> s == MaskAadhaar(Shown(Lookup(k.columns, key)))
  {
    var shown := Shown(Lookup(k.columns, key));
    if key == "aadhaar" then MaskAadhaar(shown) else shown
  }
}
