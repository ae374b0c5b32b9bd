/**
 * The KYC onboarding wizard (app/auth/onboarding/page.tsx): four form steps
 * and a review step, each form step checked before the wizard moves on, the
 * nominee step skippable, and the names filled in from the registration data
 * or the user's metadata.
 */
module Onboarding {
  import opened Wrappers
  import opened Strings
  import opened Types

  /** The form the wizard collects; every field but `pep` is text. */
  datatype KycForm = KycForm(
    firstName: string, lastName: string, dob: string, pan: string, aadhaar: string,
    mobile: string, email: string, addressCurrent: string, addressPermanent: string,
    accountType: string, occupation: string, annualIncome: string, pep: bool,
    nomineeName: string, nomineeRelation: string, nomineeDob: string)

  function InitialForm(): KycForm {
    KycForm("", "", "", "", "", "", "", "", "", "savings", "", "below_2.5L", false, "", "", "")
  }

  /** The four form steps of `KYC_STEPS` (lib/constants.ts), and the review step after them. */
  const KycStepCount: int := 4
  const TotalSteps: int := KycStepCount + 1
  const NomineeStep: int := 4

  /** The errors `validateStep` records for a step, by field. */
  function StepErrors(f: KycForm, step: int): map<string, string> {
    if step == 1 then
      var e1 := if IsBlank(f.firstName) then map["first_name" := "First name is required"] else map[];
      var e2 := if IsBlank(f.lastName) then e1["last_name" := "Last name is required"] else e1;
      var e3 := if f.dob == "" then e2["dob" := "Date of birth is required"] else e2;
      var e4 := if IsBlank(f.pan) then e3["pan" := "PAN is required"]
                else if !MatchesPan(ToUpper(f.pan)) then e3["pan" := "Invalid PAN format (e.g., ABCDE1234F)"]
                else e3;
      if IsBlank(f.aadhaar) then e4["aadhaar" := "Aadhaar is required"]
      else if !ExactDigits(f.aadhaar, 12) then e4["aadhaar" := "Aadhaar must be 12 digits"]
      else e4
    else if step == 2 then
      var e1 := if IsBlank(f.mobile) then map["mobile" := "Mobile number is required"]
                else if !ExactDigits(f.mobile, 10) then map["mobile" := "Mobile must be 10 digits"]
                else map[];
      var e2 := if IsBlank(f.email) then e1["email" := "Email is required"]
                else if !MatchesEmail(f.email) then e1["email" := "Invalid email format"]
                else e1;
      if IsBlank(f.addressCurrent) then e2["address_current" := "Current address is required"] else e2
    else if step == 3 then
      if f.accountType == "" then map["account_type" := "Account type is required"] else map[]
    else if step == 4 then
      if !IsBlank(f.nomineeName) && f.nomineeRelation == "" then
        map["nominee_relation" := "Please select nominee relation if adding a nominee"]
      else map[]
    else map[]
  }

  /**
   * What each step demands, read off the rules: names not blank, a date of
   * birth, a PAN of the pattern once upper-cased and an Aadhaar of twelve
   * digits; ten digits of mobile, a well-formed email and a current address;
   * an account type; a relation for a named nominee. The review step demands
   * nothing.
   */
  predicate StepValid(f: KycForm, step: int) {
    if step == 1 then
      !IsBlank(f.firstName) && !IsBlank(f.lastName) && f.dob != "" && MatchesPan(ToUpper(f.pan))
      && ExactDigits(f.aadhaar, 12)
    else if step == 2 then
      ExactDigits(f.mobile, 10) && MatchesEmail(f.email) && !IsBlank(f.addressCurrent)
    else if step == 3 then
      f.accountType != ""
    else if step == 4 then
      IsBlank(f.nomineeName) || f.nomineeRelation != ""
    else true
  }

  /** A string with a character that is not white space is not blank. */
  lemma NotBlank(s: string, i: nat)
    requires i < |s| && !IsWhitespace(s[i])
    ensures !IsBlank(s)
  {
    BlankIffAllWhitespace(s);
  }

  /** A non-empty string of digits is not blank. */
  lemma DigitsNotBlank(s: string)
    requires s != [] && AllDigits(s)
    ensures !IsBlank(s)
  {
    assert IsDigit(s[0]);
    NotBlank(s, 0);
  }

  /** A string the PAN pattern accepts once upper-cased is not blank: its first character is a letter. */
  lemma PanNotBlank(pan: string)
    requires MatchesPan(ToUpper(pan))
    ensures !IsBlank(pan)
  {
    assert IsUpper(ToUpper(pan)[0]);
    NotBlank(pan, 0);
  }

  /** An address the email pattern accepts is not blank: it starts with a character of `[^\s@]`. */
  lemma EmailNotBlank(email: string)
    requires MatchesEmail(email)
    ensures !IsBlank(email)
  {
    var k :| 0 < k < |email| && email[k] == '@' && NoSpaceOrAt(email[..k]) && EmailDomain(email[k + 1..]);
    assert !IsWhitespace(email[..k][0]);
    NotBlank(email, 0);
  }

  /** `validateStep` succeeds exactly when the step's demands are met: no error is recorded then, and one is otherwise. */
  lemma ValidIffNoErrors(f: KycForm, step: int)
    ensures StepErrors(f, step) == map[] <==> StepValid(f, step)
  {
    if step == 1 {
      IdentityStepValidIffNoErrors(f);
    } else if step == 2 {
      ContactStepValidIffNoErrors(f);
    } else if step == 3 {
      if !StepValid(f, step) {
        assert "account_type" in StepErrors(f, step);
      }
    } else if step == 4 {
      if !StepValid(f, step) {
        assert "nominee_relation" in StepErrors(f, step);
      }
    }
  }

  /** The identity step: no error exactly when names, date of birth, PAN and Aadhaar are all acceptable. */
  lemma IdentityStepValidIffNoErrors(f: KycForm)
    ensures StepErrors(f, 1) == map[] <==> StepValid(f, 1)
  {
    if StepValid(f, 1) {
      IdentityStepRecordsNothing(f);
    } else {
      IdentityStepRecordsError(f);
    }
  }

  /** An identity step whose fields all meet their rules records no error. */
  lemma IdentityStepRecordsNothing(f: KycForm)
    requires StepValid(f, 1)
    ensures StepErrors(f, 1) == map[]
  {
    PanNotBlank(f.pan);
    DigitsNotBlank(f.aadhaar);
  }

  /** An identity step with a field that fails its rule records an error under the last such field. */
  lemma IdentityStepRecordsError(f: KycForm)
    requires !StepValid(f, 1)
    ensures StepErrors(f, 1) != map[]
  {
    var e := StepErrors(f, 1);
    if IsBlank(f.aadhaar) || !ExactDigits(f.aadhaar, 12) {
      assert "aadhaar" in e;
    } else if IsBlank(f.pan) || !MatchesPan(ToUpper(f.pan)) {
      assert "pan" in e;
    } else if f.dob == "" {
      assert "dob" in e;
    } else if IsBlank(f.lastName) {
      assert "last_name" in e;
    } else {
      assert "first_name" in e;
    }
  }

  /** The contact step: no error exactly when mobile, e-mail and current address are all acceptable. */
  lemma ContactStepValidIffNoErrors(f: KycForm)
    ensures StepErrors(f, 2) == map[] <==> StepValid(f, 2)
  {
    if ExactDigits(f.mobile, 10) {
      DigitsNotBlank(f.mobile);
    }
    if MatchesEmail(f.email) {
      EmailNotBlank(f.email);
    }
    if !StepValid(f, 2) {
      var e := StepErrors(f, 2);
      assert "mobile" in e || "email" in e || "address_current" in e;
    }
  }

  /** `canSkipStep`: only the nominee step may be skipped. */
  predicate CanSkip(step: int) {
    step == NomineeStep
  }

  /** Non-empty words without white space. */
  predicate IsWordList(ws: seq<string>) {
    forall i :: 0 <= i < |ws| ==> ws[i] != "" && forall j :: 0 <= j < |ws[i]| ==> !IsWhitespace(ws[i][j])
  }

  /** The first run of non-white-space characters of `s`, which must not start with white space. */
  function Word(s: string): (w: string)
    ensures w <= s && forall i :: 0 <= i < |w| ==> !IsWhitespace(w[i])
    ensures w == s || IsWhitespace(s[|w|])
  {
    if s == [] || IsWhitespace(s[0]) then [] else [s[0]] + Word(s[1..])
  }

  /** `s.trim().split(/\s+/)` for a non-blank `s`: its words; for a blank one, no word. */
  function Words(s: string): (ws: seq<string>)
    ensures IsWordList(ws)
    decreases |s|
  {
    var t := TrimStart(s);
    if t == [] then []
    else
      var w := Word(t);
      WordNotEmpty(t);
      var rest := Words(t[|w|..]);
      ConsWordList(w, rest);
      [w] + rest
  }

  lemma WordNotEmpty(t: string)
    requires t != [] && !IsWhitespace(t[0])
    ensures Word(t) != []
  {
  }

  lemma ConsWordList(w: string, rest: seq<string>)
    requires w != [] && (forall j :: 0 <= j < |w| ==> !IsWhitespace(w[j])) && IsWordList(rest)
    ensures IsWordList([w] + rest)
  {
    assert forall i :: 0 < i < |[w] + rest| ==> ([w] + rest)[i] == rest[i - 1];
  }

  /** `nameParts[0] || ''` and `nameParts.slice(1).join(' ') || ''`. */
  function SplitName(fullName: string): (r: (string, string)) {
    var parts := Words(fullName);
    if parts == [] then ("", "") else (parts[0], Join(parts[1..], " "))
  }

  lemma {:induction false} WordOfJoined(w: string, rest: string)
    requires forall j :: 0 <= j < |w| ==> !IsWhitespace(w[j])
    ensures Word(w + " " + rest) == w
    ensures Word(w) == w
  {
    if w != [] {
      assert (w + " " + rest)[1..] == w[1..] + " " + rest;
      WordOfJoined(w[1..], rest);
    } else {
      assert (w + " " + rest)[0] == ' ';
    }
  }

  /** Splitting words joined by single spaces gives the same words back. */
  lemma {:induction false} WordsOfJoined(ws: seq<string>)
    requires IsWordList(ws)
    ensures Words(Join(ws, " ")) == ws
    decreases |ws|
  {
    if ws == [] {
    } else if |ws| == 1 {
      WordOfJoined(ws[0], "");
      WordsOfWord(ws[0]);
    } else {
      var tail := ws[1..];
      assert IsWordList(tail) by {
        assert forall i :: 0 <= i < |tail| ==> tail[i] == ws[i + 1];
      }
      var rest := Join(tail, " ");
      assert Join(ws, " ") == ws[0] + " " + rest;
      WordsOfJoined(tail);
      JoinStartsWithWord(tail);
      assert !IsWhitespace(tail[0][0]);
      WordsOfCons(ws[0], rest);
    }
  }

  /** One word alone splits into itself. */
  lemma WordsOfWord(w: string)
    requires w != [] && forall j :: 0 <= j < |w| ==> !IsWhitespace(w[j])
    requires Word(w) == w
    ensures Words(w) == [w]
  {
    assert TrimStart(w) == w;
    assert w[|w|..] == [];
  }

  /** A word, a space and a text that starts with a word split into the word and the text's words. */
  lemma WordsOfCons(w: string, rest: string)
    requires w != [] && forall j :: 0 <= j < |w| ==> !IsWhitespace(w[j])
    requires rest != [] && !IsWhitespace(rest[0])
    ensures Words(w + " " + rest) == [w] + Words(rest)
  {
    var s := w + " " + rest;
    assert s[0] == w[0];
    assert s[|w|..] == " " + rest;
    WordOfJoined(w, rest);
    WordsAfterWord(s, w, rest);
  }

  /** A text that starts with the word `w` followed by one space and the text `tail` splits into `w` and the words of `tail`. */
  lemma WordsAfterWord(s: string, w: string, tail: string)
    requires s != [] && !IsWhitespace(s[0]) && Word(s) == w && s[|w|..] == " " + tail
    requires tail != [] && !IsWhitespace(tail[0])
    ensures Words(s) == [w] + Words(tail)
  {
    WordsOfUntrimmed(s);
    SpaceThenWords(tail);
  }

  /** A text that starts with a word splits into that word and the words after it. */
  lemma WordsOfUntrimmed(t: string)
    requires t != [] && !IsWhitespace(t[0])
    ensures Words(t) == [Word(t)] + Words(t[|Word(t)|..])
  {
    assert TrimStart(t) == t;
  }

  lemma SpaceThenWords(rest: string)
    requires rest != [] && !IsWhitespace(rest[0])
    ensures Words(" " + rest) == Words(rest)
  {
    assert (" " + rest)[1..] == rest;
    assert TrimStart(" " + rest) == TrimStart(rest);
    SameTrimSameWords(" " + rest, rest);
  }

  /** The words of a text depend only on what is left after its leading white space. */
  lemma SameTrimSameWords(a: string, b: string)
    requires TrimStart(a) == TrimStart(b)
    ensures Words(a) == Words(b)
  {
  }

  /** A join of words starts with the first word's first character. */
  lemma {:induction false} JoinStartsWithWord(ws: seq<string>)
    requires IsWordList(ws) && ws != []
    ensures Join(ws, " ") != [] && Join(ws, " ")[0] == ws[0][0]
  {
  }

  /** The name split of the full name `first rest…`: the first word, and the others joined by single spaces. */
  lemma SplitJoinedName(ws: seq<string>)
    requires IsWordList(ws) && ws != []
    ensures SplitName(Join(ws, " ")) == (ws[0], Join(ws[1..], " "))
  {
    WordsOfJoined(ws);
  }

  /** The parsed `registration_data` of the session storage, when there is one. */
  datatype Registration = Registration(firstName: Option<string>, lastName: Option<string>, email: Option<string>)

  /** The signed-in user: the account email and the metadata fields the wizard reads. */
  datatype SignedInUser = SignedInUser(email: Option<string>, firstName: Option<string>, lastName: Option<string>,
                                       fullName: Option<string>, metaEmail: Option<string>)

  /** `a || ''` for a nullable text. */
  function Text(o: Option<string>): (s: string)
    ensures MissingText(o) <==> s == ""
  {
    if o.Some? then o.value else ""
  }

  /**
   * The names and email the form starts with: the registration data first;
   * names from the metadata only when the registration gave neither, the
   * separate names before the full name; the email from the registration,
   * then the account, then the metadata.
   */
  function Prefill(reg: Option<Registration>, user: Option<SignedInUser>): (r: (string, string, string)) {
    var first := if reg.Some? then Text(reg.value.firstName) else "";
    var last := if reg.Some? then Text(reg.value.lastName) else "";
    var email := if reg.Some? then Text(reg.value.email) else "";
    if user.None? then (first, last, email)
    else
      var u := user.value;
      var names :=
        if first != "" || last != "" then (first, last)
        else if !MissingText(u.firstName) || !MissingText(u.lastName) then (Text(u.firstName), Text(u.lastName))
        else if !MissingText(u.fullName) then SplitName(u.fullName.value)
        else (first, last);
      var mail := if email != "" then email else if !MissingText(u.email) then u.email.value else Text(u.metaEmail);
      (names.0, names.1, mail)
  }

  /** Registration names win over every metadata name; a full name is only split when no separate name is set. */
  lemma PrefillPrecedence(reg: Option<Registration>, user: Option<SignedInUser>)
    ensures reg.Some? && (!MissingText(reg.value.firstName) || !MissingText(reg.value.lastName)) ==>
      Prefill(reg, user).0 == Text(reg.value.firstName) && Prefill(reg, user).1 == Text(reg.value.lastName)
    ensures (reg.None? || (MissingText(reg.value.firstName) && MissingText(reg.value.lastName))) && user.Some?
            && MissingText(user.value.firstName) && MissingText(user.value.lastName) && !MissingText(user.value.fullName) ==>
      (Prefill(reg, user).0, Prefill(reg, user).1) == SplitName(user.value.fullName.value)
    ensures reg.Some? && !MissingText(reg.value.email) ==> Prefill(reg, user).2 == reg.value.email.value
  {
  }

  /** The wizard's state: the current step, the form, and the errors of the last check. */
  class Wizard {
    var currentStep: int
    var form: KycForm
    var stepErrors: map<string, string>

    /** The step stays between the first and the review step. */
    predicate Valid()
      reads this
    {
      1 <= currentStep <= TotalSteps
    }

    constructor ()
      ensures Valid() && currentStep == 1 && form == InitialForm() && stepErrors == map[]
    {
      currentStep := 1;
      form := InitialForm();
      stepErrors := map[];
    }

    /** The mount effect: the names and email filled in, the rest of the form kept. */
    method Load(reg: Option<Registration>, user: Option<SignedInUser>)
      modifies this`form
      ensures var p := Prefill(reg, user);
        form == old(form).(firstName := p.0, lastName := p.1, email := p.2)
    {
      var p := Prefill(reg, user);
      form := form.(firstName := p.0, lastName := p.1, email := p.2);
    }

    /** `updateFormData`: the merged form replaces the old one and the errors are cleared. */
    method UpdateFormData(merged: KycForm)
      modifies this`form, this`stepErrors
      ensures form == merged && stepErrors == map[]
    {
      form := merged;
      stepErrors := map[];
    }

    /** `validateStep`: records the step's errors and reports whether there are none. */
    method ValidateStep(step: int) returns (ok: bool)
      modifies this`stepErrors
      ensures stepErrors == StepErrors(form, step)
      ensures ok <==> StepValid(form, step)
    {
      stepErrors := StepErrors(form, step);
      ValidIffNoErrors(form, step);
      ok := stepErrors == map[];
    }

    /** `handleNext`: a step whose check passes advances, but never past the review step. */
    method Next()
      requires Valid()
      modifies this`currentStep, this`stepErrors
      ensures Valid()
      ensures stepErrors == StepErrors(form, old(currentStep))
      ensures StepValid(form, old(currentStep)) ==>
        currentStep == if old(currentStep) + 1 < TotalSteps then old(currentStep) + 1 else TotalSteps
      ensures !StepValid(form, old(currentStep)) ==> currentStep == old(currentStep)
    {
      var ok := ValidateStep(currentStep);
      if ok {
        currentStep := if currentStep + 1 < TotalSteps then currentStep + 1 else TotalSteps;
      }
    }

    /** `handleBack`: one step back, never before the first. */
    method Back()
      requires Valid()
      modifies this`currentStep
      ensures Valid()
      ensures currentStep == if old(currentStep) - 1 > 1 then old(currentStep) - 1 else 1
    {
      currentStep := if currentStep - 1 > 1 then currentStep - 1 else 1;
    }

    /**
     * `handleSkip`: on the nominee step the three nominee fields are cleared
     * first; from any step the wizard advances without a check.
     */
    method Skip()
      requires Valid()
      modifies this`currentStep, this`form, this`stepErrors
      ensures Valid()
      ensures currentStep == if old(currentStep) + 1 < TotalSteps then old(currentStep) + 1 else TotalSteps
      ensures old(currentStep) == NomineeStep ==>
        form == old(form).(nomineeName := "", nomineeRelation := "", nomineeDob := "") && stepErrors == map[]
      ensures old(currentStep) != NomineeStep ==> form == old(form) && stepErrors == old(stepErrors)
    {
      if currentStep == NomineeStep {
        UpdateFormData(form.(nomineeName := "", nomineeRelation := "", nomineeDob := ""));
      }
      currentStep := if currentStep + 1 < TotalSteps then currentStep + 1 else TotalSteps;
    }
  }

  /** A skipped nominee step passes its own check: with no nominee name, no relation is needed. */
  lemma SkippedNomineePasses(f: KycForm)
    ensures StepValid(f.(nomineeName := "", nomineeRelation := "", nomineeDob := ""), NomineeStep)
    ensures StepErrors(f.(nomineeName := "", nomineeRelation := "", nomineeDob := ""), NomineeStep) == map[]
  {
    ValidIffNoErrors(f.(nomineeName := "", nomineeRelation := "", nomineeDob := ""), NomineeStep);
  }

  /** The initial form fails the first step: its names are empty. */
  lemma InitialFormFailsFirstStep()
    ensures !StepValid(InitialForm(), 1)
    ensures "first_name" in StepErrors(InitialForm(), 1)
  {
  }
}
