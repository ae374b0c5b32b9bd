/**
 * The outgoing mail of lib/email.ts: the credentials mail sent to new staff,
 * the registration and MFA code mail, the results both report, and the
 * generator of temporary passwords. The mail provider is an oracle; the
 * HTML and text bodies are not modelled.
 */
module Email {
  import opened Wrappers
  import opened Strings

  const DefaultFrom: string := "noreply@securecontrol.dev"

  /** The sender address: the configured one when it is set and non-empty, else the default. */
  function FromAddress(configured: Option<string>): (r: string)
    ensures configured.Some? && configured.value != "" ==> r == configured.value
    ensures configured.None? || configured.value == "" ==> r == DefaultFrom
  {
    if configured.Some? && configured.value != "" then configured.value else DefaultFrom
  }

  /**
   * `role.charAt(0).toUpperCase() + role.slice(1)`: the role with its first
   * character in upper case (ASCII case mapping).
   */
  function RoleLabel(role: string): (r: string)
    ensures |r| == |role|
    ensures role != "" ==> r[0] == UpperChar(role[0]) && r[1..] == role[1..]
  {
    if role == "" then "" else [UpperChar(role[0])] + role[1..]
  }

  /** For a role written in lower case, as the stored roles are, lower-casing its label gives the role back. */
  lemma RoleLabelRoundTrip(role: string)
    requires forall i :: 0 <= i < |role| ==> !IsUpper(role[i])
    ensures ToLower(RoleLabel(role)) == role
  {
    var r := RoleLabel(role);
    var low := ToLower(r);
    forall i | 0 <= i < |role|
      ensures low[i] == role[i]
    {
      if i == 0 {
        assert r[0] == UpperChar(role[0]);
      } else {
        assert r[i] == r[1..][i - 1] == role[i];
      }
    }
  }

  function CredentialsSubject(role: string): string {
    "Welcome to SecureControl — Your " + RoleLabel(role) + " Account"
  }

  function OtpSubject(otp: string): (s: string)
    ensures |s| > |otp| && s[..|otp|] == otp
  {
    otp + " - Your SecureControl Verification Code"
  }

  /** The parameters of `sendOTPEmail`. */
  datatype OtpEmail = OtpEmail(to: string, firstName: string, otp: string, expiresInMinutes: int)

  /** The parameters of `sendCredentialsEmail`. */
  datatype CredentialsEmail = CredentialsEmail(to: string, fullName: string, role: string,
                                               temporaryPassword: string, loginUrl: string)

  /** What the provider does with a send: accepts it (with an optional id), answers with an error, or throws. */
  datatype ProviderOutcome = Accepted(id: Option<string>) | ProviderError(message: string) | Threw

  datatype SendResult = SendResult(success: bool, messageId: Option<string>, error: Option<string>)

  const CredentialsFailure: string := "Failed to send email"
  const OtpFailure: string := "Failed to send OTP email"

  /**
   * The result of a send: success with the message id when the provider
   * accepts it, otherwise failure with the provider's message, or with
   * `fallback` when the call throws.
   */
  function Result(o: ProviderOutcome, fallback: string): (r: SendResult)
    ensures r.success <==> o.Accepted?
    ensures r.success ==> r.error.None? && r.messageId == o.id
    ensures o.ProviderError? ==> r.error == Some(o.message) && r.messageId.None?
    ensures o.Threw? ==> r.error == Some(fallback) && r.messageId.None?
  {
    match o
    case Accepted(id) => SendResult(true, id, None)
    case ProviderError(m) => SendResult(false, None, Some(m))
    case Threw => SendResult(false, None, Some(fallback))
  }

  /** `sendCredentialsEmail`: the subject it sends under and its result. */
  function SendCredentials(e: CredentialsEmail, o: ProviderOutcome): (r: (string, SendResult))
    ensures r.1.success <==> o.Accepted?
    ensures o.Threw? ==> r.1.error == Some(CredentialsFailure)
  {
    (CredentialsSubject(e.role), Result(o, CredentialsFailure))
  }

  /** `sendOTPEmail`: the subject, which starts with the code, and its result. */
  function SendOtp(e: OtpEmail, o: ProviderOutcome): (r: (string, SendResult))
    ensures |r.0| > |e.otp| && r.0[..|e.otp|] == e.otp
    ensures r.1.success <==> o.Accepted?
    ensures o.Threw? ==> r.1.error == Some(OtpFailure)
  {
    (OtpSubject(e.otp), Result(o, OtpFailure))
  }

  const DefaultPasswordLength: int := 12

  /** The four character classes of a temporary password. */
  function Upper(): (s: string)
    ensures |s| == 26 && forall i :: 0 <= i < |s| ==> IsUpper(s[i])
  {
    "ABCDEFGHIJKLMNOPQRSTUVWXYZ"
  }

  function Lower(): (s: string)
    ensures |s| == 26 && forall i :: 0 <= i < |s| ==> IsLower(s[i])
  {
    "abcdefghijklmnopqrstuvwxyz"
  }

  function Digits(): (s: string)
    ensures |s| == 10 && forall i :: 0 <= i < |s| ==> IsDigit(s[i])
  {
    "0123456789"
  }

  predicate IsSpecial(c: char) {
    c == '!' || c == '@' || c == '#' || c == '$' || c == '%' || c == '&' || c == '*'
  }

  function Special(): (s: string)
    ensures |s| == 7 && forall i :: 0 <= i < |s| ==> IsSpecial(s[i])
  {
    "!@#$%&*"
  }

  predicate InAlphabet(c: char) {
    IsUpper(c) || IsLower(c) || IsDigit(c) || IsSpecial(c)
  }

  /** All four classes, in this order. */
  function Alphabet(): (s: string)
    ensures |s| == 69 && forall i :: 0 <= i < |s| ==> InAlphabet(s[i])
  {
    var s := Upper() + Lower() + Digits() + Special();
    assert forall i :: 0 <= i < 26 ==> s[i] == Upper()[i];
    assert forall i :: 26 <= i < 52 ==> s[i] == Lower()[i - 26];
    assert forall i :: 52 <= i < 62 ==> s[i] == Digits()[i - 52];
    assert forall i :: 62 <= i < 69 ==> s[i] == Special()[i - 62];
    s
  }

  /** `chars[Math.floor(r * chars.length)]` for a draw `r` of `Math.random()`. */
  function Pick(chars: string, r: real): (c: char)
    requires chars != [] && 0.0 <= r < 1.0
    ensures exists j :: 0 <= j < |chars| && c == chars[j]
  {
    var n := |chars| as real;
    assert 0.0 <= r * n < n by {
      assert r * n <= 1.0 * n;
      assert r * n != n;
    }
    chars[(r * n).Floor]
  }

  /** The length of a generated password: at least the four mandatory characters. */
  function PasswordLength(length: int): nat {
    if length < 4 then 4 else length
  }

  /** The characters drawn before the shuffle: one of each class, then the rest from the whole alphabet. */
  function Drawn(draws: seq<real>): (s: string)
    requires |draws| >= 4 && forall i :: 0 <= i < |draws| ==> 0.0 <= draws[i] < 1.0
    ensures |s| == |draws|
  {
    [Pick(Upper(), draws[0]), Pick(Lower(), draws[1]), Pick(Digits(), draws[2]), Pick(Special(), draws[3])]
      + seq(|draws| - 4, i requires 0 <= i < |draws| - 4 => Pick(Alphabet(), draws[4 + i]))
  }

  predicate HasWhere(s: string, p: char -> bool) {
    exists i :: 0 <= i < |s| && p(s[i])
  }

  /** The drawing loop: one character of each class, then characters of the whole alphabet up to the length. */
  method DrawCharacters(length: int, draws: seq<real>) returns (password: string)
    requires |draws| == PasswordLength(length)
    requires forall i :: 0 <= i < |draws| ==> 0.0 <= draws[i] < 1.0
    ensures password == Drawn(draws)
  {
    var drawn := Drawn(draws);
    password := "";
    password := password + [Pick(Upper(), draws[0])];
    password := password + [Pick(Lower(), draws[1])];
    password := password + [Pick(Digits(), draws[2])];
    password := password + [Pick(Special(), draws[3])];
    assert password == drawn[..4];
    var i := |password|;
    while i < length
      invariant 4 <= i <= PasswordLength(length) && |password| == i
      invariant password == drawn[..i]
    {
      password := password + [Pick(Alphabet(), draws[i])];
      i := i + 1;
    }
    assert password == drawn;
  }

  /**
   * `generateTemporaryPassword(length)`. `draws` are the successive values
   * of `Math.random()` the drawing loop takes; the shuffle is `Shuffle`.
   */
  method GenerateTemporaryPassword(length: int, draws: seq<real>, swaps: seq<(nat, nat)>)
    returns (password: string)
    requires |draws| == PasswordLength(length)
    requires forall i :: 0 <= i < |draws| ==> 0.0 <= draws[i] < 1.0
    ensures |password| == PasswordLength(length)
    ensures multiset(password) == multiset(Drawn(draws))
    ensures forall i :: 0 <= i < |password| ==> InAlphabet(password[i])
    ensures HasWhere(password, IsUpper) && HasWhere(password, IsLower)
    ensures HasWhere(password, IsDigit) && HasWhere(password, IsSpecial)
  {
    var drawn := DrawCharacters(length, draws);
    var a := new char[|drawn|](k => if 0 <= k < |drawn| then drawn[k] else 'A');
    assert a[..] == drawn;
    Shuffle(a, swaps);
    password := a[..];
    DrawnClasses(draws);
    ClassesSurvive(drawn, password);
  }

  /**
   * `.sort(() => Math.random() - 0.5)`: a sort whose comparator is random,
   * given as the sequence of swaps it performs, each index taken modulo the
   * length. Whatever the swaps, the characters are only permuted.
   */
  method Shuffle(a: array<char>, swaps: seq<(nat, nat)>)
    modifies a
    ensures multiset(a[..]) == multiset(old(a[..]))
  {
    if a.Length == 0 {
      return;
    }
    var k := 0;
    while k < |swaps|
      invariant 0 <= k <= |swaps|
      invariant multiset(a[..]) == multiset(old(a[..]))
    {
      var x, y := swaps[k].0 % a.Length, swaps[k].1 % a.Length;
      a[x], a[y] := a[y], a[x];
      k := k + 1;
    }
  }

  /** Every drawn character is from the alphabet, and one of each class is among them. */
  lemma DrawnClasses(draws: seq<real>)
    requires |draws| >= 4 && forall i :: 0 <= i < |draws| ==> 0.0 <= draws[i] < 1.0
    ensures forall i :: 0 <= i < |draws| ==> InAlphabet(Drawn(draws)[i])
    ensures IsUpper(Drawn(draws)[0]) && IsLower(Drawn(draws)[1])
    ensures IsDigit(Drawn(draws)[2]) && IsSpecial(Drawn(draws)[3])
  {
    var d := Drawn(draws);
    forall i | 0 <= i < |draws|
      ensures InAlphabet(d[i])
    {
      if i >= 4 {
        assert d[i] == Pick(Alphabet(), draws[i]);
      }
    }
  }

  /** A permutation of the drawn characters keeps the alphabet and the four classes. */
  lemma ClassesSurvive(drawn: string, p: string)
    requires |drawn| >= 4
    requires forall i :: 0 <= i < |drawn| ==> InAlphabet(drawn[i])
    requires IsUpper(drawn[0]) && IsLower(drawn[1]) && IsDigit(drawn[2]) && IsSpecial(drawn[3])
    requires multiset(p) == multiset(drawn)
    ensures forall i :: 0 <= i < |p| ==> InAlphabet(p[i])
    ensures HasWhere(p, IsUpper) && HasWhere(p, IsLower) && HasWhere(p, IsDigit) && HasWhere(p, IsSpecial)
  {
    forall i | 0 <= i < |p|
      ensures InAlphabet(p[i])
    {
      assert p[i] in multiset(drawn);
    }
    assert drawn[0] in multiset(p) && drawn[1] in multiset(p);
    assert drawn[2] in multiset(p) && drawn[3] in multiset(p);
    var i0 :| 0 <= i0 < |p| && p[i0] == drawn[0];
    var i1 :| 0 <= i1 < |p| && p[i1] == drawn[1];
    var i2 :| 0 <= i2 < |p| && p[i2] == drawn[2];
    var i3 :| 0 <= i3 < |p| && p[i3] == drawn[3];
  }
}
