/**
 * The user metadata of the authentication service, as the two MFA routes
 * read and write it: a JSON object of loosely typed values, replaced as a
 * whole by `updateUserById` with `{ ...old, key: value, ... }`.
 */
module UserMetadata {
  import opened Wrappers
  import opened Strings
  import opened JsNumber

  /** A metadata value: the JSON scalars the routes meet. */
  datatype Meta = MText(text: string) | MNum(num: int) | MBool(flag: bool) | MNull

  type Fields = map<string, Meta>

  /** `metadata?.[key]`: None for `undefined`. */
  function Get(m: Fields, key: string): Option<Meta> {
    if key in m then Some(m[key]) else None
  }

  /** JavaScript truthiness of a metadata value; `undefined` is falsy. */
  predicate Truthy(v: Option<Meta>) {
    v.Some? &&
    match v.value
    case MText(s) => s != ""
    case MNum(n) => n != 0
    case MBool(b) => b
    case MNull => false
  }

  /** `{ ...base, ...updates }`: every key of both, the updates winning. */
  function Merge(base: Fields, updates: Fields): (r: Fields)
    ensures r.Keys == base.Keys + updates.Keys
    ensures forall k :: k in updates ==> r[k] == updates[k]
    ensures forall k :: k in base && k !in updates ==> r[k] == base[k]
  {
    base + updates
  }

  /**
   * `now > expiry` in JavaScript: a number compares as itself, a boolean as
   * 0 or 1, null as 0, and a string as ECMAScript's StringToNumber reads it
   * (signs, fractions, exponents and `0x` literals included; NaN, which no
   * comparison passes, for a text that is no numeric literal).
   */
  predicate Passed(now: int, expiry: Meta) {
    match expiry
    case MNum(n) => now > n
    case MBool(b) => now > (if b then 1 else 0)
    case MNull => now > 0
    case MText(s) => Exceeds(now, StringToNumber(s))
  }

  /** An expiry stored as the decimal text of a number expires exactly when the number would. */
  lemma TextExpiryAsNumber(n: int, now: int)
    ensures Passed(now, MText(IntToString(n))) <==> Passed(now, MNum(n))
  {
    IntTextRoundTrip(n, now);
  }

  /** Signed, scaled and padded texts expire by their numeric value; a word never expires. */
  lemma TextExpiries(now: int)
    ensures Passed(now, MText("-5")) <==> now > -5
    ensures Passed(now, MText("1e3")) <==> now > 1000
    ensures Passed(now, MText(" 5")) <==> now > 5
    ensures Passed(now, MText("1.5")) <==> now >= 2
    ensures !Passed(now, MText("soon"))
  {
    NegativeText(now);
    ExponentText(now);
    PaddedText(now);
    FractionText(now);
    WordText(now);
  }

  /** `fullName?.split(' ')[0] || 'User'` for a nullable text: the first word, or "User" when there is none. */
  function Greeting(fullName: Option<string>): (g: string)
    ensures g != ""
    ensures fullName.Some? && fullName.value != "" && fullName.value[0] != ' ' ==> g == FirstWord(fullName.value)
  {
    if fullName.None? then "User"
    else
      var w := FirstWord(fullName.value);
      if w == "" then "User" else w
  }

  /**
   * The same for a metadata value: None when the value is neither a string
   * nor nullish, as `split` is then not a function and the route throws.
   */
  function MetaGreeting(fullName: Option<Meta>): (g: Option<string>)
    ensures g.None? <==> fullName.Some? && !fullName.value.MText? && !fullName.value.MNull?
    ensures g.Some? ==> g.value != ""
  {
    if fullName.None? || fullName.value.MNull? then Some("User")
    else if fullName.value.MText? then Some(Greeting(Some(fullName.value.text)))
    else None
  }

  /** Why a submitted code is refused. */
  datatype CodeFailure = NoCode | Expired | WrongCode

  /**
   * The checks both MFA routes make of a submitted code against the code
   * and expiry stored under `codeKey` and `expiryKey`, in their order: both
   * stored and truthy, not expired, strictly equal. None when it passes.
   */
  function CheckCode(m: Fields, codeKey: string, expiryKey: string, submitted: Meta, now: int): (r: Option<CodeFailure>)
    ensures r.None? <==>
      Truthy(Get(m, codeKey)) && Truthy(Get(m, expiryKey)) && !Passed(now, m[expiryKey]) && m[codeKey] == submitted
  {
    if !Truthy(Get(m, codeKey)) || !Truthy(Get(m, expiryKey)) then Some(NoCode)
    else if Passed(now, m[expiryKey]) then Some(Expired)
    else if submitted != m[codeKey] then Some(WrongCode)
    else None
  }

  /** The values a route stores when it issues a code. */
  function Issue(codeKey: string, expiryKey: string, code: string, expiresAt: int): Fields {
    map[codeKey := MText(code), expiryKey := MNum(expiresAt)]
  }

  /** The values a route stores when it consumes or withdraws a code. */
  function Withdraw(codeKey: string, expiryKey: string): Fields {
    map[codeKey := MNull, expiryKey := MNull]
  }

  /** A code just issued is accepted until its expiry, inclusive, and refused as expired after it. */
  lemma IssuedCodeAccepted(m: Fields, codeKey: string, expiryKey: string, code: string, expiresAt: int, now: int)
    requires codeKey != expiryKey && code != "" && expiresAt != 0
    ensures now <= expiresAt ==>
      CheckCode(Merge(m, Issue(codeKey, expiryKey, code, expiresAt)), codeKey, expiryKey, MText(code), now).None?
    ensures now > expiresAt ==>
      CheckCode(Merge(m, Issue(codeKey, expiryKey, code, expiresAt)), codeKey, expiryKey, MText(code), now) == Some(Expired)
  {
    var m' := Merge(m, Issue(codeKey, expiryKey, code, expiresAt));
    assert m'[codeKey] == MText(code) && m'[expiryKey] == MNum(expiresAt);
  }

  /** Once withdrawn, no code is accepted: every submission finds no code. */
  lemma WithdrawnCodeRefused(m: Fields, codeKey: string, expiryKey: string, submitted: Meta, now: int)
    requires codeKey != expiryKey
    ensures CheckCode(Merge(m, Withdraw(codeKey, expiryKey)), codeKey, expiryKey, submitted, now) == Some(NoCode)
  {
    assert Merge(m, Withdraw(codeKey, expiryKey))[codeKey] == MNull;
  }

  /** A user of the authentication service. */
  class AuthUser {
    const id: string
    const email: string
    var metadata: Fields

    constructor (id: string, email: string, metadata: Fields)
      ensures this.id == id && this.email == email && this.metadata == metadata
    {
      this.id := id;
      this.email := email;
      this.metadata := metadata;
    }

    /** `updateUserById(id, { user_metadata: { ...metadata, ...updates } })`; `ok` is whether the service accepts it. */
    method Update(updates: Fields, ok: bool)
      modifies this
      ensures metadata == if ok then Merge(old(metadata), updates) else old(metadata)
    {
      if ok {
        metadata := Merge(metadata, updates);
      }
    }
  }

  /** A merge changes the keys it names and keeps every other one. */
  lemma MergeKeepsOthers(base: Fields, updates: Fields, k: string)
    requires k !in updates
    ensures Get(Merge(base, updates), k) == Get(base, k)
  {
  }
}
