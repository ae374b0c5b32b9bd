/**
 * The records of the maker-checker system (lib/types.ts) and the closed
 * enumerations it uses, each with the wire name the database stores.
 */
module Types {
  import opened Wrappers

  /** `UserRole`: only these three; "superadmin", which profiles may hold, is not one of them. */
  datatype UserRole = Maker | Checker | Admin

  function RoleName(r: UserRole): string {
    match r
    case Maker => "maker"
    case Checker => "checker"
    case Admin => "admin"
  }

  function ParseRole(s: string): (r: Option<UserRole>)
    ensures r.Some? ==> RoleName(r.value) == s
  {
    if s == "maker" then Some(Maker)
    else if s == "checker" then Some(Checker)
    else if s == "admin" then Some(Admin)
    else None
  }

  lemma RoleNamesRoundTrip(r: UserRole)
    ensures ParseRole(RoleName(r)) == Some(r)
  {
  }

  lemma SuperadminIsNotAUserRole()
    ensures ParseRole("superadmin") == None
  {
  }

  datatype TransactionType = FundTransfer | PaymentApproval | AccountChange | LoanApproval

  /** `TransactionStatus`: four states. */
  datatype TransactionStatus = Pending | Approved | Rejected | Flagged

  function StatusName(s: TransactionStatus): string {
    match s
    case Pending => "pending"
    case Approved => "approved"
    case Rejected => "rejected"
    case Flagged => "flagged"
  }

  function ParseStatus(s: string): (r: Option<TransactionStatus>)
    ensures r.Some? ==> StatusName(r.value) == s
  {
    if s == "pending" then Some(Pending)
    else if s == "approved" then Some(Approved)
    else if s == "rejected" then Some(Rejected)
    else if s == "flagged" then Some(Flagged)
    else None
  }

  lemma StatusNamesRoundTrip(s: TransactionStatus)
    ensures ParseStatus(StatusName(s)) == Some(s)
  {
  }

  /** `SeverityLevel`: four levels. */
  datatype Severity = Low | Medium | High | Critical

  function SeverityName(s: Severity): string {
    match s
    case Low => "low"
    case Medium => "medium"
    case High => "high"
    case Critical => "critical"
  }

  /** `KycStatus`: four states, including under_review. */
  datatype KycStatus = KycPending | KycApproved | KycRejected | UnderReview

  function KycStatusName(s: KycStatus): string {
    match s
    case KycPending => "pending"
    case KycApproved => "approved"
    case KycRejected => "rejected"
    case UnderReview => "under_review"
  }

  function ParseKycStatus(s: string): (r: Option<KycStatus>)
    ensures r.Some? ==> KycStatusName(r.value) == s
  {
    if s == "pending" then Some(KycPending)
    else if s == "approved" then Some(KycApproved)
    else if s == "rejected" then Some(KycRejected)
    else if s == "under_review" then Some(UnderReview)
    else None
  }

  lemma KycStatusNamesRoundTrip(s: KycStatus)
    ensures ParseKycStatus(KycStatusName(s)) == Some(s)
  {
  }

  /**
   * A JSON value as the routes receive it in a request body and as the audit
   * trail stores it in a snapshot: a string, a boolean or null. An absent key
   * (`undefined`) is a key missing from the Record.
   */
  datatype Value = Str(s: string) | Bool(b: bool) | Null

  type Record = map<string, Value>

  /** `body[key]`: the value under the key, or None for `undefined`. */
  function Lookup(r: Record, key: string): Option<Value> {
    if key in r then Some(r[key]) else None
  }

  /** JavaScript falsiness of a body field: undefined, null, false and "". */
  predicate Falsy(v: Option<Value>) {
    v.None? || v.value.Null? || v.value == Bool(false) || v.value == Str("")
  }

  /** JavaScript falsiness of a field that holds a string when it is present: undefined, null or "". */
  predicate MissingText(o: Option<string>) {
    o.None? || o.value == ""
  }

  /** An optional string as a JSON value: null when absent. */
  function OrNull(s: Option<string>): Value {
    if s.Some? then Str(s.value) else Null
  }

  /**
   * `Transaction`; the amount is a JavaScript number, taken as an exact
   * real, and timestamps are milliseconds since the epoch.
   */
  datatype Transaction = Transaction(
    id: string,
    transactionType: TransactionType,
    amount: real,
    currency: string,
    sourceAccount: string,
    destinationAccount: string,
    description: Option<string>,
    status: TransactionStatus,
    createdBy: string,
    checkedBy: Option<string>,
    createdAt: int,
    updatedAt: int,
    checkerNotes: Option<string>)

  /** `PolicyRule`: the rule type is a free string and the threshold a nullable number. */
  datatype PolicyRule = PolicyRule(
    id: string,
    ruleName: string,
    ruleType: string,
    thresholdValue: Option<real>,
    isActive: bool,
    description: Option<string>)

  /** `PolicyViolation` as it is inserted; its id and creation time are assigned by the database. */
  datatype PolicyViolation = PolicyViolation(
    transactionId: string,
    ruleId: string,
    violationDetails: string,
    severity: Severity)

  /** `BlacklistEntry`. */
  datatype BlacklistEntry = BlacklistEntry(
    id: string,
    accountNumber: string,
    entityName: Option<string>,
    reason: Option<string>,
    isActive: bool,
    createdAt: string,
    createdBy: string)

  /** The entry as a JSON record, as the audit trail stores it. */
  function EntryRecord(e: BlacklistEntry): (r: Record)
    ensures r.Keys == {"id", "account_number", "entity_name", "reason", "is_active", "created_at", "created_by"}
    ensures r["is_active"] == Bool(e.isActive) && r["account_number"] == Str(e.accountNumber)
  {
    map["id" := Str(e.id), "account_number" := Str(e.accountNumber),
        "entity_name" := OrNull(e.entityName), "reason" := OrNull(e.reason),
        "is_active" := Bool(e.isActive), "created_at" := Str(e.createdAt),
        "created_by" := Str(e.createdBy)]
  }

  /** `AuditLog` as it is inserted; its id and creation time are assigned by the database. */
  datatype AuditLog = AuditLog(
    userId: string,
    action: string,
    entityType: string,
    entityId: string,
    oldValues: Option<Record>,
    newValues: Option<Record>,
    ipAddress: Option<string>)

  /** A row of the profiles table; `role` holds the stored text, which may be "superadmin". */
  datatype Profile = Profile(
    id: string,
    email: string,
    fullName: Option<string>,
    role: string,
    kycCompleted: bool,
    mfaEnabled: bool)

  /**
   * `KycApplication`. The applicant's data columns (first_name … nominee_dob,
   * including dob, pan and aadhaar) are kept by column name, because the
   * update route and the update form compare and copy them by name.
   */
  datatype KycApplication = KycApplication(
    id: string,
    applicationId: string,
    userId: string,
    columns: Record,
    kycStatus: KycStatus,
    checkerId: Option<string>,
    checkerNotes: Option<Value>,
    reviewedAt: Option<int>)
}
