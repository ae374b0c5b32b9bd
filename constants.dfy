/**
 * The constant tables of lib/constants.ts that the core reads: severity
 * scores, business hours, the duplicate window, the policy rule types and
 * the audit action vocabulary.
 */
module Constants {
  import opened Wrappers
  import opened Types

  /** Position of a severity in the order low < medium < high < critical. */
  function SeverityRank(s: Severity): nat {
    match s
    case Low => 0
    case Medium => 1
    case High => 2
    case Critical => 3
  }

  /** `SEVERITY_SCORES`: critical 40, high 25, medium 15, low 5. */
  function SeverityScore(s: Severity): (n: nat)
    ensures 5 <= n <= 40
    ensures s == Critical <==> n == 40
    ensures s == Low <==> n == 5
  {
    match s
    case Critical => 40
    case High => 25
    case Medium => 15
    case Low => 5
  }

  /** A higher severity always scores strictly more. */
  lemma SeverityScoreStrictlyIncreasing(a: Severity, b: Severity)
    ensures SeverityRank(a) < SeverityRank(b) <==> SeverityScore(a) < SeverityScore(b)
  {
  }

  /** `BUSINESS_HOURS`. */
  const StartHour: int := 9
  const EndHour: int := 18
  const WorkingDays: set<int> := {1, 2, 3, 4, 5}

  lemma BusinessHoursShape()
    ensures StartHour < EndHour
    ensures forall d :: d in WorkingDays <==> 1 <= d <= 5
  {
  }

  /** `DUPLICATE_DETECTION_WINDOW_HOURS`, and the window in milliseconds as the duplicate check computes it. */
  const DuplicateWindowHours: int := 24

  function DuplicateWindowMs(): (ms: int)
    ensures ms == 86400000
  {
    DuplicateWindowHours * 60 * 60 * 1000
  }

  /** `POLICY_RULE_TYPES`: the four rule types the analyser knows. */
  datatype RuleKind = AmountThreshold | DuplicateDetection | BlacklistCheck | TimeBased

  function RuleKindName(k: RuleKind): string {
    match k
    case AmountThreshold => "amount_threshold"
    case DuplicateDetection => "duplicate_detection"
    case BlacklistCheck => "blacklist_check"
    case TimeBased => "time_based"
  }

  /** The `switch (rule.rule_type)` of the analyser: a free string, of which only four are known. */
  function ParseRuleKind(s: string): (k: Option<RuleKind>)
    ensures k.Some? ==> RuleKindName(k.value) == s
  {
    if s == "amount_threshold" then Some(AmountThreshold)
    else if s == "duplicate_detection" then Some(DuplicateDetection)
    else if s == "blacklist_check" then Some(BlacklistCheck)
    else if s == "time_based" then Some(TimeBased)
    else None
  }

  lemma RuleKindsExactly(s: string)
    ensures ParseRuleKind(s).Some? <==> s in {"amount_threshold", "duplicate_detection", "blacklist_check", "time_based"}
  {
  }

  lemma RuleKindNamesRoundTrip(k: RuleKind)
    ensures ParseRuleKind(RuleKindName(k)) == Some(k)
  {
  }

  /** `TRANSACTION_STATUS`: exactly four names. */
  lemma TransactionStatusesExactly(s: string)
    ensures ParseStatus(s).Some? <==> s in {"pending", "approved", "rejected", "flagged"}
  {
  }

  /** `KYC_STATUS`: exactly four names, including under_review. */
  lemma KycStatusesExactly(s: string)
    ensures ParseKycStatus(s).Some? <==> s in {"pending", "approved", "rejected", "under_review"}
  {
  }

  /** `AUDIT_ACTIONS`. */
  const TransactionCreated: string := "TRANSACTION_CREATED"
  const TransactionApproved: string := "TRANSACTION_APPROVED"
  const TransactionRejected: string := "TRANSACTION_REJECTED"
  const BlacklistAdded: string := "BLACKLIST_ADDED"
  const BlacklistRemoved: string := "BLACKLIST_REMOVED"
  const PolicyUpdated: string := "POLICY_UPDATED"
  const UserLogin: string := "USER_LOGIN"
  const UserLogout: string := "USER_LOGOUT"

  function AuditActions(): (acts: set<string>)
    ensures |acts| == 8
    ensures TransactionApproved in acts && TransactionRejected in acts && TransactionCreated in acts
    ensures BlacklistAdded in acts && BlacklistRemoved in acts && PolicyUpdated in acts
  {
    {TransactionCreated, TransactionApproved, TransactionRejected, BlacklistAdded,
     BlacklistRemoved, PolicyUpdated, UserLogin, UserLogout}
  }
}
