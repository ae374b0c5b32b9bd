/**
 * The risk-analysis engine of lib/policy-analyzer.ts: each active policy
 * rule is checked against a transaction, every rule that fires contributes
 * one violation and its severity's score, the score is capped at 100, and a
 * fixed list of recommendations follows from the violations.
 *
 * The database reads of the duplicate and blacklist checks are selections
 * over the tables in a `Context`; the clock ("now"), the local hour and
 * weekday of the transaction's creation time, and the currency and date
 * formatting are inputs too.
 */
module PolicyAnalyzer {
  import opened Wrappers
  import opened Types
  import opened Strings
  import opened Constants
  import opened Store

  /** `formatCurrency` and `Date.toLocaleString`, whose output the analyser only embeds in messages. */
  datatype Formatting = Formatting(currency: real -> string, localTime: int -> string)

  /** What the rule checks read besides the rule and the transaction. */
  datatype Context = Context(
    transactions: seq<Transaction>,
    blacklist: seq<BlacklistEntry>,
    now: int,
    hour: int,
    weekday: int,
    fmt: Formatting)

  /** `AnalysisResult`. */
  datatype Analysis = Analysis(violations: seq<PolicyViolation>, riskScore: int, recommendations: seq<string>)

  const ReviewCarefully: string := "Review transaction details carefully before approval"
  const Escalate: string := "Escalate to senior management for approval"
  const VerifyBeneficiary: string := "Verify beneficiary identity before processing"

  /** `getSeverityByAmount`: bands of the ratio amount / threshold. */
  function SeverityByAmount(amount: real, threshold: real): (s: Severity)
    requires threshold != 0.0
    ensures threshold > 0.0 && amount > 10.0 * threshold ==> s == Critical
    ensures threshold > 0.0 && amount <= 2.0 * threshold ==> s == Low
  {
    var ratio := amount / threshold;
    assert threshold > 0.0 ==> (ratio > 10.0 <==> amount > 10.0 * threshold) && (ratio > 2.0 <==> amount > 2.0 * threshold) by {
      if threshold > 0.0 {
        RatioAbove(amount, threshold, 10.0);
        RatioAbove(amount, threshold, 2.0);
      }
    }
    if ratio > 10.0 then Critical
    else if ratio > 5.0 then High
    else if ratio > 2.0 then Medium
    else Low
  }

  lemma RatioAbove(amount: real, threshold: real, c: real)
    requires threshold > 0.0
    ensures amount / threshold > c <==> amount > c * threshold
  {
    var ratio := amount / threshold;
    assert ratio * threshold == amount;
    if ratio > c {
      assert ratio * threshold > c * threshold;
    } else {
      assert ratio * threshold <= c * threshold;
    }
  }

  /** For a positive threshold the bands are: above 10×, above 5×, above 2× the threshold. */
  lemma SeverityBands(amount: real, threshold: real)
    requires threshold > 0.0
    ensures SeverityByAmount(amount, threshold) == Critical <==> amount > 10.0 * threshold
    ensures SeverityByAmount(amount, threshold) == High <==> 5.0 * threshold < amount <= 10.0 * threshold
    ensures SeverityByAmount(amount, threshold) == Medium <==> 2.0 * threshold < amount <= 5.0 * threshold
    ensures SeverityByAmount(amount, threshold) == Low <==> amount <= 2.0 * threshold
  {
    RatioAbove(amount, threshold, 10.0);
    RatioAbove(amount, threshold, 5.0);
    RatioAbove(amount, threshold, 2.0);
  }

  /** For a positive threshold a larger amount never gets a lower severity. */
  lemma SeverityMonotone(a1: real, a2: real, threshold: real)
    requires threshold > 0.0 && a1 <= a2
    ensures SeverityRank(SeverityByAmount(a1, threshold)) <= SeverityRank(SeverityByAmount(a2, threshold))
  {
    SeverityBands(a1, threshold);
    SeverityBands(a2, threshold);
  }

  /** `checkAmountThreshold`: `threshold_value && amount > threshold_value`, so a null or zero threshold never fires. */
  function CheckAmountThreshold(rule: PolicyRule, t: Transaction, fmt: Formatting): (v: Option<PolicyViolation>)
    ensures v.Some? <==> rule.thresholdValue.Some? && rule.thresholdValue.value != 0.0
                         && t.amount > rule.thresholdValue.value
    ensures v.Some? ==> v.value.severity == SeverityByAmount(t.amount, rule.thresholdValue.value)
    ensures v.Some? ==> v.value.transactionId == t.id && v.value.ruleId == rule.id
  {
    match rule.thresholdValue
    case Some(threshold) =>
      if threshold != 0.0 && t.amount > threshold then
        Some(PolicyViolation(t.id, rule.id,
          "Transaction amount (" + fmt.currency(t.amount) + ") exceeds threshold of " + fmt.currency(threshold),
          SeverityByAmount(t.amount, threshold)))
      else None
    case None => None
  }

  /** The filter of the duplicate query: same destination and amount, another id, created at or after the cutoff. */
  predicate IsSimilar(x: Transaction, t: Transaction, cutoff: int) {
    x.destinationAccount == t.destinationAccount && x.amount == t.amount && x.id != t.id && x.createdAt >= cutoff
  }

  function SimilarTransactions(table: seq<Transaction>, t: Transaction, now: int): seq<Transaction> {
    SelectWhere(table, (x: Transaction) => IsSimilar(x, t, now - DuplicateWindowMs()))
  }

  /** `checkDuplicateTransaction`. */
  function CheckDuplicate(rule: PolicyRule, t: Transaction, table: seq<Transaction>, now: int): (v: Option<PolicyViolation>)
    ensures v.Some? <==> exists i :: 0 <= i < |table| && IsSimilar(table[i], t, now - 86400000)
    ensures v.Some? ==> (v.value.severity == High <==> |SimilarTransactions(table, t, now)| > 2)
    ensures v.Some? ==> v.value.severity in {High, Medium}
    ensures v.Some? ==> v.value.transactionId == t.id && v.value.ruleId == rule.id
  {
    var similar := SimilarTransactions(table, t, now);
    if |similar| > 0 then
      assert similar[0] in table;
      Some(PolicyViolation(t.id, rule.id,
        "Potential duplicate: " + NatToString(|similar|) + " similar transaction(s) found in the last "
          + NatToString(DuplicateWindowHours) + " hours to the same account with the same amount",
        if |similar| > 2 then High else Medium))
    else
      None
  }

  /** `x || fallback` for a nullable string. */
  function TextOr(s: Option<string>, fallback: string): (r: string)
    ensures r == fallback <==> s.None? || s.value == "" || s.value == fallback
    ensures s.Some? && s.value != "" ==> r == s.value
  {
    if s.Some? && s.value != "" then s.value else fallback
  }

  /** The filter of the blacklist query: an active entry for either account of the transaction. */
  predicate ListsAccountOf(e: BlacklistEntry, t: Transaction) {
    e.isActive && (e.accountNumber == t.destinationAccount || e.accountNumber == t.sourceAccount)
  }

  function BlacklistDetails(e: BlacklistEntry): string {
    "Account " + e.accountNumber + " is on the blacklist. Entity: " + TextOr(e.entityName, "Unknown")
      + ". Reason: " + TextOr(e.reason, "Not specified")
  }

  /** The blacklist message always names the blacklist, which is what triggers the beneficiary recommendation. */
  lemma BlacklistDetailsMentionBlacklist(e: BlacklistEntry)
    ensures Contains(BlacklistDetails(e), "blacklist")
  {
    var d := BlacklistDetails(e);
    var k := |"Account "| + |e.accountNumber| + |" is on the "|;
    assert d == "Account " + e.accountNumber + " is on the " + "blacklist"
      + ". Entity: " + TextOr(e.entityName, "Unknown") + ". Reason: " + TextOr(e.reason, "Not specified");
    assert d[k..k + 9] == "blacklist";
    assert OccursAt(d, "blacklist", k);
  }

  /** `checkBlacklist`: the first matching entry, always critical. */
  function CheckBlacklist(rule: PolicyRule, t: Transaction, blacklist: seq<BlacklistEntry>): (v: Option<PolicyViolation>)
    ensures v.Some? <==> exists i :: 0 <= i < |blacklist| && ListsAccountOf(blacklist[i], t)
    ensures v.Some? ==> v.value.severity == Critical && Contains(v.value.violationDetails, "blacklist")
    ensures v.Some? ==> v.value.transactionId == t.id && v.value.ruleId == rule.id
  {
    match FirstWhere(blacklist, (e: BlacklistEntry) => ListsAccountOf(e, t))
    case Some(e) =>
      BlacklistDetailsMentionBlacklist(e);
      Some(PolicyViolation(t.id, rule.id, BlacklistDetails(e), Critical))
    case None => None
  }

  function BoolText(b: bool): string {
    if b then "true" else "false"
  }

  /** `checkTimeBased`, on the local hour and weekday (0 = Sunday) of the creation time. */
  function CheckTimeBased(rule: PolicyRule, t: Transaction, hour: int, weekday: int, fmt: Formatting): (v: Option<PolicyViolation>)
    ensures v.Some? <==> !(1 <= weekday <= 5) || hour < 9 || hour >= 18
    ensures v.Some? ==> v.value.severity == Low
    ensures v.Some? ==> v.value.transactionId == t.id && v.value.ruleId == rule.id
  {
    var isWeekend := weekday !in WorkingDays;
    var isOutsideHours := hour < StartHour || hour >= EndHour;
    if isWeekend || isOutsideHours then
      Some(PolicyViolation(t.id, rule.id,
        "Transaction created outside business hours (" + fmt.localTime(t.createdAt) + "). Weekend: "
          + BoolText(isWeekend) + ", After hours: " + BoolText(isOutsideHours),
        Low))
    else
      None
  }

  /** `checkRule`: dispatch on the rule type; an unknown type never fires. */
  function CheckRule(rule: PolicyRule, t: Transaction, ctx: Context): (v: Option<PolicyViolation>)
    ensures ParseRuleKind(rule.ruleType).None? ==> v.None?
    ensures v.Some? ==> v.value.transactionId == t.id && v.value.ruleId == rule.id
  {
    match ParseRuleKind(rule.ruleType)
    case Some(AmountThreshold) => CheckAmountThreshold(rule, t, ctx.fmt)
    case Some(DuplicateDetection) => CheckDuplicate(rule, t, ctx.transactions, ctx.now)
    case Some(BlacklistCheck) => CheckBlacklist(rule, t, ctx.blacklist)
    case Some(TimeBased) => CheckTimeBased(rule, t, ctx.hour, ctx.weekday, ctx.fmt)
    case None => None
  }

  function OptionToSeq<T>(o: Option<T>): seq<T> {
    if o.Some? then [o.value] else []
  }

  /** The violations the rules yield, in rule order: what the loop of `analyzeTransaction` pushes. */
  function Violations(rules: seq<PolicyRule>, t: Transaction, ctx: Context): seq<PolicyViolation> {
    if rules == [] then []
    else Violations(rules[..|rules| - 1], t, ctx) + OptionToSeq(CheckRule(rules[|rules| - 1], t, ctx))
  }

  /** The sum of the severity scores of the violations. */
  function ScoreSum(vs: seq<PolicyViolation>): (n: nat)
    ensures (forall i :: 0 <= i < |vs| ==> n >= SeverityScore(vs[i].severity))
    ensures n >= 5 * |vs|
  {
    if vs == [] then 0 else ScoreSum(vs[..|vs| - 1]) + SeverityScore(vs[|vs| - 1].severity)
  }

  predicate HasHighOrCritical(vs: seq<PolicyViolation>) {
    exists i :: 0 <= i < |vs| && (vs[i].severity == Critical || vs[i].severity == High)
  }

  predicate MentionsBlacklist(vs: seq<PolicyViolation>) {
    exists i :: 0 <= i < |vs| && Contains(vs[i].violationDetails, "blacklist")
  }

  /** The recommendations pushed after the rule loop. */
  function Recommendations(vs: seq<PolicyViolation>): seq<string> {
    if vs == [] then
      []
    else
      [ReviewCarefully]
        + (if HasHighOrCritical(vs) then [Escalate] else [])
        + (if MentionsBlacklist(vs) then [VerifyBeneficiary] else [])
  }

  function Min(a: int, b: int): int {
    if a <= b then a else b
  }

  /** The rule loop of `analyzeTransaction`: push each violation and add its severity's score. */
  method CheckRules(rules: seq<PolicyRule>, t: Transaction, ctx: Context)
    returns (violations: seq<PolicyViolation>, riskScore: int)
    ensures violations == Violations(rules, t, ctx)
    ensures riskScore == ScoreSum(violations)
  {
    violations := [];
    riskScore := 0;
    var i := 0;
    while i < |rules|
      invariant 0 <= i <= |rules|
      invariant violations == Violations(rules[..i], t, ctx)
      invariant riskScore == ScoreSum(violations)
    {
      var violation := CheckRule(rules[i], t, ctx);
      assert rules[..i + 1][..i] == rules[..i];
      assert Violations(rules[..i + 1], t, ctx) == violations + OptionToSeq(violation);
      if violation.Some? {
        assert (violations + [violation.value])[..|violations|] == violations;
        violations := violations + [violation.value];
        riskScore := riskScore + SeverityScore(violation.value.severity);
      }
      i := i + 1;
    }
    assert rules[..i] == rules;
  }

  /**
   * `analyzeTransaction`. `activeRules` is the result of the active-rule
   * fetch: None when it yielded no data.
   */
  method AnalyzeTransaction(activeRules: Option<seq<PolicyRule>>, t: Transaction, ctx: Context) returns (a: Analysis)
    ensures activeRules.None? ==> a == Analysis([], 0, [])
    ensures activeRules.Some? ==> a.violations == Violations(activeRules.value, t, ctx)
    ensures a.riskScore == Min(ScoreSum(a.violations), 100)
    ensures 0 <= a.riskScore <= 100
    ensures a.recommendations == Recommendations(a.violations)
  {
    if activeRules.None? {
      return Analysis([], 0, []);
    }
    var violations, riskScore := CheckRules(activeRules.value, t, ctx);
    var recommendations := Recommend(violations);
    return Analysis(violations, Min(riskScore, 100), recommendations);
  }

  /** The pushes onto `recommendations` after the rule loop. */
  method Recommend(violations: seq<PolicyViolation>) returns (recommendations: seq<string>)
    ensures recommendations == Recommendations(violations)
  {
    recommendations := [];
    if |violations| > 0 {
      recommendations := recommendations + [ReviewCarefully];
      if HasHighOrCritical(violations) {
        recommendations := recommendations + [Escalate];
      }
      if MentionsBlacklist(violations) {
        recommendations := recommendations + [VerifyBeneficiary];
      }
    }
  }

  /** Rules before rules: the violations of a concatenation are concatenated. */
  lemma {:induction false} ViolationsAppend(r1: seq<PolicyRule>, r2: seq<PolicyRule>, t: Transaction, ctx: Context)
    ensures Violations(r1 + r2, t, ctx) == Violations(r1, t, ctx) + Violations(r2, t, ctx)
  {
    if r2 != [] {
      var init, last := r2[..|r2| - 1], r2[|r2| - 1];
      var tail := OptionToSeq(CheckRule(last, t, ctx));
      assert (r1 + r2)[..|r1 + r2| - 1] == r1 + init && (r1 + r2)[|r1 + r2| - 1] == last;
      assert Violations(r1 + r2, t, ctx) == Violations(r1 + init, t, ctx) + tail;
      assert Violations(r2, t, ctx) == Violations(init, t, ctx) + tail;
      ViolationsAppend(r1, init, t, ctx);
    } else {
      assert r1 + r2 == r1;
    }
  }

  /** Each rule contributes at most one violation, which names that rule and the transaction. */
  lemma {:induction false} AtMostOneViolationPerRule(rules: seq<PolicyRule>, t: Transaction, ctx: Context)
    ensures |Violations(rules, t, ctx)| <= |rules|
    ensures forall v :: v in Violations(rules, t, ctx) ==>
              v.transactionId == t.id && exists r :: r in rules && r.id == v.ruleId
  {
    if rules != [] {
      var init := rules[..|rules| - 1];
      AtMostOneViolationPerRule(init, t, ctx);
      forall v | v in Violations(rules, t, ctx)
        ensures v.transactionId == t.id && exists r :: r in rules && r.id == v.ruleId
      {
        if v in Violations(init, t, ctx) {
          var r :| r in init && r.id == v.ruleId;
          assert r in rules;
        } else {
          assert rules[|rules| - 1] in rules;
        }
      }
    }
  }

  /** The known rule types among the rules, in order. */
  function KnownRules(rules: seq<PolicyRule>): seq<PolicyRule> {
    if rules == [] then
      []
    else
      KnownRules(rules[..|rules| - 1])
        + (if ParseRuleKind(rules[|rules| - 1].ruleType).Some? then [rules[|rules| - 1]] else [])
  }

  /** Rules of an unknown type contribute nothing: dropping them changes no violation. */
  lemma {:induction false} UnknownRuleTypesIgnored(rules: seq<PolicyRule>, t: Transaction, ctx: Context)
    ensures Violations(KnownRules(rules), t, ctx) == Violations(rules, t, ctx)
  {
    if rules != [] {
      var init := rules[..|rules| - 1];
      var last := rules[|rules| - 1];
      UnknownRuleTypesIgnored(init, t, ctx);
      if ParseRuleKind(last.ruleType).Some? {
        assert KnownRules(rules) == KnownRules(init) + [last];
        ViolationsAppend(KnownRules(init), [last], t, ctx);
        assert [last][..0] == [];
        assert Violations([last], t, ctx) == OptionToSeq(CheckRule(last, t, ctx));
        calc {
          Violations(KnownRules(rules), t, ctx);
          Violations(KnownRules(init), t, ctx) + Violations([last], t, ctx);
          Violations(init, t, ctx) + OptionToSeq(CheckRule(last, t, ctx));
          Violations(rules, t, ctx);
        }
      } else {
        assert CheckRule(last, t, ctx).None?;
        calc {
          Violations(KnownRules(rules), t, ctx);
          { assert KnownRules(rules) == KnownRules(init) + []; assert KnownRules(init) + [] == KnownRules(init); }
          Violations(KnownRules(init), t, ctx);
          Violations(init, t, ctx);
          Violations(init, t, ctx) + [];
          Violations(rules, t, ctx);
        }
      }
    }
  }

  /** The score never falls below any single violation's score, so one critical violation reaches 40. */
  lemma CriticalViolationReachesFlagThreshold(vs: seq<PolicyViolation>)
    requires exists i :: 0 <= i < |vs| && vs[i].severity == Critical
    ensures Min(ScoreSum(vs), 100) >= 40
  {
  }

  /** The recommendations: review iff there is a violation, escalate iff also high or critical, verify iff a message names the blacklist; in that order. */
  lemma RecommendationsShape(vs: seq<PolicyViolation>)
    ensures ReviewCarefully in Recommendations(vs) <==> vs != []
    ensures Escalate in Recommendations(vs) <==> HasHighOrCritical(vs)
    ensures VerifyBeneficiary in Recommendations(vs) <==> MentionsBlacklist(vs)
    ensures Recommendations(vs) != [] ==> Recommendations(vs)[0] == ReviewCarefully
    ensures |Recommendations(vs)| <= 3
    ensures Escalate in Recommendations(vs) && VerifyBeneficiary in Recommendations(vs) ==>
              Recommendations(vs) == [ReviewCarefully, Escalate, VerifyBeneficiary]
  {
  }

  /** When no rule fires, the analysis is clean: no violations, score 0, no recommendation. */
  lemma {:induction false} QuietRulesGiveCleanAnalysis(rules: seq<PolicyRule>, t: Transaction, ctx: Context)
    requires forall r :: r in rules ==> CheckRule(r, t, ctx).None?
    ensures Violations(rules, t, ctx) == []
    ensures Min(ScoreSum(Violations(rules, t, ctx)), 100) == 0
    ensures Recommendations(Violations(rules, t, ctx)) == []
  {
    if rules != [] {
      var init := rules[..|rules| - 1];
      assert forall r :: r in init ==> r in rules;
      assert rules[|rules| - 1] in rules;
      QuietRulesGiveCleanAnalysis(init, t, ctx);
    }
  }

  /** A firing blacklist rule always yields the beneficiary recommendation and a score of at least 40. */
  lemma {:induction false} BlacklistHitConsequences(rules: seq<PolicyRule>, t: Transaction, ctx: Context, r: PolicyRule)
    requires r in rules && r.ruleType == "blacklist_check"
    requires exists i :: 0 <= i < |ctx.blacklist| && ListsAccountOf(ctx.blacklist[i], t)
    ensures VerifyBeneficiary in Recommendations(Violations(rules, t, ctx))
    ensures Escalate in Recommendations(Violations(rules, t, ctx))
    ensures Min(ScoreSum(Violations(rules, t, ctx)), 100) >= 40
  {
    var k :| 0 <= k < |rules| && rules[k] == r;
    var v := CheckBlacklist(r, t, ctx.blacklist).value;
    assert CheckRule(r, t, ctx) == Some(v);
    assert rules == rules[..k] + [r] + rules[k + 1..];
    ViolationsAppend(rules[..k] + [r], rules[k + 1..], t, ctx);
    ViolationsAppend(rules[..k], [r], t, ctx);
    assert [r][..0] == [];
    var vs := Violations(rules, t, ctx);
    var j := |Violations(rules[..k], t, ctx)|;
    assert vs[j] == v;
    assert MentionsBlacklist(vs);
    assert HasHighOrCritical(vs);
    CriticalViolationReachesFlagThreshold(vs);
  }
}
