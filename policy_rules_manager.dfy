/**
 * The policy-rule page of components/dashboard/policy-rules-manager.tsx:
 * toggling a rule on or off with its audit row, and the threshold label.
 */
module PolicyRulesManager {
  import opened Wrappers
  import opened Types
  import opened Strings
  import opened Constants
  import opened Store
  import opened JsNumber
  import opened JsNumberText

  predicate RuleHasId(r: PolicyRule, id: string) {
    r.id == id
  }

  /** `update({ is_active: !shown }).eq('id', id)` on the rules table. */
  function SetRuleActive(rules: seq<PolicyRule>, id: string, shown: bool): seq<PolicyRule> {
    UpdateWhere(rules, (r: PolicyRule) => RuleHasId(r, id), (r: PolicyRule) => r.(isActive := !shown))
  }

  function RuleToggleAudit(rule: PolicyRule, userId: string): AuditLog {
    AuditLog(userId, PolicyUpdated, "policy_rule", rule.id,
             Some(map["is_active" := Bool(rule.isActive)]), Some(map["is_active" := Bool(!rule.isActive)]), None)
  }

  /** `toggleRule`, given the rule as the page shows it; the audit row does not wait on the update's outcome. */
  method ToggleRule(db: Db, rule: PolicyRule, userId: string, updateOk: bool)
    modifies db`rules, db`audit
    ensures db.rules == (if updateOk then SetRuleActive(old(db.rules), rule.id, rule.isActive) else old(db.rules))
    ensures db.audit == old(db.audit) + [RuleToggleAudit(rule, userId)]
  {
    if updateOk {
      db.rules := SetRuleActive(db.rules, rule.id, rule.isActive);
    }
    db.AppendAudit(RuleToggleAudit(rule, userId));
  }

  /** Only the targeted rule changes, and only its active flag. */
  lemma ToggleRuleTouchesOnlyTarget(rules: seq<PolicyRule>, id: string, shown: bool)
    ensures var r := SetRuleActive(rules, id, shown);
      && |r| == |rules|
      && (forall i :: 0 <= i < |rules| && rules[i].id == id ==> r[i] == rules[i].(isActive := !shown))
      && (forall i :: 0 <= i < |rules| && rules[i].id != id ==> r[i] == rules[i])
  {
  }

  /** Two toggles, each from the flag the table held, restore the rule. */
  lemma {:induction false} ToggleRuleTwiceRestores(rules: seq<PolicyRule>, id: string, shown: bool)
    requires forall i :: 0 <= i < |rules| && rules[i].id == id ==> rules[i].isActive == shown
    ensures SetRuleActive(SetRuleActive(rules, id, shown), id, !shown) == rules
  {
    var once := SetRuleActive(rules, id, shown);
    var twice := SetRuleActive(once, id, !shown);
    forall i | 0 <= i < |rules|
      ensures twice[i] == rules[i]
    {
      assert once[i].id == rules[i].id;
    }
  }

  /** The audit row of a toggle: POLICY_UPDATED on the policy_rule, with the old and new flag. */
  lemma RuleToggleAuditShape(rule: PolicyRule, userId: string)
    ensures var a := RuleToggleAudit(rule, userId);
      && a.action == "POLICY_UPDATED" && a.entityType == "policy_rule" && a.entityId == rule.id
      && a.oldValues == Some(map["is_active" := Bool(rule.isActive)])
      && a.newValues == Some(map["is_active" := Bool(!rule.isActive)])
  {
  }

  /**
   * `formatThreshold`. `currency` is `formatCurrency`; a nullish value is
   * "N/A" (zero is not nullish), an amount threshold is formatted as
   * currency, any other rule type shows the number's `toString()`.
   */
  function FormatThreshold(value: Option<real>, ruleType: string, currency: real -> string): (r: string)
    ensures value.None? ==> r == "N/A"
    ensures value.Some? && ruleType == "amount_threshold" ==> r == currency(value.value)
    ensures value.Some? && ruleType != "amount_threshold" ==> r == NumberToString(value.value)
  {
    match value
    case None => "N/A"
    case Some(v) => if ruleType == RuleKindName(AmountThreshold) then currency(v) else NumberToString(v)
  }

  /**
   * A plain threshold is never shown as "N/A", not even zero; a whole
   * non-negative one is shown as bare digits, a fractional one with a
   * point, and the label reads back as the threshold.
   */
  lemma PlainThresholdText(v: real, ruleType: string, currency: real -> string)
    requires ruleType != "amount_threshold"
    ensures FormatThreshold(Some(v), ruleType, currency) != "N/A"
    ensures v >= 0.0 && Whole(v) ==> AllDigits(FormatThreshold(Some(v), ruleType, currency))
    ensures !Whole(v) ==> '.' in FormatThreshold(Some(v), ruleType, currency)
    ensures Terminates(if v < 0.0 then -v else v) ==>
              var n := StringToNumber(FormatThreshold(Some(v), ruleType, currency)); n.Finite? && RealValue(n) == v
  {
    var s := FormatThreshold(Some(v), ruleType, currency);
    assert s == NumberToString(v);
    if Terminates(if v < 0.0 then -v else v) {
      TextReadsBack(v);
    }
    if !Whole(v) {
      FractionalText(v);
    }
    if v >= 0.0 && Whole(v) {
      var n: nat := v.Floor;
      assert n as real == v;
      WholeText(n);
    }
    if v < 0.0 {
      assert s[0] == '-';
    } else {
      assert IsDigit(s[0]);
    }
  }
}
