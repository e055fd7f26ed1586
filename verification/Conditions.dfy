/** The AND/OR condition evaluator (conditions.go). Comparisons on present values are a parameter. */
module Conditions {

  /** A resolved field value; only `compare` looks inside. */
  datatype Value = Value(repr: string)

  /** The run data a condition reads: dotted field path to value; a missing key is Go's nil. */
  type Fields = map<string, Value>

  /** compare(operator, resolved, configured): the operator's verdict on a present value. */
  type Comparison = (string, Value, Value) -> bool

  datatype ConditionRule =
    ConditionRule(field: string, operator: string, value: Value, op: string, rules: seq<ConditionRule>)
  {
    predicate IsGroup() { op != "" }
  }

  datatype ConditionGroup =
    ConditionGroup(op: string, rules: seq<ConditionRule>, field: string, operator: string, value: Value)

  const OPERATORS: set<string> := {
    "eq", "neq", "gt", "gte", "lt", "lte", "contains", "not_contains", "in", "not_in", "is_true",
    "is_false", "is_empty", "is_not_empty", "starts_with", "ends_with", "between", "last_n_days"
  }

  function ToUpper(s: string): string {
    seq(|s|, i requires 0 <= i < |s| => if 'a' <= s[i] <= 'z' then 'A' + (s[i] - 'a') else s[i])
  }

  /** One comparison, fail-closed: an absent field satisfies `is_empty` and nothing else. */
  predicate EvaluateLeaf(field: string, operator: string, value: Value, fields: Fields, compare: Comparison) {
    if field !in fields then
      operator == "is_empty"
    else
      operator in OPERATORS && compare(operator, fields[field], value)
  }

  predicate EvaluateConditions(group: ConditionGroup, fields: Fields, compare: Comparison)
    decreases group.rules, 2
  {
    if group.op == "" && group.field == "" then true
    else if group.field != "" then EvaluateLeaf(group.field, group.operator, group.value, fields, compare)
    else if |group.rules| == 0 then true
    else if ToUpper(group.op) == "OR" then AnyRule(group.rules, 0, fields, compare)
    else EveryRule(group.rules, 0, fields, compare)
  }

  predicate EvaluateRule(rule: ConditionRule, fields: Fields, compare: Comparison)
    decreases rule, 3
  {
    if rule.IsGroup() then
      EvaluateConditions(ConditionGroup(rule.op, rule.rules, "", "", Value("")), fields, compare)
    else
      EvaluateLeaf(rule.field, rule.operator, rule.value, fields, compare)
  }

  /** The AND loop from rule i on: stops at the first rule that fails. */
  predicate EveryRule(rules: seq<ConditionRule>, i: nat, fields: Fields, compare: Comparison)
    requires i <= |rules|
    decreases rules, 1, |rules| - i
  {
    i == |rules| || (EvaluateRule(rules[i], fields, compare) && EveryRule(rules, i + 1, fields, compare))
  }

  /** The OR loop from rule i on: stops at the first rule that holds. */
  predicate AnyRule(rules: seq<ConditionRule>, i: nat, fields: Fields, compare: Comparison)
    requires i <= |rules|
    decreases rules, 1, |rules| - i
  {
    i < |rules| && (EvaluateRule(rules[i], fields, compare) || AnyRule(rules, i + 1, fields, compare))
  }

  /* ---- What the loops mean ---- */

  lemma {:induction false} EveryRuleMeaning(rules: seq<ConditionRule>, i: nat, fields: Fields, compare: Comparison)
    requires i <= |rules|
    ensures EveryRule(rules, i, fields, compare)
       <==> forall j :: i <= j < |rules| ==> EvaluateRule(rules[j], fields, compare)
    decreases |rules| - i
  {
    if i < |rules| {
      EveryRuleMeaning(rules, i + 1, fields, compare);
    }
  }

  lemma {:induction false} AnyRuleMeaning(rules: seq<ConditionRule>, i: nat, fields: Fields, compare: Comparison)
    requires i <= |rules|
    ensures AnyRule(rules, i, fields, compare)
       <==> exists j :: i <= j < |rules| && EvaluateRule(rules[j], fields, compare)
    decreases |rules| - i
  {
    if i < |rules| {
      AnyRuleMeaning(rules, i + 1, fields, compare);
    }
  }

  /** A non-leaf group holds exactly when some rule (OR) or every rule (anything else) holds. */
  lemma GroupMeaning(group: ConditionGroup, fields: Fields, compare: Comparison)
    requires group.field == "" && group.op != "" && group.rules != []
    ensures EvaluateConditions(group, fields, compare) <==>
            if ToUpper(group.op) == "OR"
            then exists j :: 0 <= j < |group.rules| && EvaluateRule(group.rules[j], fields, compare)
            else forall j :: 0 <= j < |group.rules| ==> EvaluateRule(group.rules[j], fields, compare)
  {
    EveryRuleMeaning(group.rules, 0, fields, compare);
    AnyRuleMeaning(group.rules, 0, fields, compare);
  }

  /**
   What one comparison means. On an absent field `is_empty` holds and nothing else does; on a present one an operator the
   evaluator knows asks `compare`, and any other fails.
   */
  lemma LeafMeaning(field: string, operator: string, value: Value, fields: Fields, compare: Comparison)
    ensures EvaluateLeaf(field, operator, value, fields, compare) <==>
            if field !in fields then operator == "is_empty"
            else
              && (|| operator == "eq" || operator == "neq" || operator == "gt" || operator == "gte" || operator == "lt"
                  || operator == "lte" || operator == "contains" || operator == "not_contains" || operator == "in"
                  || operator == "not_in" || operator == "is_true" || operator == "is_false" || operator == "is_empty"
                  || operator == "is_not_empty" || operator == "starts_with" || operator == "ends_with"
                  || operator == "between" || operator == "last_n_days")
              && compare(operator, fields[field], value)
  {
  }

  /** A rule with an operator between rules means what the same group means at the top; any other rule is a comparison. */
  lemma RuleMeaning(rule: ConditionRule, fields: Fields, compare: Comparison)
    ensures rule.op == "" ==>
              (EvaluateRule(rule, fields, compare) <==> EvaluateLeaf(rule.field, rule.operator, rule.value, fields, compare))
    ensures rule.op != "" && rule.rules == [] ==> EvaluateRule(rule, fields, compare)
    ensures rule.op != "" && rule.rules != [] ==>
              (EvaluateRule(rule, fields, compare) <==>
               if ToUpper(rule.op) == "OR"
               then exists j :: 0 <= j < |rule.rules| && EvaluateRule(rule.rules[j], fields, compare)
               else forall j :: 0 <= j < |rule.rules| ==> EvaluateRule(rule.rules[j], fields, compare))
  {
    if rule.op != "" && rule.rules != [] {
      GroupMeaning(ConditionGroup(rule.op, rule.rules, "", "", Value("")), fields, compare);
    }
  }

  /** A group that is itself a comparison, and a group that asks nothing. */
  lemma PlainGroupMeaning(group: ConditionGroup, fields: Fields, compare: Comparison)
    ensures group.field != "" ==>
              (EvaluateConditions(group, fields, compare) <==> EvaluateLeaf(group.field, group.operator, group.value, fields, compare))
    ensures group.field == "" && (group.op == "" || group.rules == []) ==> EvaluateConditions(group, fields, compare)
  {
  }

  /** The word for OR is read without regard to case. */
  lemma OrInAnyCase()
    ensures ToUpper("or") == "OR" && ToUpper("Or") == "OR" && ToUpper("oR") == "OR" && ToUpper("OR") == "OR"
    ensures ToUpper("and") == "AND" && ToUpper("xor") != "OR"
  {
    assert |ToUpper("and")| == 3 && |ToUpper("xor")| == 3;
    assert ToUpper("and")[0] == 'A' && ToUpper("and")[1] == 'N' && ToUpper("and")[2] == 'D';
  }

  /* ---- Fail-closed, for whole trees ---- */

  /** No leaf under the rule asks `is_empty`, the one operator an absent field satisfies. */
  predicate NeverAsksEmpty(rule: ConditionRule) {
    if rule.IsGroup() then forall r | r in rule.rules :: NeverAsksEmpty(r)
    else rule.operator != "is_empty"
  }

  predicate GroupNeverAsksEmpty(group: ConditionGroup) {
    if group.field != "" then group.operator != "is_empty"
    else forall r | r in group.rules :: NeverAsksEmpty(r)
  }

  lemma {:induction false} RuleFailsClosed(rule: ConditionRule, fields: Fields, lost: set<string>, compare: Comparison)
    requires NeverAsksEmpty(rule)
    requires EvaluateRule(rule, fields - lost, compare)
    ensures EvaluateRule(rule, fields, compare)
    decreases rule, 1
  {
    if rule.IsGroup() {
      RulesFailClosed(rule.rules, fields, lost, compare);
      var group := ConditionGroup(rule.op, rule.rules, "", "", Value(""));
      if rule.rules != [] {
        GroupMeaning(group, fields, compare);
        GroupMeaning(group, fields - lost, compare);
      }
    }
  }

  lemma {:induction false} RulesFailClosed(rules: seq<ConditionRule>, fields: Fields, lost: set<string>, compare: Comparison)
    requires forall r | r in rules :: NeverAsksEmpty(r)
    ensures forall j :: 0 <= j < |rules| && EvaluateRule(rules[j], fields - lost, compare) ==> EvaluateRule(rules[j], fields, compare)
    decreases rules, 0
  {
    forall j | 0 <= j < |rules| && EvaluateRule(rules[j], fields - lost, compare)
      ensures EvaluateRule(rules[j], fields, compare)
    {
      RuleFailsClosed(rules[j], fields, lost, compare);
    }
  }

  /** Losing any set of fields can never turn a condition without `is_empty` from false to true. */
  lemma FailClosed(group: ConditionGroup, fields: Fields, lost: set<string>, compare: Comparison)
    requires GroupNeverAsksEmpty(group)
    requires EvaluateConditions(group, fields - lost, compare)
    ensures EvaluateConditions(group, fields, compare)
  {
    if group.field == "" && group.op != "" && group.rules != [] {
      RulesFailClosed(group.rules, fields, lost, compare);
      GroupMeaning(group, fields, compare);
      GroupMeaning(group, fields - lost, compare);
    }
  }

  /** The hypothesis is needed: an `is_empty` leaf turns true when its own field is lost. */
  lemma IsEmptyOpens(field: string, value: Value, present: Value, compare: Comparison)
    requires field != "" && !compare("is_empty", present, value)
    ensures var group := ConditionGroup("", [], field, "is_empty", value);
            && !EvaluateConditions(group, map[field := present], compare)
            && EvaluateConditions(group, map[field := present] - {field}, compare)
  {
  }
}
