// The content of routing rules and its normal form (app/models/routing.py).

module RoutingRules {
  import opened Wrappers
  import opened NodeTables
  import Text

  const MAX_RULE_TAG := 128

  datatype RuleError = EmptyRuleTag | LongRuleTag | BadRuleType | NoTarget

  function NormalizeRuleContent(content: Rule): Result<Rule, RuleError> {
    var tag := Text.Strip(content.ruleTag);
    if tag == "" then Err(EmptyRuleTag)
    else if |tag| > MAX_RULE_TAG then Err(LongRuleTag)
    else if content.kind != "field" && content.kind != "balancer" then Err(BadRuleType)
    else if content.outboundTag == "" && content.balancerTag == "" then Err(NoTarget)
    else Ok(content.(ruleTag := tag))
  }

  function RoutingRuleName(content: Rule, fallback: Option<string>): Result<string, RuleError> {
    var tag := Text.Strip(content.ruleTag);
    if tag != "" then Ok(if |tag| > MAX_RULE_TAG then tag[..MAX_RULE_TAG] else tag)
    else match fallback
      case Some(name) => Ok(name)
      case None => Err(EmptyRuleTag)
  }

  // A normalized rule is its own normal form, and its name is its ruleTag whatever the fallback.
  lemma NormalizedRule(content: Rule, fallback: Option<string>)
    requires NormalizeRuleContent(content).Ok?
    ensures var normal := NormalizeRuleContent(content).value;
      && NormalizeRuleContent(normal) == Ok(normal)
      && RoutingRuleName(normal, fallback) == Ok(normal.ruleTag)
      && normal.ruleTag != ""
  {
    Text.StripTrims(content.ruleTag);
    Text.StripFixed(Text.Strip(content.ruleTag));
  }

  // The position of the first malformed rule, or all rules normalized.
  function NormalizeAll(rules: seq<Rule>): Result<seq<Rule>, nat> {
    if rules == [] then Ok([])
    else
      match NormalizeAll(rules[..|rules| - 1])
      case Err(p) => Err(p)
      case Ok(earlier) =>
        match NormalizeRuleContent(rules[|rules| - 1])
        case Err(_) => Err(|rules| - 1)
        case Ok(normal) => Ok(earlier + [normal])
  }

  ghost predicate NormalRules(rules: seq<Rule>) {
    forall rule :: rule in rules ==> NormalizeRuleContent(rule) == Ok(rule)
  }

  ghost predicate DistinctNames(rules: seq<Rule>) {
    forall i, j :: 0 <= i < j < |rules| ==> rules[i].ruleTag != rules[j].ruleTag
  }

  lemma {:induction false} NormalizeAllNormal(rules: seq<Rule>)
    ensures NormalRules(rules) ==> NormalizeAll(rules) == Ok(rules)
    ensures NormalizeAll(rules).Ok? ==> |NormalizeAll(rules).value| == |rules| && NormalRules(NormalizeAll(rules).value)
  {
    if rules != [] {
      var n := |rules| - 1;
      assert rules == rules[..n] + [rules[n]];
      NormalizeAllNormal(rules[..n]);
      if NormalizeRuleContent(rules[n]).Ok? {
        NormalizedRule(rules[n], None);
      }
    }
  }
}
