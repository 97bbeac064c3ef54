// The normal form of a node's template (normalize_xray_config_template).

module ConfigTemplate {
  import opened Wrappers
  import opened NodeTables
  import opened RoutingRules
  import opened NodeConfig
  import opened NodeConfigProperties

  datatype TemplateError =
    | BadRule(index: nat, error: RuleError)
    | DuplicateRuleTag(index: nat)
    | BadConfig(problem: ConfigError)

  // What every stored template satisfies.
  ghost predicate Normalized(template: Template) {
    && NormalRules(template.rules) && DistinctNames(template.rules)
    && GoodInbounds(template.inbounds)
    && GoodOutbounds(template.outbounds) && template.outbounds != []
  }

  // The rules in normal form, or the first one at fault.
  function NormalizedRules(rules: seq<Rule>): Result<seq<Rule>, TemplateError> {
    if rules == [] then Ok([])
    else
      var n := |rules| - 1;
      match NormalizedRules(rules[..n])
      case Err(e) => Err(e)
      case Ok(earlier) =>
        match NormalizeRuleContent(rules[n])
        case Err(e) => Err(BadRule(n, e))
        case Ok(normal) =>
          if exists rule :: rule in earlier && rule.ruleTag == normal.ruleTag then Err(DuplicateRuleTag(n))
          else Ok(earlier + [normal])
  }

  function NormalizedTemplate(payload: Template): Result<Template, TemplateError> {
    match NormalizedRules(payload.rules)
    case Err(e) => Err(e)
    case Ok(rules) =>
      match Validate(payload.inbounds, payload.outbounds, true)
      case Some(e) => Err(BadConfig(e))
      case None => Ok(payload.(rules := rules))
  }

  function RuleTags(rules: seq<Rule>): set<string> {
    set rule | rule in rules :: rule.ruleTag
  }

  // One round of the loop.
  lemma NormalizeStep(rules: seq<Rule>, index: nat)
    requires index < |rules| && NormalizedRules(rules[..index]).Ok?
    ensures
      var earlier := NormalizedRules(rules[..index]).value;
      match NormalizeRuleContent(rules[index])
      case Err(e) => NormalizedRules(rules) == Err(BadRule(index, e))
      case Ok(normal) =>
        if normal.ruleTag in RuleTags(earlier) then NormalizedRules(rules) == Err(DuplicateRuleTag(index))
        else && NormalizedRules(rules[..index + 1]) == Ok(earlier + [normal])
             && RuleTags(earlier + [normal]) == RuleTags(earlier) + {normal.ruleTag}
  {
    assert rules[..index + 1][..index] == rules[..index];
    if NormalizedRules(rules[..index + 1]).Err? {
      ErrorStays(rules, index + 1);
    }
  }

  method NormalizeXrayConfigTemplate(payload: Template) returns (r: Result<Template, TemplateError>)
    ensures r == NormalizedTemplate(payload)
  {
    var rules, tags: set<string> := payload.rules, {};
    for index := 0 to |rules|
      invariant |rules| == |payload.rules|
      invariant forall k :: index <= k < |rules| ==> rules[k] == payload.rules[k]
      invariant NormalizedRules(payload.rules[..index]) == Ok(rules[..index])
      invariant tags == RuleTags(rules[..index])
    {
      NormalizeStep(payload.rules, index);
      match NormalizeRuleContent(rules[index])
      case Err(e) => return Err(BadRule(index, e));
      case Ok(normal) =>
        if normal.ruleTag in tags {
          return Err(DuplicateRuleTag(index));
        }
        tags := tags + {normal.ruleTag};
        ghost var earlier := rules[..index];
        rules := rules[index := normal];
        assert rules[..index + 1] == earlier + [normal];
    }
    assert rules[..|rules|] == rules && payload.rules[..|rules|] == payload.rules;
    match Validate(payload.inbounds, payload.outbounds, true)
    case Some(e) => r := Err(BadConfig(e));
    case None => r := Ok(payload.(rules := rules));
  }

  lemma {:induction false} ErrorStays(rules: seq<Rule>, k: nat)
    requires k <= |rules| && NormalizedRules(rules[..k]).Err?
    ensures NormalizedRules(rules) == NormalizedRules(rules[..k])
    decreases |rules|
  {
    if k == |rules| {
      assert rules[..k] == rules;
    } else {
      assert rules[..|rules| - 1][..k] == rules[..k];
      ErrorStays(rules[..|rules| - 1], k);
    }
  }

  lemma {:induction false} NormalRulesStay(rules: seq<Rule>)
    requires NormalRules(rules) && DistinctNames(rules)
    ensures NormalizedRules(rules) == Ok(rules)
  {
    if rules != [] {
      var n := |rules| - 1;
      NormalRulesStay(rules[..n]);
      assert rules[n] in rules;
      assert rules == rules[..n] + [rules[n]];
    }
  }

  lemma {:induction false} AcceptedRules(rules: seq<Rule>)
    requires NormalizedRules(rules).Ok?
    ensures
      var normal := NormalizedRules(rules).value;
      && |normal| == |rules| && NormalRules(normal) && DistinctNames(normal)
      && forall i :: 0 <= i < |rules| ==> NormalizeRuleContent(rules[i]) == Ok(normal[i])
  {
    if rules != [] {
      var n := |rules| - 1;
      AcceptedRules(rules[..n]);
      OneMoreNormal(NormalizedRules(rules[..n]).value, rules[n]);
    }
  }

  lemma OneMoreNormal(earlier: seq<Rule>, content: Rule)
    requires NormalRules(earlier) && DistinctNames(earlier) && NormalizeRuleContent(content).Ok?
    requires forall rule :: rule in earlier ==> rule.ruleTag != NormalizeRuleContent(content).value.ruleTag
    ensures
      var all := earlier + [NormalizeRuleContent(content).value];
      NormalRules(all) && DistinctNames(all)
  {
    NormalizedRule(content, None);
  }

  // An accepted payload comes back as a normalized template, differing only in trimmed rule tags;
  // and exactly the normalized templates come back unchanged.
  lemma NormalizationMeans(payload: Template)
    ensures NormalizedTemplate(payload).Ok? ==>
      && Normalized(NormalizedTemplate(payload).value)
      && NormalizedTemplate(payload).value.(rules := payload.rules) == payload
    ensures NormalizedTemplate(payload) == Ok(payload) <==> Normalized(payload)
  {
    if NormalizedRules(payload.rules).Ok? {
      AcceptedRules(payload.rules);
    }
    if NormalRules(payload.rules) && DistinctNames(payload.rules) {
      NormalRulesStay(payload.rules);
    }
    InboundCheckMeans(payload.inbounds);
    OutboundCheckMeans(payload.outbounds);
  }
}
