// The rule half of sync_readonly_node_config (app/db/crud/routing.py).

module RuleSync {
  import opened Wrappers
  import opened NodeTables
  import opened RoutingRules
  import opened Sorting
  import RowSync

  datatype RuleTable = RuleTable(rules: seq<RuleRow>, nextId: nat)

  function RulePosition(row: RuleRow): int { row.position }

  // The node's read-only rules, in id order.
  function ReadonlyRules(rules: seq<RuleRow>, node: NodeId): seq<RuleRow> {
    if rules == [] then []
    else
      var row := rules[|rules| - 1];
      ReadonlyRules(rules[..|rules| - 1], node) +
      if row.readonly && node in row.nodes then [row] else []
  }

  // {rule.name: rule for rule in ...}: the last rule under a name wins.
  function NameMap(rows: seq<RuleRow>): map<string, nat> {
    if rows == [] then map[]
    else NameMap(rows[..|rows| - 1])[rows[|rows| - 1].name := rows[|rows| - 1].id]
  }

  // Rules are looked up by name among the node's read-only rules ordered by (position, id).
  function RulesByName(rules: seq<RuleRow>, node: NodeId): map<string, nat> {
    NameMap(SortBy(ReadonlyRules(rules, node), RulePosition))
  }

  function RuleIndex(rules: seq<RuleRow>, id: nat): (i: Option<nat>)
    ensures i.Some? ==> i.value < |rules| && rules[i.value].id == id
  {
    RuleIndexBelow(rules, id, |rules|)
  }

  function RuleIndexBelow(rules: seq<RuleRow>, id: nat, n: nat): (i: Option<nat>)
    requires n <= |rules|
    ensures i.Some? ==> i.value < n && rules[i.value].id == id
  {
    if n == 0 then None
    else if rules[n - 1].id == id then Some(n - 1)
    else RuleIndexBelow(rules, id, n - 1)
  }

  function NewRule(id: nat, content: Rule, position: nat, node: NodeId): RuleRow {
    RuleRow(id, content.ruleTag, content, true, true, position, {node})
  }

  function WithoutNode(row: RuleRow, node: NodeId): RuleRow {
    row.(nodes := row.nodes - {node})
  }

  // Another node shares the rule and the template now says something else.
  predicate Diverges(row: RuleRow, node: NodeId, content: Rule) {
    row.nodes - {node} != {} && row.content != content
  }

  function Rewritten(row: RuleRow, content: Rule, position: nat): RuleRow {
    row.(name := content.ruleTag, content := content, enabled := true, position := position)
  }

  // The row of a template rule: the found one rewritten, unless another node holds it to other content.
  function AdoptFound(t: RuleTable, node: NodeId, found: Option<nat>, content: Rule, position: nat): RuleTable
    requires found.Some? ==> found.value < |t.rules|
  {
    var created := NewRule(t.nextId, content, position, node);
    match found
    case None => RuleTable(t.rules + [created], t.nextId + 1)
    case Some(i) =>
      if Diverges(t.rules[i], node, content) then
        RuleTable(t.rules[i := WithoutNode(t.rules[i], node)] + [created], t.nextId + 1)
      else
        RuleTable(t.rules[i := Rewritten(t.rules[i], content, position)], t.nextId)
  }

  // One round of the template loop.
  function AdoptRule(t: RuleTable, node: NodeId, byName: map<string, nat>, content: Rule, position: nat): RuleTable {
    AdoptFound(t, node, if content.ruleTag in byName then RuleIndex(t.rules, byName[content.ruleTag]) else None,
               content, position)
  }

  function AdoptRules(t: RuleTable, node: NodeId, byName: map<string, nat>, wanted: seq<Rule>): RuleTable {
    if wanted == [] then t
    else
      var n := |wanted| - 1;
      AdoptRule(AdoptRules(t, node, byName, wanted[..n]), node, byName, wanted[n], n)
  }

  function RuleNames(wanted: seq<Rule>): set<string> {
    set rule | rule in wanted :: rule.ruleTag
  }

  // The last loop: the node leaves its read-only rules whose names the template no longer has.
  function DropRules(rules: seq<RuleRow>, node: NodeId, names: set<string>): seq<RuleRow> {
    if rules == [] then []
    else
      var row := rules[|rules| - 1];
      DropRules(rules[..|rules| - 1], node, names) +
      if !row.readonly || node !in row.nodes || row.name in names then [row]
      else if row.nodes == {node} then []
      else [WithoutNode(row, node)]
  }

  function SyncedRules(t: RuleTable, node: NodeId, wanted: seq<Rule>): RuleTable {
    var adopted := AdoptRules(t, node, RulesByName(t.rules, node), wanted);
    adopted.(rules := DropRules(adopted.rules, node, RuleNames(wanted)))
  }

  method AdoptTemplateRules(t: RuleTable, node: NodeId, byName: map<string, nat>, wanted: seq<Rule>)
    returns (adopted: RuleTable, names: set<string>)
    requires NormalRules(wanted)
    ensures adopted == AdoptRules(t, node, byName, wanted)
    ensures names == RuleNames(wanted)
  {
    var rules, nextId := t.rules, t.nextId;
    names := {};
    for position := 0 to |wanted|
      invariant RuleTable(rules, nextId) == AdoptRules(t, node, byName, wanted[..position])
      invariant names == RuleNames(wanted[..position])
    {
      var content := wanted[position];
      assert wanted[..position + 1][..position] == wanted[..position];
      NormalizedRule(content, Some("Xray rule"));
      var name := RoutingRuleName(content, Some("Xray rule")).value;
      assert RuleNames(wanted[..position + 1]) == names + {name};
      names := names + {name};
      var found := if name in byName then RuleIndex(rules, byName[name]) else None;
      if found.Some? {
        var i := found.value;
        if Diverges(rules[i], node, content) {
          rules := rules[i := WithoutNode(rules[i], node)];
          found := None;
        } else {
          rules := rules[i := Rewritten(rules[i], content, position)];
        }
      }
      if found.None? {
        rules := rules + [NewRule(nextId, content, position, node)];
        nextId := nextId + 1;
      }
    }
    assert wanted[..|wanted|] == wanted;
    adopted := RuleTable(rules, nextId);
  }

  method DropStaleRules(rules: seq<RuleRow>, node: NodeId, names: set<string>) returns (kept: seq<RuleRow>)
    ensures kept == DropRules(rules, node, names)
  {
    kept := [];
    for i := 0 to |rules|
      invariant kept == DropRules(rules[..i], node, names)
    {
      var row := rules[i];
      assert rules[..i + 1][..i] == rules[..i];
      if row.readonly && node in row.nodes && row.name !in names {
        var detached := WithoutNode(row, node);
        if detached.nodes != {} {
          kept := kept + [detached];
        } else {
          assert row.nodes == {node};
        }
      } else {
        kept := kept + [row];
      }
    }
    assert rules[..|rules|] == rules;
  }

  method SyncRoutingRules(t: RuleTable, node: NodeId, templateRules: seq<Rule>)
    returns (r: Result<RuleTable, RowSync.SyncError>)
    ensures r == match NormalizeAll(templateRules)
                 case Err(p) => Err(RowSync.InvalidRule(p))
                 case Ok(wanted) => Ok(SyncedRules(t, node, wanted))
  {
    match NormalizeAll(templateRules)
    case Err(p) => r := Err(RowSync.InvalidRule(p));
    case Ok(wanted) =>
      NormalizeAllNormal(templateRules);
      var adopted, names := AdoptTemplateRules(t, node, RulesByName(t.rules, node), wanted);
      var kept := DropStaleRules(adopted.rules, node, names);
      r := Ok(adopted.(rules := kept));
  }
}
