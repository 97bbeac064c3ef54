// When the rule sync has nothing left to do.

module RuleFixpoint {
  import opened NodeTables
  import opened RoutingRules
  import opened RuleSync
  import opened RuleSyncProperties
  import opened RuleIsolation
  import opened RuleRecompose
  import opened Sorting

  // The table already agrees with the template, as a reader of the table could check: every
  // read-only rule of the node has a name the template uses, and each template rule finds, under
  // its name, a rule that stands at its position with its content.
  ghost predicate SettledRules(rules: seq<RuleRow>, node: NodeId, wanted: seq<Rule>) {
    && (forall row :: OwnRule(row, rules, node) ==> NameIndex(wanted, row.name).Some?)
    && (forall p :: 0 <= p < |wanted| ==> FoundInPlace(rules, node, wanted, p))
  }

  ghost predicate FoundInPlace(rules: seq<RuleRow>, node: NodeId, wanted: seq<Rule>, p: int)
    requires 0 <= p < |wanted|
  {
    var byName := RulesByName(rules, node);
    && wanted[p].ruleTag in byName
    && exists row :: row in rules && row.id == byName[wanted[p].ruleTag] && row.content == wanted[p] && row.position == p
  }

  lemma SettledKeeps(t: RuleTable, node: NodeId, wanted: seq<Rule>, row: RuleRow)
    requires SoundRules(t.rules, t.nextId) && DistinctNames(wanted)
    requires SettledRules(t.rules, node, wanted) && row in t.rules
    ensures KeptRule(row, node, RulesByName(t.rules, node), wanted) == [row]
  {
    var byName := RulesByName(t.rules, node);
    var index := NameIndex(wanted, row.name);
    if index.Some? {
      assert wanted[index.value] in wanted;
      assert FoundInPlace(t.rules, node, wanted, index.value);
    }
    ChosenIsOwn(t, node, wanted, row);
  }

  lemma {:induction false} KeepsAll(rules: seq<RuleRow>, node: NodeId, byName: map<string, nat>, wanted: seq<Rule>)
    requires forall i :: 0 <= i < |rules| ==> KeptRule(rules[i], node, byName, wanted) == [rules[i]]
    ensures KeptRules(rules, node, byName, wanted) == rules
  {
    if rules != [] {
      KeepsAll(rules[..|rules| - 1], node, byName, wanted);
    }
  }

  lemma {:induction false} CreatesNone(
      rules: seq<RuleRow>, node: NodeId, byName: map<string, nat>, wanted: seq<Rule>, nextId: nat, n: nat)
    requires n <= |wanted| && forall p :: 0 <= p < |wanted| ==> !NeedsRow(rules, node, byName, wanted[p])
    ensures CreatedBelow(rules, node, byName, wanted, nextId, n) == []
  {
    if n > 0 {
      CreatesNone(rules, node, byName, wanted, nextId, n - 1);
    }
  }

  lemma SettledNeedsNone(t: RuleTable, node: NodeId, wanted: seq<Rule>, p: nat)
    requires SoundRules(t.rules, t.nextId) && SettledRules(t.rules, node, wanted) && p < |wanted|
    ensures !NeedsRow(t.rules, node, RulesByName(t.rules, node), wanted[p])
  {
    assert FoundInPlace(t.rules, node, wanted, p);
    var i := LookupIndex(t, node, wanted[p].ruleTag);
  }

  lemma SettledIsFixed(t: RuleTable, node: NodeId, wanted: seq<Rule>)
    requires SoundRules(t.rules, t.nextId) && DistinctNames(wanted)
    requires SettledRules(t.rules, node, wanted)
    ensures SyncedRules(t, node, wanted) == t
  {
    var byName := RulesByName(t.rules, node);
    forall i | 0 <= i < |t.rules| ensures KeptRule(t.rules[i], node, byName, wanted) == [t.rules[i]] {
      SettledKeeps(t, node, wanted, t.rules[i]);
    }
    KeepsAll(t.rules, node, byName, wanted);
    forall p | 0 <= p < |wanted| ensures !NeedsRow(t.rules, node, byName, wanted[p]) {
      SettledNeedsNone(t, node, wanted, p);
    }
    CreatesNone(t.rules, node, byName, wanted, t.nextId, |wanted|);
    SyncClosedForm(t, node, wanted);
  }

  lemma FixedIsSettled(t: RuleTable, node: NodeId, wanted: seq<Rule>)
    requires SoundRules(t.rules, t.nextId) && DistinctNames(wanted)
    requires SyncedRules(t, node, wanted) == t
    ensures SettledRules(t.rules, node, wanted)
  {
    forall row | OwnRule(row, t.rules, node) ensures NameIndex(wanted, row.name).Some? {
      OwnRuleAfter(t, node, wanted, row);
      if Written(row, t, node, wanted) {
        NameIndexUnique(wanted, row.position);
      }
    }
    forall p | 0 <= p < |wanted| ensures FoundInPlace(t.rules, node, wanted, p) {
      var r := EveryRuleWritten(t, node, wanted, p);
      assert r.id < t.nextId;
    }
  }

  // The rule sync leaves the table as it is exactly when the table was settled.
  lemma FixedExactlyWhenSettled(t: RuleTable, node: NodeId, wanted: seq<Rule>)
    requires SoundRules(t.rules, t.nextId) && DistinctNames(wanted)
    ensures SyncedRules(t, node, wanted) == t <==> SettledRules(t.rules, node, wanted)
  {
    if SettledRules(t.rules, node, wanted) {
      SettledIsFixed(t, node, wanted);
    } else if SyncedRules(t, node, wanted) == t {
      FixedIsSettled(t, node, wanted);
    }
  }

  // Without homonyms one sync settles the rules.
  lemma SyncSettlesRules(t: RuleTable, node: NodeId, wanted: seq<Rule>)
    requires SoundRules(t.rules, t.nextId) && DistinctNames(wanted)
    requires NoHomonyms(t.rules, node, wanted)
    ensures SettledRules(SyncedRules(t, node, wanted).rules, node, wanted)
  {
    var after := SyncedRules(t, node, wanted).rules;
    forall row | OwnRule(row, after, node) ensures NameIndex(wanted, row.name).Some? {
      OwnRuleWritten(t, node, wanted, row);
      NameIndexUnique(wanted, row.position);
    }
    forall p | 0 <= p < |wanted| ensures FoundInPlace(after, node, wanted, p) {
      var name := wanted[p].ruleTag;
      var r := EveryRuleWritten(t, node, wanted, p);
      LookupFinds(after, node, name);
      var row :| row in after && row.readonly && node in row.nodes && row.name == name
        && row.id == RulesByName(after, node)[name];
      OwnRuleWritten(t, node, wanted, row);
    }
  }

  lemma OwnRuleWritten(t: RuleTable, node: NodeId, wanted: seq<Rule>, row: RuleRow)
    requires SoundRules(t.rules, t.nextId) && DistinctNames(wanted)
    requires NoHomonyms(t.rules, node, wanted)
    requires OwnRule(row, SyncedRules(t, node, wanted).rules, node)
    ensures Written(row, t, node, wanted)
  {
    HomonymsAreLeftovers(t, node, wanted);
    OwnRuleAfter(t, node, wanted, row);
  }

  // ---- the condition is needed --------------------------------------------------------------

  const RULE_A := Rule("a", "field", "DIRECT", "", "")

  // Two read-only rules named "a" on node 1: update_routing_rule can move one there.
  const HOMONYMS := RuleTable([
    RuleRow(0, "a", RULE_A, true, true, 5, {1}),
    RuleRow(1, "a", RULE_A, true, true, 3, {1})], 2)

  lemma TwoNames(x: RuleRow, y: RuleRow)
    ensures NameMap([x, y]) == map[x.name := x.id][y.name := y.id]
  {
    assert [x, y][..1] == [x] && [x][..0] == [];
    assert NameMap([x]) == map[x.name := x.id];
  }

  lemma TwoSorted(a: RuleRow, b: RuleRow)
    ensures SortBy([a, b], RulePosition) == if a.position <= b.position then [a, b] else [b, a]
  {
    assert [a, b][..1] == [a] && [a][..0] == [];
    assert SortBy([a], RulePosition) == [a];
    if a.position > b.position {
      assert InsertByKey([a], b, RulePosition) == InsertByKey([], b, RulePosition) + [a];
    }
  }

  lemma LookupLast(a: RuleRow, b: RuleRow, node: NodeId)
    requires a.readonly && b.readonly && node in a.nodes && node in b.nodes && a.name == b.name
    ensures RulesByName([a, b], node) == map[a.name := if a.position <= b.position then b.id else a.id]
  {
    assert [a, b][..1] == [a] && [a][..0] == [];
    assert ReadonlyRules([a], node) == [a];
    assert ReadonlyRules([a, b], node) == [a, b];
    TwoSorted(a, b);
    TwoNames(a, b);
    TwoNames(b, a);
  }

  // With a homonym a second sync still moves rules: rule 0 moves first, then rule 1.
  lemma HomonymsMoveAgain()
    ensures SyncedRules(HOMONYMS, 1, [RULE_A])
         == RuleTable([HOMONYMS.rules[0].(position := 0), HOMONYMS.rules[1]], 2)
    ensures SyncedRules(SyncedRules(HOMONYMS, 1, [RULE_A]), 1, [RULE_A]) != SyncedRules(HOMONYMS, 1, [RULE_A])
  {
    var a, b := HOMONYMS.rules[0], HOMONYMS.rules[1];
    OneHomonymSynced(a, b);
    OneHomonymSynced(a.(position := 0), b);
  }

  lemma OneHomonymSynced(a: RuleRow, b: RuleRow)
    requires a == RuleRow(0, "a", RULE_A, true, true, a.position, {1})
    requires b == RuleRow(1, "a", RULE_A, true, true, b.position, {1})
    ensures SyncedRules(RuleTable([a, b], 2), 1, [RULE_A])
         == if a.position <= b.position then RuleTable([a, b.(position := 0)], 2)
            else RuleTable([a.(position := 0), b], 2)
  {
    var t := RuleTable([a, b], 2);
    var byName := RulesByName(t.rules, 1);
    OneHomonymAdopted(a, b);
    assert [RULE_A][..0] == [];
    assert AdoptRules(t, 1, byName, [RULE_A]) == AdoptRule(t, 1, byName, RULE_A, 0);
    assert RULE_A in [RULE_A];
    DropNone(AdoptRule(t, 1, byName, RULE_A, 0).rules, 1, RuleNames([RULE_A]));
  }

  lemma OneHomonymAdopted(a: RuleRow, b: RuleRow)
    requires a == RuleRow(0, "a", RULE_A, true, true, a.position, {1})
    requires b == RuleRow(1, "a", RULE_A, true, true, b.position, {1})
    ensures AdoptRule(RuleTable([a, b], 2), 1, RulesByName([a, b], 1), RULE_A, 0)
         == if a.position <= b.position then RuleTable([a, b.(position := 0)], 2)
            else RuleTable([a.(position := 0), b], 2)
  {
    LookupLast(a, b, 1);
    RuleIndexUnique([a, b], 0);
    RuleIndexUnique([a, b], 1);
  }
}
