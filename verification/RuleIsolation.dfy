// What syncing one node's rules means for every other node: the same rules with the same contents,
// and the same order exactly when the planned positions compare as the old ones did.

module RuleIsolation {
  import opened NodeTables
  import opened RoutingRules
  import opened RuleSync
  import opened RuleSyncProperties
  import opened Sorting
  import opened SortOrder
  import NodeConfig

  function AssignedRules(rules: seq<RuleRow>, node: NodeId): seq<RuleRow> {
    if rules == [] then []
    else if node in rules[|rules| - 1].nodes then AssignedRules(rules[..|rules| - 1], node) + [rules[|rules| - 1]]
    else AssignedRules(rules[..|rules| - 1], node)
  }

  lemma {:induction false} AssignedMembers(rules: seq<RuleRow>, node: NodeId, row: RuleRow)
    ensures row in AssignedRules(rules, node) <==> row in rules && node in row.nodes
  {
    if rules != [] {
      var n := |rules| - 1;
      assert rules == rules[..n] + [rules[n]];
      AssignedMembers(rules[..n], node, row);
    }
  }

  lemma {:induction false} AssignedOrdered(rules: seq<RuleRow>, node: NodeId)
    requires IdOrder(rules)
    ensures IdOrder(AssignedRules(rules, node))
  {
    if rules != [] {
      var n := |rules| - 1;
      AssignedOrdered(rules[..n], node);
      var earlier := AssignedRules(rules[..n], node);
      forall i | 0 <= i < |earlier| ensures earlier[i].id < rules[n].id {
        AssignedMembers(rules[..n], node, earlier[i]);
      }
    }
  }

  lemma {:induction false} NodeRulesAreAssigned(rules: seq<RuleRow>, node: NodeId)
    ensures NodeRules(rules, node) == Map(AssignedRules(rules, node), ViewOf)
  {
    if rules != [] {
      NodeRulesAreAssigned(rules[..|rules| - 1], node);
    }
  }

  // The position a row will have once `node` is synced. A caller can compute it beforehand.
  function PlannedPosition(row: RuleRow, node: NodeId, byName: map<string, nat>, wanted: seq<Rule>): int {
    if Chosen(row, byName, wanted) && !Diverges(row, node, wanted[NameIndex(wanted, row.name).value])
    then NameIndex(wanted, row.name).value
    else row.position
  }

  function Planned(node: NodeId, byName: map<string, nat>, wanted: seq<Rule>): RuleRow -> int {
    row => PlannedPosition(row, node, byName, wanted)
  }

  function PlannedView(node: NodeId, byName: map<string, nat>, wanted: seq<Rule>): RuleRow -> RuleView {
    row => ViewOf(row).(position := PlannedPosition(row, node, byName, wanted))
  }

  // One row, as another node sees it after the sync.
  lemma KeptRuleSeenBy(t: RuleTable, node: NodeId, wanted: seq<Rule>, other: NodeId, i: nat)
    requires SoundRules(t.rules, t.nextId) && other != node && i < |t.rules|
    ensures var byName := RulesByName(t.rules, node);
      NodeRules(KeptRule(t.rules[i], node, byName, wanted), other)
      == if other in t.rules[i].nodes then [PlannedView(node, byName, wanted)(t.rules[i])] else []
  {
    var row := t.rules[i];
    var byName := RulesByName(t.rules, node);
    assert row in t.rules;
    if Chosen(row, byName, wanted) {
      var k := LookupIndex(t, node, row.name);
      assert k == i;
      assert other in row.nodes ==> other in row.nodes - {node};
      assert wanted[NameIndex(wanted, row.name).value] in wanted;
    }
    var kept := KeptRule(row, node, byName, wanted);
    assert |kept| <= 1;
  }

  lemma {:induction false} KeptRulesSeenBy(
      rules: seq<RuleRow>, node: NodeId, byName: map<string, nat>, wanted: seq<Rule>, other: NodeId,
      view: RuleRow -> RuleView)
    requires forall i :: 0 <= i < |rules| ==>
      NodeRules(KeptRule(rules[i], node, byName, wanted), other) == if other in rules[i].nodes then [view(rules[i])] else []
    ensures NodeRules(KeptRules(rules, node, byName, wanted), other) == Map(AssignedRules(rules, other), view)
  {
    if rules != [] {
      var n := |rules| - 1;
      KeptRulesSeenBy(rules[..n], node, byName, wanted, other, view);
      NodeRulesConcat(KeptRules(rules[..n], node, byName, wanted), KeptRule(rules[n], node, byName, wanted), other);
      MapAppend(AssignedRules(rules[..n], other), rules[n], view);
    }
  }

  lemma MapAppend<A, B>(s: seq<A>, x: A, f: A -> B)
    ensures Map(s + [x], f) == Map(s, f) + [f(x)]
  {
    assert (s + [x])[..|s|] == s;
  }

  lemma {:induction false} NotAssigned(rules: seq<RuleRow>, node: NodeId)
    requires forall i :: 0 <= i < |rules| ==> node !in rules[i].nodes
    ensures NodeRules(rules, node) == []
  {
    if rules != [] {
      NotAssigned(rules[..|rules| - 1], node);
    }
  }

  // Isolation: another node keeps its rules, their contents, flags and ids; only the positions of
  // rules it shares with the synced node may move, and they move as planned.
  lemma OtherNodesKeepTheirRules(t: RuleTable, node: NodeId, wanted: seq<Rule>, other: NodeId)
    requires SoundRules(t.rules, t.nextId) && DistinctNames(wanted) && other != node
    ensures NodeRules(SyncedRules(t, node, wanted).rules, other)
         == Map(AssignedRules(t.rules, other), PlannedView(node, RulesByName(t.rules, node), wanted))
  {
    var byName := RulesByName(t.rules, node);
    var created := CreatedRows(t.rules, node, byName, wanted, t.nextId);
    SyncClosedForm(t, node, wanted);
    forall i | 0 <= i < |t.rules| {
      KeptRuleSeenBy(t, node, wanted, other, i);
    }
    KeptRulesSeenBy(t.rules, node, byName, wanted, other, PlannedView(node, byName, wanted));
    forall i | 0 <= i < |created| ensures other !in created[i].nodes {
      CreatedMember(t.rules, node, byName, wanted, t.nextId, i);
    }
    NotAssigned(created, other);
    NodeRulesConcat(KeptRules(t.rules, node, byName, wanted), created, other);
  }

  // The order in which a node's generated config lists its rules.
  function RuleOrder(rules: seq<RuleRow>, node: NodeId): seq<nat> {
    Map(SortBy(NodeRules(rules, node), NodeConfig.ViewPosition), (v: RuleView) => v.id)
  }

  ghost predicate KeepsOrder(rules: seq<RuleRow>, node: NodeId, wanted: seq<Rule>, other: NodeId) {
    SameComparisons(AssignedRules(rules, other), RulePosition, Planned(node, RulesByName(rules, node), wanted))
  }

  lemma SortedAssigned(rows: seq<RuleRow>, view: RuleRow -> RuleView, key: RuleRow -> int)
    requires forall row :: key(row) == view(row).position
    ensures SortBy(Map(rows, view), NodeConfig.ViewPosition) == Map(SortBy(rows, key), view)
  {
    SortMap(rows, view, NodeConfig.ViewPosition, key);
  }

  lemma {:induction false} MappedIds(rows: seq<RuleRow>, view: RuleRow -> RuleView)
    requires forall row :: view(row).id == row.id
    ensures Map(Map(rows, view), (v: RuleView) => v.id) == Map(rows, (row: RuleRow) => row.id)
  {
    MapAt(rows, view);
    MapAt(Map(rows, view), (v: RuleView) => v.id);
    MapAt(rows, (row: RuleRow) => row.id);
  }

  lemma SameIdsSameRows(a: seq<RuleRow>, b: seq<RuleRow>, rows: seq<RuleRow>)
    requires IdOrder(rows)
    requires forall row :: row in a || row in b ==> row in rows
    ensures Map(a, (row: RuleRow) => row.id) == Map(b, (row: RuleRow) => row.id) <==> a == b
  {
    var ids := (row: RuleRow) => row.id;
    MapAt(a, ids);
    MapAt(b, ids);
    if Map(a, ids) == Map(b, ids) {
      forall i | 0 <= i < |a| ensures a[i] == b[i] {
        assert ids(a[i]) == Map(a, ids)[i] == Map(b, ids)[i] == ids(b[i]);
        assert a[i] in rows && b[i] in rows;
      }
    }
  }

  // Another node's rule order survives the sync exactly when every pair of its rules compares by
  // planned position as it did by position.
  lemma OrderKeptExactlyWhen(t: RuleTable, node: NodeId, wanted: seq<Rule>, other: NodeId)
    requires SoundRules(t.rules, t.nextId) && DistinctNames(wanted) && other != node
    ensures RuleOrder(SyncedRules(t, node, wanted).rules, other) == RuleOrder(t.rules, other)
       <==> KeepsOrder(t.rules, node, wanted, other)
  {
    var rows := AssignedRules(t.rules, other);
    var byName := RulesByName(t.rules, node);
    var planned := Planned(node, byName, wanted);
    OtherNodesKeepTheirRules(t, node, wanted, other);
    NodeRulesAreAssigned(t.rules, other);
    SortedAssigned(rows, ViewOf, RulePosition);
    SortedAssigned(rows, PlannedView(node, byName, wanted), planned);
    MappedIds(SortBy(rows, RulePosition), ViewOf);
    MappedIds(SortBy(rows, planned), PlannedView(node, byName, wanted));
    AssignedOrdered(t.rules, other);
    forall row | row in SortBy(rows, RulePosition) || row in SortBy(rows, planned) ensures row in rows {
      SortMembers(rows, RulePosition, row);
      SortMembers(rows, planned, row);
    }
    SameIdsSameRows(SortBy(rows, RulePosition), SortBy(rows, planned), rows);
    SortsAlike(rows, RulePosition, planned);
  }

  lemma {:induction false} EnabledRulesMapped(rows: seq<RuleRow>, view: RuleRow -> RuleView)
    requires forall row :: view(row).content == row.content && view(row).enabled == row.enabled
    ensures NodeConfig.EnabledRules(Map(rows, view)) == NodeConfig.EnabledRules(Map(rows, ViewOf))
  {
    if rows != [] {
      EnabledRulesMapped(rows[..|rows| - 1], view);
    }
  }

  // Under the same condition the generated rules of the other node are the same.
  lemma GeneratedRulesKept(t: RuleTable, node: NodeId, wanted: seq<Rule>, other: NodeId)
    requires SoundRules(t.rules, t.nextId) && DistinctNames(wanted) && other != node
    requires KeepsOrder(t.rules, node, wanted, other)
    ensures NodeConfig.MergedRules(NodeRules(SyncedRules(t, node, wanted).rules, other))
         == NodeConfig.MergedRules(NodeRules(t.rules, other))
  {
    var rows := AssignedRules(t.rules, other);
    var byName := RulesByName(t.rules, node);
    OtherNodesKeepTheirRules(t, node, wanted, other);
    NodeRulesAreAssigned(t.rules, other);
    SortedAssigned(rows, ViewOf, RulePosition);
    SortedAssigned(rows, PlannedView(node, byName, wanted), Planned(node, byName, wanted));
    SortSame(rows, RulePosition, Planned(node, byName, wanted));
    EnabledRulesMapped(SortBy(rows, RulePosition), PlannedView(node, byName, wanted));
  }

  // No read-only rule of the node is shared: then every other order is kept.
  ghost predicate Unshared(rules: seq<RuleRow>, node: NodeId) {
    forall row :: row in rules && row.readonly && node in row.nodes ==> row.nodes == {node}
  }

  lemma UnsharedKeepsOrder(t: RuleTable, node: NodeId, wanted: seq<Rule>, other: NodeId)
    requires SoundRules(t.rules, t.nextId) && other != node
    requires Unshared(t.rules, node)
    ensures KeepsOrder(t.rules, node, wanted, other)
  {
    var rows := AssignedRules(t.rules, other);
    var byName := RulesByName(t.rules, node);
    forall i | 0 <= i < |rows| ensures Planned(node, byName, wanted)(rows[i]) == RulePosition(rows[i]) {
      var row := rows[i];
      AssignedMembers(t.rules, other, row);
      ChosenIsOwn(t, node, wanted, row);
    }
  }

  lemma ChosenIsOwn(t: RuleTable, node: NodeId, wanted: seq<Rule>, row: RuleRow)
    requires SoundRules(t.rules, t.nextId) && row in t.rules
    ensures Chosen(row, RulesByName(t.rules, node), wanted) ==> row.readonly && node in row.nodes
  {
    if Chosen(row, RulesByName(t.rules, node), wanted) {
      var k := LookupIndex(t, node, row.name);
      var j :| 0 <= j < |t.rules| && t.rules[j] == row;
      assert j == k;
    }
  }
}
