// What syncing a node's rules means for that node: its read-only rules are the template's, in the
// template's order, exactly when it had no two of them under one name the template uses; and the
// sync's fixed points.

module RuleRecompose {
  import opened Seqs
  import opened NodeTables
  import opened RoutingRules
  import opened RuleSync
  import opened RuleSyncProperties
  import opened RuleIsolation
  import opened Sorting
  import opened SortOrder
  import opened NodeConfig

  // ---- rows after the sync ------------------------------------------------------------------

  lemma {:induction false} KeptMembers(
      rules: seq<RuleRow>, node: NodeId, byName: map<string, nat>, wanted: seq<Rule>, r: RuleRow)
    ensures r in KeptRules(rules, node, byName, wanted) <==>
      exists row :: row in rules && r in KeptRule(row, node, byName, wanted)
  {
    if rules != [] {
      var n := |rules| - 1;
      assert rules == rules[..n] + [rules[n]];
      KeptMembers(rules[..n], node, byName, wanted, r);
    }
  }

  // A read-only rule of the node.
  ghost predicate OwnRule(row: RuleRow, rules: seq<RuleRow>, node: NodeId) {
    row in rules && row.readonly && node in row.nodes
  }

  // A read-only rule of the node that the template's name lookup misses: another one has its name.
  ghost predicate Leftover(row: RuleRow, rules: seq<RuleRow>, node: NodeId, wanted: seq<Rule>) {
    && OwnRule(row, rules, node)
    && NameIndex(wanted, row.name).Some?
    && row.name in RulesByName(rules, node) && RulesByName(rules, node)[row.name] != row.id
  }

  // A rule written for the template entry at its own position.
  ghost predicate Written(row: RuleRow, t: RuleTable, node: NodeId, wanted: seq<Rule>) {
    && 0 <= row.position < |wanted|
    && row.content == wanted[row.position] && row.name == wanted[row.position].ruleTag
    && row.enabled && row.readonly && node in row.nodes
    && (row.id < t.nextId ==> row.name in RulesByName(t.rules, node) && RulesByName(t.rules, node)[row.name] == row.id)
  }

  // Every row after the sync is what is left of an old one, or new.
  lemma SyncedMember(t: RuleTable, node: NodeId, wanted: seq<Rule>, r: RuleRow)
    requires SoundRules(t.rules, t.nextId) && DistinctNames(wanted)
    ensures
      var byName := RulesByName(t.rules, node);
      r in SyncedRules(t, node, wanted).rules <==>
        || r in CreatedRows(t.rules, node, byName, wanted, t.nextId)
        || exists row :: row in t.rules && r in KeptRule(row, node, byName, wanted)
  {
    SyncClosedForm(t, node, wanted);
    KeptMembers(t.rules, node, RulesByName(t.rules, node), wanted, r);
  }

  lemma OwnRuleAfter(t: RuleTable, node: NodeId, wanted: seq<Rule>, r: RuleRow)
    requires SoundRules(t.rules, t.nextId) && DistinctNames(wanted)
    requires r in SyncedRules(t, node, wanted).rules && r.readonly && node in r.nodes
    ensures Written(r, t, node, wanted) || Leftover(r, t.rules, node, wanted)
  {
    var byName := RulesByName(t.rules, node);
    SyncedMember(t, node, wanted, r);
    if r in CreatedRows(t.rules, node, byName, wanted, t.nextId) {
      CreatedIsWritten(t, node, wanted, r);
    } else {
      var row :| row in t.rules && r in KeptRule(row, node, byName, wanted);
      KeptIsWrittenOrLeft(t, node, wanted, row, r);
    }
  }

  lemma CreatedIsWritten(t: RuleTable, node: NodeId, wanted: seq<Rule>, r: RuleRow)
    requires r in CreatedRows(t.rules, node, RulesByName(t.rules, node), wanted, t.nextId)
    ensures Written(r, t, node, wanted)
  {
    var byName := RulesByName(t.rules, node);
    var created := CreatedRows(t.rules, node, byName, wanted, t.nextId);
    var i :| 0 <= i < |created| && created[i] == r;
    CreatedMember(t.rules, node, byName, wanted, t.nextId, i);
  }

  lemma KeptIsWrittenOrLeft(t: RuleTable, node: NodeId, wanted: seq<Rule>, row: RuleRow, r: RuleRow)
    requires SoundRules(t.rules, t.nextId) && DistinctNames(wanted) && row in t.rules
    requires r in KeptRule(row, node, RulesByName(t.rules, node), wanted) && r.readonly && node in r.nodes
    ensures Written(r, t, node, wanted) || Leftover(r, t.rules, node, wanted)
  {
    LookupFinds(t.rules, node, row.name);
    ChosenIsOwn(t, node, wanted, row);
  }

  lemma LeftoverStays(t: RuleTable, node: NodeId, wanted: seq<Rule>, r: RuleRow)
    requires SoundRules(t.rules, t.nextId) && DistinctNames(wanted)
    requires Leftover(r, t.rules, node, wanted)
    ensures r in SyncedRules(t, node, wanted).rules
  {
    var byName := RulesByName(t.rules, node);
    assert wanted[NameIndex(wanted, r.name).value] in wanted;
    assert r in KeptRule(r, node, byName, wanted);
    SyncedMember(t, node, wanted, r);
  }

  lemma {:induction false} CreatedHas(
      rules: seq<RuleRow>, node: NodeId, byName: map<string, nat>, wanted: seq<Rule>, nextId: nat, n: nat, p: nat)
    requires p < n <= |wanted| && NeedsRow(rules, node, byName, wanted[p])
    ensures exists id ::
      nextId <= id && NewRule(id, wanted[p], p, node) in CreatedBelow(rules, node, byName, wanted, nextId, n)
  {
    var earlier := CreatedBelow(rules, node, byName, wanted, nextId, n - 1);
    var all := CreatedBelow(rules, node, byName, wanted, nextId, n);
    if p < n - 1 {
      CreatedHas(rules, node, byName, wanted, nextId, n - 1, p);
      var id :| nextId <= id && NewRule(id, wanted[p], p, node) in earlier;
      assert earlier <= all;
    } else {
      assert all[|earlier|] == NewRule(nextId + |earlier|, wanted[p], p, node);
    }
  }

  // Every template rule has a written row at its own position.
  lemma EveryRuleWritten(t: RuleTable, node: NodeId, wanted: seq<Rule>, p: nat) returns (r: RuleRow)
    requires SoundRules(t.rules, t.nextId) && DistinctNames(wanted) && p < |wanted|
    ensures r in SyncedRules(t, node, wanted).rules && r.position == p && Written(r, t, node, wanted)
  {
    var byName := RulesByName(t.rules, node);
    SyncClosedForm(t, node, wanted);
    if NeedsRow(t.rules, node, byName, wanted[p]) {
      CreatedHas(t.rules, node, byName, wanted, t.nextId, |wanted|, p);
      var id :| t.nextId <= id
        && NewRule(id, wanted[p], p, node) in CreatedRows(t.rules, node, byName, wanted, t.nextId);
      r := NewRule(id, wanted[p], p, node);
    } else {
      var i := LookupIndex(t, node, wanted[p].ruleTag);
      NameIndexUnique(wanted, p);
      r := Rewritten(t.rules[i], wanted[p], p);
      assert wanted[p] in wanted;
      assert r in KeptRule(t.rules[i], node, byName, wanted);
      KeptMembers(t.rules, node, byName, wanted, r);
    }
  }

  lemma SyncedIdOrder(t: RuleTable, node: NodeId, wanted: seq<Rule>)
    requires SoundRules(t.rules, t.nextId) && DistinctNames(wanted)
    ensures IdOrder(SyncedRules(t, node, wanted).rules)
    ensures forall row :: row in SyncedRules(t, node, wanted).rules ==> row.id < SyncedRules(t, node, wanted).nextId
  {
    var byName := RulesByName(t.rules, node);
    var created := CreatedRows(t.rules, node, byName, wanted, t.nextId);
    var kept := KeptRules(t.rules, node, byName, wanted);
    SyncClosedForm(t, node, wanted);
    assert t.rules[..|t.rules|] == t.rules;
    KeptIdOrder(t.rules, node, byName, wanted);
    forall i | 0 <= i < |created| ensures created[i].id == t.nextId + i {
      CreatedMember(t.rules, node, byName, wanted, t.nextId, i);
    }
    forall i | 0 <= i < |kept| ensures kept[i].id < t.nextId {
      assert kept[i] in kept;
    }
  }

  lemma {:induction false} KeptIdOrder(rules: seq<RuleRow>, node: NodeId, byName: map<string, nat>, wanted: seq<Rule>)
    requires IdOrder(rules)
    ensures IdOrder(KeptRules(rules, node, byName, wanted))
    ensures forall r :: r in KeptRules(rules, node, byName, wanted) ==> exists row :: row in rules && row.id == r.id
  {
    if rules != [] {
      var n := |rules| - 1;
      assert rules == rules[..n] + [rules[n]];
      KeptIdOrder(rules[..n], node, byName, wanted);
      var kept := KeptRules(rules[..n], node, byName, wanted);
      forall i | 0 <= i < |kept| ensures kept[i].id < rules[n].id {
        assert kept[i] in kept;
      }
    }
  }

  // The sync keeps the table's invariants, read-only rules enabled and named by their tag included.
  lemma SyncKeepsRulesSound(t: RuleTable, node: NodeId, wanted: seq<Rule>)
    requires SoundRules(t.rules, t.nextId) && DistinctNames(wanted)
    ensures SoundRules(SyncedRules(t, node, wanted).rules, SyncedRules(t, node, wanted).nextId)
  {
    var byName := RulesByName(t.rules, node);
    var created := CreatedRows(t.rules, node, byName, wanted, t.nextId);
    SyncedIdOrder(t, node, wanted);
    SyncClosedForm(t, node, wanted);
    forall r | r in SyncedRules(t, node, wanted).rules && r.readonly
      ensures r.enabled && r.name == r.content.ruleTag
    {
      ReadonlyNamedByTag(t, node, wanted, r);
    }
  }

  lemma ReadonlyNamedByTag(t: RuleTable, node: NodeId, wanted: seq<Rule>, r: RuleRow)
    requires SoundRules(t.rules, t.nextId) && DistinctNames(wanted)
    requires r in SyncedRules(t, node, wanted).rules && r.readonly
    ensures r.enabled && r.name == r.content.ruleTag
  {
    var byName := RulesByName(t.rules, node);
    var created := CreatedRows(t.rules, node, byName, wanted, t.nextId);
    SyncClosedForm(t, node, wanted);
    if r in created {
      var i :| 0 <= i < |created| && created[i] == r;
      CreatedMember(t.rules, node, byName, wanted, t.nextId, i);
    } else {
      KeptMembers(t.rules, node, byName, wanted, r);
      var row :| row in t.rules && r in KeptRule(row, node, byName, wanted);
      KeptNamedByTag(row, node, byName, wanted, r);
    }
  }

  lemma KeptNamedByTag(row: RuleRow, node: NodeId, byName: map<string, nat>, wanted: seq<Rule>, r: RuleRow)
    requires row.readonly ==> row.enabled && row.name == row.content.ruleTag
    requires r in KeptRule(row, node, byName, wanted) && r.readonly
    ensures r.enabled && r.name == r.content.ruleTag
  {
  }

  // Every stored rule keeps a tag.
  lemma SyncKeepsNamed(t: RuleTable, node: NodeId, wanted: seq<Rule>)
    requires SoundRules(t.rules, t.nextId) && DistinctNames(wanted) && NamedRows(t.rules)
    requires forall rule :: rule in wanted ==> rule.ruleTag != ""
    ensures NamedRows(SyncedRules(t, node, wanted).rules)
  {
    var byName := RulesByName(t.rules, node);
    var created := CreatedRows(t.rules, node, byName, wanted, t.nextId);
    forall r | r in SyncedRules(t, node, wanted).rules ensures r.content.ruleTag != "" {
      SyncedMember(t, node, wanted, r);
      if r in created {
        var i :| 0 <= i < |created| && created[i] == r;
        CreatedMember(t.rules, node, byName, wanted, t.nextId, i);
      } else {
        var row :| row in t.rules && r in KeptRule(row, node, byName, wanted);
        KeptContent(row, node, byName, wanted, r);
      }
    }
  }

  lemma KeptContent(row: RuleRow, node: NodeId, byName: map<string, nat>, wanted: seq<Rule>, r: RuleRow)
    requires r in KeptRule(row, node, byName, wanted)
    ensures r.content == row.content || r.content in wanted
  {
  }

  // ---- recomposition ------------------------------------------------------------------------

  // No two read-only rules of the node share a name that the template uses.
  ghost predicate NoHomonyms(rules: seq<RuleRow>, node: NodeId, wanted: seq<Rule>) {
    forall a, b :: OwnRule(a, rules, node) && OwnRule(b, rules, node) && a.name == b.name ==>
      NameIndex(wanted, a.name).Some? ==> a.id == b.id
  }

  lemma HomonymsAreLeftovers(t: RuleTable, node: NodeId, wanted: seq<Rule>)
    requires SoundRules(t.rules, t.nextId)
    ensures NoHomonyms(t.rules, node, wanted) <==> !exists row :: Leftover(row, t.rules, node, wanted)
  {
    var byName := RulesByName(t.rules, node);
    if row :| Leftover(row, t.rules, node, wanted) {
      var i := LookupIndex(t, node, row.name);
      assert t.rules[i] in t.rules;
    }
    if !NoHomonyms(t.rules, node, wanted) {
      var a, b :| OwnRule(a, t.rules, node) && OwnRule(b, t.rules, node) && a.name == b.name
               && NameIndex(wanted, a.name).Some? && a.id != b.id;
      LookupFinds(t.rules, node, a.name);
      assert Leftover(a, t.rules, node, wanted) || Leftover(b, t.rules, node, wanted);
    }
  }

  function IsReadonlyView(v: RuleView): bool { v.readonly }

  function ContentOf(v: RuleView): Rule { v.content }

  // The node's read-only rules, in the order the generated config lists them.
  function ReadonlyOrder(rules: seq<RuleRow>, node: NodeId): seq<RuleView> {
    Filter(SortBy(NodeRules(rules, node), ViewPosition), IsReadonlyView)
  }

  lemma ReadonlyOrderFacts(rules: seq<RuleRow>, node: NodeId, v: RuleView)
    requires IdOrder(rules)
    ensures SortedBy(ReadonlyOrder(rules, node), ViewPosition)
    ensures NoDuplicates(ReadonlyOrder(rules, node))
    ensures v in ReadonlyOrder(rules, node) <==>
      exists row :: OwnRule(row, rules, node) && v == ViewOf(row)
  {
    var views := NodeRules(rules, node);
    var own := Filter(views, IsReadonlyView);
    SortFilter(views, ViewPosition, IsReadonlyView);
    SortSorted(own, ViewPosition);
    NodeRulesOrdered(rules, node);
    FilterNoDuplicates(views, IsReadonlyView);
    SortNoDuplicates(own, ViewPosition);
    SortMembers(own, ViewPosition, v);
    FilterMembers(views, IsReadonlyView, v);
    NodeRulesMembers(rules, node, v);
  }

  lemma {:induction false} FilterNoDuplicates<T>(s: seq<T>, p: T -> bool)
    requires NoDuplicates(s)
    ensures NoDuplicates(Filter(s, p))
  {
    if s != [] {
      var n := |s| - 1;
      FilterNoDuplicates(s[..n], p);
      FilterMembers(s[..n], p, s[n]);
    }
  }

  ghost predicate Occupied(s: seq<RuleView>, position: int) {
    exists i :: 0 <= i < |s| && s[i].position == position
  }

  ghost predicate Ascending(s: seq<RuleView>) {
    forall i, j :: 0 <= i < j < |s| ==> s[i].position < s[j].position
  }

  lemma {:induction false} PositionAtLeastIndex(s: seq<RuleView>, i: nat)
    requires Ascending(s) && i < |s| && s[0].position >= 0
    ensures s[i].position >= i
  {
    if i != 0 {
      PositionAtLeastIndex(s, i - 1);
    }
  }

  lemma {:induction false} PositionIsIndex(s: seq<RuleView>, i: nat, n: nat)
    requires Ascending(s) && i < |s| && s[0].position >= 0 && s[i].position < n
    requires forall p :: 0 <= p < n ==> Occupied(s, p)
    ensures s[i].position == i
  {
    PositionAtLeastIndex(s, i);
    assert Occupied(s, i);
    var k :| 0 <= k < |s| && s[k].position == i;
    PositionAtLeastIndex(s, k);
    if k < i {
      PositionIsIndex(s, k, n);
    }
  }

  // A sorted list whose entries sit at the positions 0 .. n-1, one each, lists them in order.
  lemma OnePerPosition(s: seq<RuleView>, wanted: seq<Rule>)
    requires SortedBy(s, ViewPosition)
    requires forall i, j :: 0 <= i < j < |s| ==> s[i].position != s[j].position
    requires forall i :: 0 <= i < |s| ==> 0 <= s[i].position < |wanted| && s[i].content == wanted[s[i].position]
    requires forall p :: 0 <= p < |wanted| ==> Occupied(s, p)
    ensures Map(s, ContentOf) == wanted
  {
    forall i, j | 0 <= i < j < |s| ensures s[i].position < s[j].position {
      assert ViewPosition(s[i]) <= ViewPosition(s[j]);
    }
    forall i | 0 <= i < |s| ensures s[i].position == i {
      PositionIsIndex(s, i, |wanted|);
    }
    assert |wanted| > 0 ==> Occupied(s, |wanted| - 1);
    MapAt(s, ContentOf);
  }

  lemma WrittenOnce(t: RuleTable, node: NodeId, wanted: seq<Rule>, a: RuleRow, b: RuleRow)
    requires SoundRules(t.rules, t.nextId) && DistinctNames(wanted)
    requires a in SyncedRules(t, node, wanted).rules && b in SyncedRules(t, node, wanted).rules
    requires Written(a, t, node, wanted) && Written(b, t, node, wanted) && a.position == b.position
    ensures a.id == b.id
  {
    var byName := RulesByName(t.rules, node);
    var created := CreatedRows(t.rules, node, byName, wanted, t.nextId);
    SyncClosedForm(t, node, wanted);
    if a in created && b in created {
      var i :| 0 <= i < |created| && created[i] == a;
      var j :| 0 <= j < |created| && created[j] == b;
      CreatedPositions(t.rules, node, byName, wanted, t.nextId, |wanted|);
    } else if a !in created {
      WrittenKept(t, node, wanted, a);
      if b in created {
        WrittenCreated(t, node, wanted, b);
      } else {
        WrittenKept(t, node, wanted, b);
      }
    } else {
      WrittenCreated(t, node, wanted, a);
      WrittenKept(t, node, wanted, b);
    }
  }

  lemma WrittenCreated(t: RuleTable, node: NodeId, wanted: seq<Rule>, r: RuleRow)
    requires r in CreatedRows(t.rules, node, RulesByName(t.rules, node), wanted, t.nextId)
    requires 0 <= r.position < |wanted|
    ensures NeedsRow(t.rules, node, RulesByName(t.rules, node), wanted[r.position])
  {
    var byName := RulesByName(t.rules, node);
    var created := CreatedRows(t.rules, node, byName, wanted, t.nextId);
    var i :| 0 <= i < |created| && created[i] == r;
    CreatedMember(t.rules, node, byName, wanted, t.nextId, i);
  }

  lemma WrittenKept(t: RuleTable, node: NodeId, wanted: seq<Rule>, r: RuleRow)
    requires SoundRules(t.rules, t.nextId) && DistinctNames(wanted)
    requires r in KeptRules(t.rules, node, RulesByName(t.rules, node), wanted)
    requires Written(r, t, node, wanted)
    ensures !NeedsRow(t.rules, node, RulesByName(t.rules, node), wanted[r.position])
    ensures r.name in RulesByName(t.rules, node) && RulesByName(t.rules, node)[r.name] == r.id
  {
    var byName := RulesByName(t.rules, node);
    KeptMembers(t.rules, node, byName, wanted, r);
    var row :| row in t.rules && r in KeptRule(row, node, byName, wanted);
    NameIndexUnique(wanted, r.position);
    var i := LookupIndex(t, node, r.name);
    var j :| 0 <= j < |t.rules| && t.rules[j] == row;
    assert i == j;
    assert Chosen(row, byName, wanted);
  }

  ghost predicate PositionsIncrease(rows: seq<RuleRow>) {
    forall i, j :: 0 <= i < j < |rows| ==> rows[i].position < rows[j].position
  }

  lemma {:induction false} CreatedPositions(
      rules: seq<RuleRow>, node: NodeId, byName: map<string, nat>, wanted: seq<Rule>, nextId: nat, n: nat)
    requires n <= |wanted|
    ensures PositionsIncrease(CreatedBelow(rules, node, byName, wanted, nextId, n))
  {
    if n > 0 {
      var earlier := CreatedBelow(rules, node, byName, wanted, nextId, n - 1);
      CreatedPositions(rules, node, byName, wanted, nextId, n - 1);
      forall i | 0 <= i < |earlier| ensures earlier[i].position < n - 1 {
        CreatedBelowMember(rules, node, byName, wanted, nextId, n - 1, i);
      }
    }
  }

  lemma OwnViewWritten(t: RuleTable, node: NodeId, wanted: seq<Rule>, v: RuleView) returns (row: RuleRow)
    requires SoundRules(t.rules, t.nextId) && DistinctNames(wanted)
    requires NoHomonyms(t.rules, node, wanted)
    requires v in ReadonlyOrder(SyncedRules(t, node, wanted).rules, node)
    ensures row in SyncedRules(t, node, wanted).rules && v == ViewOf(row) && Written(row, t, node, wanted)
  {
    var after := SyncedRules(t, node, wanted).rules;
    SyncedIdOrder(t, node, wanted);
    HomonymsAreLeftovers(t, node, wanted);
    ReadonlyOrderFacts(after, node, v);
    row :| row in after && row.readonly && node in row.nodes && v == ViewOf(row);
    OwnRuleAfter(t, node, wanted, row);
  }

  lemma OwnViewsApart(t: RuleTable, node: NodeId, wanted: seq<Rule>, i: nat, j: nat)
    requires SoundRules(t.rules, t.nextId) && DistinctNames(wanted)
    requires NoHomonyms(t.rules, node, wanted)
    requires i < j < |ReadonlyOrder(SyncedRules(t, node, wanted).rules, node)|
    ensures var order := ReadonlyOrder(SyncedRules(t, node, wanted).rules, node);
      order[i].position != order[j].position
  {
    var after := SyncedRules(t, node, wanted).rules;
    var order := ReadonlyOrder(after, node);
    SyncedIdOrder(t, node, wanted);
    ReadonlyOrderFacts(after, node, order[i]);
    var a := OwnViewWritten(t, node, wanted, order[i]);
    var b := OwnViewWritten(t, node, wanted, order[j]);
    if a.position == b.position {
      WrittenOnce(t, node, wanted, a, b);
    }
  }

  // Without homonyms the read-only rules come back as the template's, in its order.
  lemma RulesRecomposed(t: RuleTable, node: NodeId, wanted: seq<Rule>)
    requires SoundRules(t.rules, t.nextId) && DistinctNames(wanted)
    requires NoHomonyms(t.rules, node, wanted)
    ensures Map(ReadonlyOrder(SyncedRules(t, node, wanted).rules, node), ContentOf) == wanted
  {
    var after := SyncedRules(t, node, wanted).rules;
    var order := ReadonlyOrder(after, node);
    SyncedIdOrder(t, node, wanted);
    forall i | 0 <= i < |order|
      ensures 0 <= order[i].position < |wanted| && order[i].content == wanted[order[i].position]
    {
      var row := OwnViewWritten(t, node, wanted, order[i]);
    }
    forall i, j | 0 <= i < j < |order| ensures order[i].position != order[j].position {
      OwnViewsApart(t, node, wanted, i, j);
    }
    forall p | 0 <= p < |wanted| ensures Occupied(order, p) {
      var r := EveryRuleWritten(t, node, wanted, p);
      ReadonlyOrderFacts(after, node, ViewOf(r));
      var i :| 0 <= i < |order| && order[i] == ViewOf(r);
    }
    SortedBySelf(after, node);
    OnePerPosition(order, wanted);
  }

  lemma SortedBySelf(rules: seq<RuleRow>, node: NodeId)
    ensures SortedBy(ReadonlyOrder(rules, node), ViewPosition)
  {
    SortFilter(NodeRules(rules, node), ViewPosition, IsReadonlyView);
    SortSorted(Filter(NodeRules(rules, node), IsReadonlyView), ViewPosition);
  }

  // With a homonym they do not: the missed rule stays beside the one written under its name.
  lemma HomonymSpoilsRules(t: RuleTable, node: NodeId, wanted: seq<Rule>, extra: RuleRow)
    requires SoundRules(t.rules, t.nextId) && DistinctNames(wanted)
    requires Leftover(extra, t.rules, node, wanted)
    ensures Map(ReadonlyOrder(SyncedRules(t, node, wanted).rules, node), ContentOf) != wanted
  {
    var after := SyncedRules(t, node, wanted).rules;
    var order := ReadonlyOrder(after, node);
    SyncedIdOrder(t, node, wanted);
    LeftoverStays(t, node, wanted, extra);
    var r := EveryRuleWritten(t, node, wanted, NameIndex(wanted, extra.name).value);
    ReadonlyOrderFacts(after, node, ViewOf(extra));
    ReadonlyOrderFacts(after, node, ViewOf(r));
    var i :| 0 <= i < |order| && order[i] == ViewOf(extra);
    var j :| 0 <= j < |order| && order[j] == ViewOf(r);
    assert extra.id < t.nextId;
    assert i != j;
    MapAt(order, ContentOf);
    assert Map(order, ContentOf)[i].ruleTag == Map(order, ContentOf)[j].ruleTag;
  }

  // The template's rules come back, all of them and in order, exactly when the node had no two
  // read-only rules under one name of the template.
  lemma RulesRecomposedExactlyWhen(t: RuleTable, node: NodeId, wanted: seq<Rule>)
    requires SoundRules(t.rules, t.nextId) && DistinctNames(wanted)
    ensures Map(ReadonlyOrder(SyncedRules(t, node, wanted).rules, node), ContentOf) == wanted
       <==> NoHomonyms(t.rules, node, wanted)
  {
    HomonymsAreLeftovers(t, node, wanted);
    if NoHomonyms(t.rules, node, wanted) {
      RulesRecomposed(t, node, wanted);
    } else {
      var extra :| Leftover(extra, t.rules, node, wanted);
      HomonymSpoilsRules(t, node, wanted, extra);
    }
  }
}
