// The closed form of the rule sync: each old rule decided on its own, then the new rules in order.

module RuleSyncProperties {
  import opened Wrappers
  import opened Seqs
  import opened NodeTables
  import opened RoutingRules
  import opened RuleSync
  import opened Sorting

  // ---- lookups ------------------------------------------------------------------------------

  lemma {:induction false} ReadonlyMembers(rules: seq<RuleRow>, node: NodeId, row: RuleRow)
    ensures row in ReadonlyRules(rules, node) <==> row in rules && row.readonly && node in row.nodes
  {
    if rules != [] {
      var n := |rules| - 1;
      assert rules == rules[..n] + [rules[n]];
      ReadonlyMembers(rules[..n], node, row);
    }
  }

  lemma {:induction false} NameMapMembers(rows: seq<RuleRow>, name: string)
    ensures name in NameMap(rows) <==> exists row :: row in rows && row.name == name
    ensures name in NameMap(rows) ==> exists row :: row in rows && row.name == name && row.id == NameMap(rows)[name]
  {
    if rows != [] {
      var n := |rows| - 1;
      assert rows == rows[..n] + [rows[n]];
      NameMapMembers(rows[..n], name);
    }
  }

  // The lookup table names one read-only rule of the node for each name such rules have.
  lemma LookupFinds(rules: seq<RuleRow>, node: NodeId, name: string)
    ensures name in RulesByName(rules, node) <==>
      exists row :: row in rules && row.readonly && node in row.nodes && row.name == name
    ensures name in RulesByName(rules, node) ==>
      exists row :: row in rules && row.readonly && node in row.nodes && row.name == name
        && row.id == RulesByName(rules, node)[name]
  {
    var own := ReadonlyRules(rules, node);
    var sorted := SortBy(own, RulePosition);
    NameMapMembers(sorted, name);
    forall row ensures row in sorted <==> row in rules && row.readonly && node in row.nodes {
      SortMembers(own, RulePosition, row);
      ReadonlyMembers(rules, node, row);
    }
  }

  lemma RuleIndexUnique(rules: seq<RuleRow>, i: nat)
    requires IdOrder(rules) && i < |rules|
    ensures RuleIndex(rules, rules[i].id) == Some(i)
  {
    RuleIndexBelowUnique(rules, i, |rules|);
  }

  lemma {:induction false} RuleIndexBelowUnique(rules: seq<RuleRow>, i: nat, n: nat)
    requires IdOrder(rules) && i < n <= |rules|
    ensures RuleIndexBelow(rules, rules[i].id, n) == Some(i)
  {
    if i != n - 1 {
      RuleIndexBelowUnique(rules, i, n - 1);
    }
  }

  function NameIndex(wanted: seq<Rule>, name: string): (p: Option<nat>)
    ensures p.Some? ==> p.value < |wanted| && wanted[p.value].ruleTag == name
    ensures p.None? ==> forall rule :: rule in wanted ==> rule.ruleTag != name
  {
    if wanted == [] then None
    else if wanted[|wanted| - 1].ruleTag == name then Some(|wanted| - 1)
    else NameIndex(wanted[..|wanted| - 1], name)
  }

  lemma NameIndexUnique(wanted: seq<Rule>, p: nat)
    requires DistinctNames(wanted) && p < |wanted|
    ensures NameIndex(wanted, wanted[p].ruleTag) == Some(p)
  {
    assert wanted[p] in wanted;
  }

  // ---- closed form --------------------------------------------------------------------------

  // The rule the lookup table finds under its name, and which the template still has.
  predicate Chosen(row: RuleRow, byName: map<string, nat>, wanted: seq<Rule>) {
    row.name in byName && byName[row.name] == row.id && NameIndex(wanted, row.name).Some?
  }

  function AdoptedRule(row: RuleRow, node: NodeId, byName: map<string, nat>, wanted: seq<Rule>): RuleRow {
    if !Chosen(row, byName, wanted) then row
    else
      var p := NameIndex(wanted, row.name).value;
      if Diverges(row, node, wanted[p]) then WithoutNode(row, node) else Rewritten(row, wanted[p], p)
  }

  function AdoptedRows(rules: seq<RuleRow>, node: NodeId, byName: map<string, nat>, wanted: seq<Rule>): (r: seq<RuleRow>)
    ensures |r| == |rules|
    ensures forall i :: 0 <= i < |rules| ==> r[i] == AdoptedRule(rules[i], node, byName, wanted)
  {
    seq(|rules|, i requires 0 <= i < |rules| => AdoptedRule(rules[i], node, byName, wanted))
  }

  // A template rule gets a new row when the node has none under its name to rewrite.
  predicate NeedsRow(rules: seq<RuleRow>, node: NodeId, byName: map<string, nat>, content: Rule) {
    content.ruleTag in byName ==>
      var found := RuleIndex(rules, byName[content.ruleTag]);
      found.Some? ==> Diverges(rules[found.value], node, content)
  }

  function CreatedRows(
      rules: seq<RuleRow>, node: NodeId, byName: map<string, nat>, wanted: seq<Rule>, nextId: nat): seq<RuleRow>
  {
    CreatedBelow(rules, node, byName, wanted, nextId, |wanted|)
  }

  // The new rows of the first n template rules.
  function CreatedBelow(
      rules: seq<RuleRow>, node: NodeId, byName: map<string, nat>, wanted: seq<Rule>, nextId: nat, n: nat): seq<RuleRow>
    requires n <= |wanted|
  {
    if n == 0 then []
    else
      var earlier := CreatedBelow(rules, node, byName, wanted, nextId, n - 1);
      if NeedsRow(rules, node, byName, wanted[n - 1])
      then earlier + [NewRule(nextId + |earlier|, wanted[n - 1], n - 1, node)]
      else earlier
  }

  ghost predicate IsCreated(
      row: RuleRow, rules: seq<RuleRow>, node: NodeId, byName: map<string, nat>, wanted: seq<Rule>)
  {
    && 0 <= row.position < |wanted|
    && row == NewRule(row.id, wanted[row.position], row.position, node)
    && NeedsRow(rules, node, byName, wanted[row.position])
  }

  lemma CreatedMember(
      rules: seq<RuleRow>, node: NodeId, byName: map<string, nat>, wanted: seq<Rule>, nextId: nat, i: nat)
    requires i < |CreatedRows(rules, node, byName, wanted, nextId)|
    ensures CreatedRows(rules, node, byName, wanted, nextId)[i].id == nextId + i
    ensures IsCreated(CreatedRows(rules, node, byName, wanted, nextId)[i], rules, node, byName, wanted)
  {
    CreatedBelowMember(rules, node, byName, wanted, nextId, |wanted|, i);
  }

  lemma {:induction false} CreatedBelowMember(
      rules: seq<RuleRow>, node: NodeId, byName: map<string, nat>, wanted: seq<Rule>, nextId: nat, n: nat, i: nat)
    requires n <= |wanted| && i < |CreatedBelow(rules, node, byName, wanted, nextId, n)|
    ensures
      var row := CreatedBelow(rules, node, byName, wanted, nextId, n)[i];
      row.id == nextId + i && row.position < n && IsCreated(row, rules, node, byName, wanted)
  {
    if i < |CreatedBelow(rules, node, byName, wanted, nextId, n - 1)| {
      CreatedBelowMember(rules, node, byName, wanted, nextId, n - 1, i);
    }
  }

  // Later template rules change nothing about earlier ones' rows.
  lemma {:induction false} CreatedBelowExtend(
      rules: seq<RuleRow>, node: NodeId, byName: map<string, nat>, seen: seq<Rule>, content: Rule, nextId: nat, n: nat)
    requires n <= |seen|
    ensures CreatedBelow(rules, node, byName, seen + [content], nextId, n)
         == CreatedBelow(rules, node, byName, seen, nextId, n)
  {
    if n > 0 {
      CreatedBelowExtend(rules, node, byName, seen, content, nextId, n - 1);
      assert (seen + [content])[n - 1] == seen[n - 1];
    }
  }

  lemma AdoptedIdOrder(t: RuleTable, node: NodeId, byName: map<string, nat>, wanted: seq<Rule>)
    requires SoundRules(t.rules, t.nextId)
    ensures IdOrder(AdoptedRows(t.rules, node, byName, wanted) + CreatedRows(t.rules, node, byName, wanted, t.nextId))
  {
    var adopted := AdoptedRows(t.rules, node, byName, wanted);
    var created := CreatedRows(t.rules, node, byName, wanted, t.nextId);
    forall i | 0 <= i < |created| ensures created[i].id == t.nextId + i {
      CreatedMember(t.rules, node, byName, wanted, t.nextId, i);
    }
    forall i | 0 <= i < |adopted| ensures adopted[i].id == t.rules[i].id < t.nextId {
      assert t.rules[i] in t.rules;
    }
  }

  lemma NameIndexExtend(wanted: seq<Rule>, content: Rule, name: string)
    ensures NameIndex(wanted + [content], name)
         == if content.ruleTag == name then Some(|wanted|) else NameIndex(wanted, name)
  {
    assert (wanted + [content])[..|wanted|] == wanted;
  }

  // The table after the rounds for the template rules seen so far: each old row on its own, then the new ones.
  function ClosedTable(t: RuleTable, node: NodeId, byName: map<string, nat>, seen: seq<Rule>): RuleTable {
    var created := CreatedRows(t.rules, node, byName, seen, t.nextId);
    RuleTable(AdoptedRows(t.rules, node, byName, seen) + created, t.nextId + |created|)
  }

  // The whole template loop rewrites each chosen row once and appends the new rows in order.
  lemma {:induction false} AdoptClosedForm(t: RuleTable, node: NodeId, wanted: seq<Rule>)
    requires SoundRules(t.rules, t.nextId) && DistinctNames(wanted)
    ensures var byName := RulesByName(t.rules, node);
      AdoptRules(t, node, byName, wanted) == ClosedTable(t, node, byName, wanted)
  {
    var byName := RulesByName(t.rules, node);
    if wanted == [] {
      assert AdoptedRows(t.rules, node, byName, wanted) == t.rules;
    } else {
      var n := |wanted| - 1;
      assert wanted == wanted[..n] + [wanted[n]];
      AdoptClosedForm(t, node, wanted[..n]);
      AdoptClosedStep(t, node, wanted[..n], wanted[n], wanted);
    }
  }

  // A round leaves the table in closed form again.
  lemma AdoptClosedStep(t: RuleTable, node: NodeId, seen: seq<Rule>, content: Rule, next: seq<Rule>)
    requires SoundRules(t.rules, t.nextId) && DistinctNames(next) && next == seen + [content]
    ensures
      var byName := RulesByName(t.rules, node);
      AdoptRule(ClosedTable(t, node, byName, seen), node, byName, content, |seen|) == ClosedTable(t, node, byName, next)
  {
    var byName := RulesByName(t.rules, node);
    var older, created := AdoptedRows(t.rules, node, byName, seen), CreatedRows(t.rules, node, byName, seen, t.nextId);
    var older', created' := AdoptedRows(t.rules, node, byName, next), CreatedRows(t.rules, node, byName, next, t.nextId);
    var found := AdoptStep(t, node, byName, seen, content);
    AdoptAt(older, created, older', created', t.nextId, node, found, content, |seen|);
  }

  // How a round changes the two parts of the table.
  predicate Stepped(older: seq<RuleRow>, created: seq<RuleRow>, older': seq<RuleRow>, created': seq<RuleRow>,
                    base: nat, node: NodeId, found: Option<nat>, content: Rule, position: nat)
  {
    var added := [NewRule(base + |created|, content, position, node)];
    match found
    case None => older' == older && created' == created + added
    case Some(i) =>
      && i < |older|
      && if Diverges(older[i], node, content)
         then older' == older[i := WithoutNode(older[i], node)] && created' == created + added
         else older' == older[i := Rewritten(older[i], content, position)] && created' == created
  }

  lemma AdoptAt(older: seq<RuleRow>, created: seq<RuleRow>, older': seq<RuleRow>, created': seq<RuleRow>, base: nat,
                node: NodeId, found: Option<nat>, content: Rule, position: nat)
    requires Stepped(older, created, older', created', base, node, found, content, position)
    ensures AdoptFound(RuleTable(older + created, base + |created|), node, found, content, position)
         == RuleTable(older' + created', base + |created'|)
  {
    var added := [NewRule(base + |created|, content, position, node)];
    Regroup(older', created, added);
    if found.Some? {
      var i := found.value;
      assert (older + created)[i] == older[i];
      assert (older + created)[i := older'[i]] == older' + created;
    }
  }

  lemma AdoptStep(t: RuleTable, node: NodeId, byName: map<string, nat>, seen: seq<Rule>, content: Rule)
    returns (found: Option<nat>)
    requires SoundRules(t.rules, t.nextId) && DistinctNames(seen + [content]) && byName == RulesByName(t.rules, node)
    ensures
      found == if content.ruleTag in byName
               then RuleIndex(ClosedTable(t, node, byName, seen).rules, byName[content.ruleTag]) else None
    ensures Stepped(
      AdoptedRows(t.rules, node, byName, seen), CreatedRows(t.rules, node, byName, seen, t.nextId),
      AdoptedRows(t.rules, node, byName, seen + [content]), CreatedRows(t.rules, node, byName, seen + [content], t.nextId),
      t.nextId, node, found, content, |seen|)
  {
    CreatedStep(t.rules, node, byName, seen, content, t.nextId);
    if content.ruleTag in byName {
      var i := LookupIndex(t, node, content.ruleTag);
      NewNameUnseen(seen, content);
      AdoptedIndex(t, node, byName, seen, i);
      AdoptedFound(t, byName, node, seen, content, i);
      found := Some(i);
    } else {
      AdoptedMissing(t.rules, node, byName, seen, content);
      found := None;
    }
  }

  lemma CreatedStep(
      rules: seq<RuleRow>, node: NodeId, byName: map<string, nat>, seen: seq<Rule>, content: Rule, nextId: nat)
    ensures
      var created := CreatedRows(rules, node, byName, seen, nextId);
      CreatedRows(rules, node, byName, seen + [content], nextId)
      == if NeedsRow(rules, node, byName, content)
         then created + [NewRule(nextId + |created|, content, |seen|, node)] else created
  {
    CreatedBelowExtend(rules, node, byName, seen, content, nextId, |seen|);
  }

  lemma AdoptedFound(t: RuleTable, byName: map<string, nat>, node: NodeId, seen: seq<Rule>, content: Rule, i: nat)
    requires NameIndex(seen, content.ruleTag).None?
    requires i < |t.rules| && t.rules[i].name == content.ruleTag
    requires content.ruleTag in byName && byName[content.ruleTag] == t.rules[i].id
    requires forall k :: 0 <= k < |t.rules| && k != i ==> t.rules[k].id != t.rules[i].id
    ensures AdoptedRows(t.rules, node, byName, seen)[i] == t.rules[i]
    ensures AdoptedRows(t.rules, node, byName, seen + [content])
         == AdoptedRows(t.rules, node, byName, seen)[
              i := if Diverges(t.rules[i], node, content) then WithoutNode(t.rules[i], node)
                   else Rewritten(t.rules[i], content, |seen|)]
  {
    var row := if Diverges(t.rules[i], node, content) then WithoutNode(t.rules[i], node)
               else Rewritten(t.rules[i], content, |seen|);
    forall k | 0 <= k < |t.rules|
      ensures AdoptedRule(t.rules[k], node, byName, seen + [content])
           == if k == i then row else AdoptedRule(t.rules[k], node, byName, seen)
    {
      AdoptedExtend(t.rules[k], node, byName, seen, content);
    }
  }

  lemma AdoptedMissing(rules: seq<RuleRow>, node: NodeId, byName: map<string, nat>, seen: seq<Rule>, content: Rule)
    requires content.ruleTag !in byName
    ensures AdoptedRows(rules, node, byName, seen + [content]) == AdoptedRows(rules, node, byName, seen)
  {
    forall k | 0 <= k < |rules| {
      AdoptedExtend(rules[k], node, byName, seen, content);
    }
  }

  lemma AdoptedIndex(t: RuleTable, node: NodeId, byName: map<string, nat>, seen: seq<Rule>, i: nat)
    requires SoundRules(t.rules, t.nextId) && i < |t.rules|
    ensures
      var table := AdoptedRows(t.rules, node, byName, seen) + CreatedRows(t.rules, node, byName, seen, t.nextId);
      RuleIndex(table, t.rules[i].id) == Some(i)
  {
    var before := AdoptedRows(t.rules, node, byName, seen);
    var table := before + CreatedRows(t.rules, node, byName, seen, t.nextId);
    AdoptedIdOrder(t, node, byName, seen);
    assert table[i] == before[i];
    RuleIndexUnique(table, i);
  }

  // The row a name in the lookup table stands for.
  lemma LookupIndex(t: RuleTable, node: NodeId, name: string) returns (i: nat)
    requires SoundRules(t.rules, t.nextId) && name in RulesByName(t.rules, node)
    ensures i < |t.rules| && t.rules[i].id == RulesByName(t.rules, node)[name] && t.rules[i].name == name
    ensures t.rules[i].readonly && node in t.rules[i].nodes
    ensures RuleIndex(t.rules, t.rules[i].id) == Some(i)
    ensures forall k :: 0 <= k < |t.rules| && k != i ==> t.rules[k].id != t.rules[i].id
  {
    LookupFinds(t.rules, node, name);
    var row :| row in t.rules && row.readonly && node in row.nodes && row.name == name
      && row.id == RulesByName(t.rules, node)[name];
    i :| i < |t.rules| && t.rules[i] == row;
    RuleIndexUnique(t.rules, i);
  }

  // One more template rule touches only the row it is looked up as.
  lemma AdoptedExtend(row: RuleRow, node: NodeId, byName: map<string, nat>, seen: seq<Rule>, content: Rule)
    ensures !(content.ruleTag in byName && row.name == content.ruleTag && byName[row.name] == row.id) ==>
      AdoptedRule(row, node, byName, seen + [content]) == AdoptedRule(row, node, byName, seen)
    ensures content.ruleTag in byName && row.name == content.ruleTag && byName[row.name] == row.id ==>
      AdoptedRule(row, node, byName, seen + [content])
      == if Diverges(row, node, content) then WithoutNode(row, node) else Rewritten(row, content, |seen|)
  {
    NameIndexExtend(seen, content, row.name);
  }

  lemma NewNameUnseen(seen: seq<Rule>, content: Rule)
    requires DistinctNames(seen + [content])
    ensures NameIndex(seen, content.ruleTag).None?
  {
    forall p | 0 <= p < |seen| ensures seen[p].ruleTag != content.ruleTag {
      assert (seen + [content])[p] == seen[p] && (seen + [content])[|seen|] == content;
    }
  }

  function DroppedRow(row: RuleRow, node: NodeId, names: set<string>): seq<RuleRow> {
    if !row.readonly || node !in row.nodes || row.name in names then [row]
    else if row.nodes == {node} then []
    else [WithoutNode(row, node)]
  }

  // What the sync leaves of one old row.
  function KeptRule(row: RuleRow, node: NodeId, byName: map<string, nat>, wanted: seq<Rule>): seq<RuleRow> {
    DroppedRow(AdoptedRule(row, node, byName, wanted), node, RuleNames(wanted))
  }

  function KeptRules(rules: seq<RuleRow>, node: NodeId, byName: map<string, nat>, wanted: seq<Rule>): seq<RuleRow> {
    if rules == [] then []
    else KeptRules(rules[..|rules| - 1], node, byName, wanted) + KeptRule(rules[|rules| - 1], node, byName, wanted)
  }

  lemma {:induction false} DropConcat(a: seq<RuleRow>, b: seq<RuleRow>, node: NodeId, names: set<string>)
    ensures DropRules(a + b, node, names) == DropRules(a, node, names) + DropRules(b, node, names)
  {
    if b == [] {
      assert a + b == a;
    } else {
      assert (a + b)[..|a + b| - 1] == a + b[..|b| - 1];
      DropConcat(a, b[..|b| - 1], node, names);
    }
  }

  lemma {:induction false} DropAdopted(rules: seq<RuleRow>, node: NodeId, byName: map<string, nat>, wanted: seq<Rule>)
    ensures DropRules(AdoptedRows(rules, node, byName, wanted), node, RuleNames(wanted))
         == KeptRules(rules, node, byName, wanted)
  {
    if rules != [] {
      var n := |rules| - 1;
      DropAdopted(rules[..n], node, byName, wanted);
      assert AdoptedRows(rules, node, byName, wanted)[..n] == AdoptedRows(rules[..n], node, byName, wanted);
    }
  }

  lemma {:induction false} DropNone(rules: seq<RuleRow>, node: NodeId, names: set<string>)
    requires forall i :: 0 <= i < |rules| ==> rules[i].name in names
    ensures DropRules(rules, node, names) == rules
  {
    if rules != [] {
      DropNone(rules[..|rules| - 1], node, names);
    }
  }

  // The sync as one statement: each old row on its own, then the new rows.
  lemma SyncClosedForm(t: RuleTable, node: NodeId, wanted: seq<Rule>)
    requires SoundRules(t.rules, t.nextId) && DistinctNames(wanted)
    ensures
      var byName := RulesByName(t.rules, node);
      var created := CreatedRows(t.rules, node, byName, wanted, t.nextId);
      SyncedRules(t, node, wanted)
      == RuleTable(KeptRules(t.rules, node, byName, wanted) + created, t.nextId + |created|)
  {
    var byName := RulesByName(t.rules, node);
    var created := CreatedRows(t.rules, node, byName, wanted, t.nextId);
    AdoptClosedForm(t, node, wanted);
    DropConcat(AdoptedRows(t.rules, node, byName, wanted), created, node, RuleNames(wanted));
    DropAdopted(t.rules, node, byName, wanted);
    forall i | 0 <= i < |created| ensures created[i].name in RuleNames(wanted) {
      CreatedMember(t.rules, node, byName, wanted, t.nextId, i);
      assert wanted[created[i].position] in wanted;
    }
    DropNone(created, node, RuleNames(wanted));
  }
}
