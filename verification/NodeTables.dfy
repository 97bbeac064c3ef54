// The database tables behind one generated Xray config, and what a node sees of them.

module NodeTables {
  import opened Wrappers
  import opened Json

  type NodeId = int

  // One entry of a config's "inbounds" or "outbounds": its tag ("" when it has none), its
  // protocol, and everything else in the JSON object.
  datatype Item = Item(tag: string, protocol: string, body: Fields)

  // One entry of "routing.rules"; a missing string field is "".
  datatype Rule = Rule(ruleTag: string, kind: string, outboundTag: string, balancerTag: string, body: string)

  // The other sections of a config. A log, routing or API section that is missing is {}, and the
  // routing section comes without its rules.
  datatype Sections = Sections(
    log: Fields, routing: Fields, api: Fields, stats: Option<Json>, policy: Option<Json>, other: Fields)

  const NO_SECTIONS := Sections(map[], map[], map[], None, None, map[])

  // A node's JSON template.
  datatype Template = Template(inbounds: seq<Item>, outbounds: seq<Item>, rules: seq<Rule>, sections: Sections)

  datatype NodeRow = NodeRow(template: Template, apiPort: int, accessLog: bool, errorLog: bool)

  // A row of "inbounds" or "outbounds". A table is a sequence in id order.
  datatype ConfigRow = ConfigRow(tag: string, content: Item, enabled: bool, readonly: bool, nodes: set<NodeId>)

  // A row of "routing_rules"; that table is a sequence in id order too.
  datatype RuleRow = RuleRow(
    id: nat, name: string, content: Rule, enabled: bool, readonly: bool, position: int, nodes: set<NodeId>)

  datatype Host = Host(inboundTag: string, remark: string, address: string, position: int)

  // A user's account on one protocol: its settings and the inbound tags it leaves out.
  datatype Proxy = Proxy(settings: string, excluded: set<string>)

  datatype User = User(id: nat, proxies: map<string, Proxy>)

  datatype Tables = Tables(
    nodes: map<NodeId, NodeRow>,
    inbounds: seq<ConfigRow>,
    outbounds: seq<ConfigRow>,
    rules: seq<RuleRow>,
    nextRuleId: nat,
    hosts: seq<Host>,
    users: seq<User>)

  ghost predicate UniqueTags(rows: seq<ConfigRow>) {
    forall i, j :: 0 <= i < j < |rows| ==> rows[i].tag != rows[j].tag
  }

  // What every stored row keeps: the unique index on tags, the (non-empty) tag repeated inside the
  // content, and no read-only row ever disabled.
  ghost predicate SoundRows(rows: seq<ConfigRow>) {
    && UniqueTags(rows)
    && (forall row :: row in rows ==> row.tag != "" && row.content.tag == row.tag)
    && (forall row :: row in rows && row.readonly ==> row.enabled)
  }

  ghost predicate IdOrder(rules: seq<RuleRow>) {
    forall i, j :: 0 <= i < j < |rules| ==> rules[i].id < rules[j].id
  }

  ghost predicate SoundRules(rules: seq<RuleRow>, nextId: nat) {
    && IdOrder(rules)
    && (forall row :: row in rules ==> row.id < nextId)
    && (forall row :: row in rules && row.readonly ==> row.enabled && row.name == row.content.ruleTag)
  }

  ghost predicate CommaFree(rows: seq<ConfigRow>) {
    forall row :: row in rows ==> ',' !in row.tag
  }

  // Every stored rule was normalized, which needs a tag.
  ghost predicate NamedRows(rules: seq<RuleRow>) {
    forall row :: row in rules ==> row.content.ruleTag != ""
  }

  ghost predicate Sound(t: Tables) {
    && SoundRows(t.inbounds) && CommaFree(t.inbounds)
    && SoundRows(t.outbounds)
    && SoundRules(t.rules, t.nextRuleId) && NamedRows(t.rules)
  }

  function RowFor(rows: seq<ConfigRow>, tag: string): Option<ConfigRow> {
    if rows == [] then None
    else if rows[|rows| - 1].tag == tag then Some(rows[|rows| - 1])
    else RowFor(rows[..|rows| - 1], tag)
  }

  lemma {:induction false} RowForFinds(rows: seq<ConfigRow>, tag: string)
    ensures RowFor(rows, tag).None? <==> forall row :: row in rows ==> row.tag != tag
    ensures RowFor(rows, tag).Some? ==> RowFor(rows, tag).value in rows && RowFor(rows, tag).value.tag == tag
  {
    if rows != [] {
      var n := |rows| - 1;
      assert rows == rows[..n] + [rows[n]];
      RowForFinds(rows[..n], tag);
    }
  }

  lemma RowForUnique(rows: seq<ConfigRow>, i: nat)
    requires UniqueTags(rows) && i < |rows|
    ensures RowFor(rows, rows[i].tag) == Some(rows[i])
  {
    RowForFinds(rows, rows[i].tag);
  }

  // What one node sees of a row: everything but the node set.
  datatype RowView = RowView(tag: string, content: Item, enabled: bool)

  datatype RuleView = RuleView(id: nat, content: Rule, enabled: bool, readonly: bool, position: int)

  // The rows assigned to a node, in id order.
  function NodeRows(rows: seq<ConfigRow>, node: NodeId): seq<RowView> {
    if rows == [] then []
    else
      var row := rows[|rows| - 1];
      NodeRows(rows[..|rows| - 1], node) +
      if node in row.nodes then [RowView(row.tag, row.content, row.enabled)] else []
  }

  function ViewOf(row: RuleRow): RuleView {
    RuleView(row.id, row.content, row.enabled, row.readonly, row.position)
  }

  function NodeRules(rules: seq<RuleRow>, node: NodeId): seq<RuleView> {
    if rules == [] then []
    else
      var row := rules[|rules| - 1];
      NodeRules(rules[..|rules| - 1], node) + if node in row.nodes then [ViewOf(row)] else []
  }

  lemma {:induction false} NodeRulesMembers(rules: seq<RuleRow>, node: NodeId, v: RuleView)
    ensures v in NodeRules(rules, node) <==>
      exists row :: row in rules && node in row.nodes && v == ViewOf(row)
  {
    if rules != [] {
      var n := |rules| - 1;
      assert rules == rules[..n] + [rules[n]];
      NodeRulesMembers(rules[..n], node, v);
    }
  }

  // A node sees its rules in id order.
  lemma {:induction false} NodeRulesOrdered(rules: seq<RuleRow>, node: NodeId)
    requires IdOrder(rules)
    ensures ViewOrder(NodeRules(rules, node))
  {
    if rules != [] {
      var n := |rules| - 1;
      NodeRulesOrdered(rules[..n], node);
      var earlier := NodeRules(rules[..n], node);
      forall i | 0 <= i < |earlier| ensures earlier[i].id < rules[n].id {
        NodeRulesMembers(rules[..n], node, earlier[i]);
        var row :| row in rules[..n] && node in row.nodes && earlier[i] == ViewOf(row);
      }
    }
  }

  ghost predicate ViewOrder(views: seq<RuleView>) {
    forall i, j :: 0 <= i < j < |views| ==> views[i].id < views[j].id
  }

  lemma {:induction false} NodeRowsConcat(a: seq<ConfigRow>, b: seq<ConfigRow>, node: NodeId)
    ensures NodeRows(a + b, node) == NodeRows(a, node) + NodeRows(b, node)
  {
    if b == [] {
      assert a + b == a;
    } else {
      assert (a + b)[..|a + b| - 1] == a + b[..|b| - 1];
      NodeRowsConcat(a, b[..|b| - 1], node);
    }
  }

  lemma {:induction false} NodeRulesConcat(a: seq<RuleRow>, b: seq<RuleRow>, node: NodeId)
    ensures NodeRules(a + b, node) == NodeRules(a, node) + NodeRules(b, node)
  {
    if b == [] {
      assert a + b == a;
    } else {
      assert (a + b)[..|a + b| - 1] == a + b[..|b| - 1];
      NodeRulesConcat(a, b[..|b| - 1], node);
    }
  }

  lemma {:induction false} NodeRowsMembers(rows: seq<ConfigRow>, node: NodeId)
    ensures forall v :: v in NodeRows(rows, node) <==>
      exists row :: row in rows && node in row.nodes && v == RowView(row.tag, row.content, row.enabled)
  {
    if rows != [] {
      var n := |rows| - 1;
      assert rows == rows[..n] + [rows[n]];
      NodeRowsMembers(rows[..n], node);
    }
  }

  // Two tables of the same length show a node the same rules if each row does.
  lemma {:induction false} NodeRulesPointwise(a: seq<RuleRow>, b: seq<RuleRow>, node: NodeId)
    requires |a| == |b|
    requires forall i :: 0 <= i < |a| ==>
      NodeRules([a[i]], node) == NodeRules([b[i]], node)
    ensures NodeRules(a, node) == NodeRules(b, node)
  {
    if a != [] {
      var n := |a| - 1;
      assert a == a[..n] + [a[n]] && b == b[..n] + [b[n]];
      NodeRulesConcat(a[..n], [a[n]], node);
      NodeRulesConcat(b[..n], [b[n]], node);
      NodeRulesPointwise(a[..n], b[..n], node);
    }
  }

  lemma {:induction false} NodeRowsPointwise(a: seq<ConfigRow>, b: seq<ConfigRow>, node: NodeId)
    requires |a| == |b|
    requires forall i :: 0 <= i < |a| ==>
      NodeRows([a[i]], node) == NodeRows([b[i]], node)
    ensures NodeRows(a, node) == NodeRows(b, node)
  {
    if a != [] {
      var n := |a| - 1;
      assert a == a[..n] + [a[n]] && b == b[..n] + [b[n]];
      NodeRowsConcat(a[..n], [a[n]], node);
      NodeRowsConcat(b[..n], [b[n]], node);
      NodeRowsPointwise(a[..n], b[..n], node);
    }
  }
}
