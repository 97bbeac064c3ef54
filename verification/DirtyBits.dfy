// Over every run, a running node that is not pending a restart runs exactly the config that would
// be generated for it now.

module DirtyBits {
  import opened Wrappers
  import opened NodeTables
  import opened NodeConfig
  import opened ConfigTemplate
  import opened TemplateSync
  import opened RoutingRules
  import opened ControlPlane
  import RowSync
  import RuleIsolation
  import TemplateProperties

  ghost predicate UpToDate(p: Panel, node: NodeId, env: Env) {
    && node in p.running && node in p.tables.nodes
    && Generate(ViewFor(p.tables, node), env.excludedTags) == Ok(p.running[node])
  }

  ghost predicate DirtyBitsSound(p: Panel, env: Env) {
    forall node :: node in p.running && node !in p.pending ==> UpToDate(p, node, env)
  }

  // The node's config would come out the same from both databases.
  ghost predicate SameConfig(t: Tables, t': Tables, node: NodeId) {
    && node in t.nodes && node in t'.nodes && t'.nodes[node] == t.nodes[node]
    && NodeRows(t'.inbounds, node) == NodeRows(t.inbounds, node)
    && NodeRows(t'.outbounds, node) == NodeRows(t.outbounds, node)
    && MergedRules(NodeRules(t'.rules, node)) == MergedRules(NodeRules(t.rules, node))
  }

  lemma SameConfigGenerates(t: Tables, t': Tables, node: NodeId, env: Env)
    requires SameConfig(t, t', node)
    ensures Generate(ViewFor(t', node), env.excludedTags) == Generate(ViewFor(t, node), env.excludedTags)
  {
  }

  // If the unmarked nodes keep their configs, the dirty bits stay sound.
  lemma MarksSuffice(p: Panel, p': Panel, env: Env)
    requires DirtyBitsSound(p, env)
    requires forall node :: node in p'.running && node !in p'.pending ==>
      node in p.running && node !in p.pending && p'.running[node] == p.running[node]
      && (node in p.tables.nodes ==> SameConfig(p.tables, p'.tables, node))
    ensures DirtyBitsSound(p', env)
  {
    forall node | node in p'.running && node !in p'.pending ensures UpToDate(p', node, env) {
      assert UpToDate(p, node, env);
      SameConfigGenerates(p.tables, p'.tables, node, env);
    }
  }

  // ---- rows a node is not assigned to -------------------------------------------------------

  lemma ReplacedRow(rows: seq<ConfigRow>, i: nat, row: ConfigRow, node: NodeId)
    requires i < |rows| && node !in rows[i].nodes && node !in row.nodes
    ensures NodeRows(rows[i := row], node) == NodeRows(rows, node)
  {
    NodeRowsPointwise(rows[i := row], rows, node);
  }

  lemma AppendedRow(rows: seq<ConfigRow>, row: ConfigRow, node: NodeId)
    requires node !in row.nodes
    ensures NodeRows(rows + [row], node) == NodeRows(rows, node)
  {
    NodeRowsConcat(rows, [row], node);
  }

  lemma RemovedRow(rows: seq<ConfigRow>, i: nat, node: NodeId)
    requires i < |rows| && node !in rows[i].nodes
    ensures NodeRows(Removed(rows, i), node) == NodeRows(rows, node)
  {
    var before, row, after := rows[..i], rows[i], rows[i + 1..];
    assert rows == before + ([row] + after);
    NodeRowsConcat(before, [row] + after, node);
    NodeRowsConcat([row], after, node);
    NodeRowsConcat(before, after, node);
  }

  lemma ReplacedRule(rules: seq<RuleRow>, i: nat, row: RuleRow, node: NodeId)
    requires i < |rules| && node !in rules[i].nodes && node !in row.nodes
    ensures NodeRules(rules[i := row], node) == NodeRules(rules, node)
  {
    NodeRulesPointwise(rules[i := row], rules, node);
  }

  lemma AppendedRule(rules: seq<RuleRow>, row: RuleRow, node: NodeId)
    requires node !in row.nodes
    ensures NodeRules(rules + [row], node) == NodeRules(rules, node)
  {
    NodeRulesConcat(rules, [row], node);
  }

  lemma RemovedRule(rules: seq<RuleRow>, i: nat, node: NodeId)
    requires i < |rules| && node !in rules[i].nodes
    ensures NodeRules(Removed(rules, i), node) == NodeRules(rules, node)
  {
    var before, row, after := rules[..i], rules[i], rules[i + 1..];
    assert rules == before + ([row] + after);
    NodeRulesConcat(before, [row] + after, node);
    NodeRulesConcat([row], after, node);
    NodeRulesConcat(before, after, node);
  }

  lemma OtherNodeRemoved(t: Tables, removed: NodeId, node: NodeId)
    requires node in t.nodes && node != removed
    ensures SameConfig(t, NodeRemoved(t, removed), node)
  {
    var t' := NodeRemoved(t, removed);
    NodeRowsPointwise(t'.inbounds, t.inbounds, node);
    NodeRowsPointwise(t'.outbounds, t.outbounds, node);
    NodeRulesPointwise(t'.rules, t.rules, node);
  }

  // ---- one lemma per kind of operation: the unmarked nodes keep their configs ---------------

  lemma InboundOpFramed(t: Tables, op: InboundOp, env: Env, node: NodeId)
    requires InboundResult(t, op, env).Some? && node in t.nodes && node !in InboundNodes(t, op)
    ensures SameConfig(t, InboundResult(t, op, env).value, node)
  {
    match op
    case CreateInbound(tag, content, enabled, nodeIds, _) =>
      AppendedRow(t.inbounds, CreatedRow(tag, content, enabled, nodeIds), node);
    case ModifyInbound(tag, edit) =>
      var i := RowIndex(t.inbounds, tag).value;
      ReplacedRow(t.inbounds, i, EditedRow(t.inbounds[i], edit), node);
    case DeleteInbound(tag) =>
      RemovedRow(t.inbounds, RowIndex(t.inbounds, tag).value, node);
    case AssignInbounds(assignments) =>
      AssignmentFramed(t, assignments, node);
  }

  // Rows assigned as before, and nodes in neither set, do not change.
  lemma AssignmentFramed(t: Tables, assignments: map<string, set<NodeId>>, node: NodeId)
    requires AssignedInbounds(t, assignments).Some? && node !in ReassignedNodes(t.inbounds, assignments)
    ensures NodeRows(AssignedInbounds(t, assignments).value.inbounds, node) == NodeRows(t.inbounds, node)
  {
    var rows := AssignedInbounds(t, assignments).value.inbounds;
    forall i | 0 <= i < |t.inbounds| ensures NodeRows([rows[i]], node) == NodeRows([t.inbounds[i]], node) {
      var row := t.inbounds[i];
      if row.tag in assignments && row.nodes != assignments[row.tag] {
        assert node !in row.nodes + assignments[row.tag];
      }
    }
    NodeRowsPointwise(rows, t.inbounds, node);
  }

  lemma OutboundOpFramed(t: Tables, op: OutboundOp, env: Env, node: NodeId)
    requires OutboundResult(t, op, env).Some? && node in t.nodes && node !in OutboundMarks(t, op)
    ensures SameConfig(t, OutboundResult(t, op, env).value, node)
  {
    match op
    case CreateOutbound(tag, content, enabled, nodeIds) =>
      AppendedRow(t.outbounds, CreatedRow(tag, content, enabled, nodeIds), node);
    case ModifyOutbound(tag, edit) =>
      var i := RowIndex(t.outbounds, tag).value;
      ReplacedRow(t.outbounds, i, EditedRow(t.outbounds[i], edit), node);
    case DeleteOutbound(tag) =>
      RemovedRow(t.outbounds, RowIndex(t.outbounds, tag).value, node);
  }

  lemma RuleOpFramed(t: Tables, op: RuleOp, node: NodeId)
    requires RuleResult(t, op).Some? && node in t.nodes && node !in RuleMarks(t, op)
    ensures SameConfig(t, RuleResult(t, op).value, node)
  {
    match op
    case CreateRule(rule, enabled, nodeIds, position) =>
      AppendedRule(t.rules, RuleResult(t, op).value.rules[|t.rules|], node);
    case ModifyRule(id, edit) =>
      var i := RuleById(t.rules, id).value;
      ReplacedRule(t.rules, i, EditedRule(t.rules[i], NormalEdit(edit).value), node);
    case DeleteRule(id) =>
      RemovedRule(t.rules, RuleById(t.rules, id).value, node);
    case ReorderRules(ids) =>
      ReorderFramed(t, ids, node);
  }

  // A node none of whose rules moves keeps its order.
  lemma ReorderFramed(t: Tables, ids: seq<nat>, node: NodeId)
    requires node !in MovedNodes(t.rules, ids)
    ensures NodeRules(PlacedRules(t.rules, ids), node) == NodeRules(t.rules, node)
  {
    var rules := PlacedRules(t.rules, ids);
    forall i | 0 <= i < |t.rules| ensures NodeRules([rules[i]], node) == NodeRules([t.rules[i]], node) {
      if node in t.rules[i].nodes {
        assert !Moves(t.rules[i], ids);
      }
    }
    NodeRulesPointwise(rules, t.rules, node);
  }

  // ---- what a caller must check -------------------------------------------------------------

  // Accounts must not be filled in from a registry that cannot be built; a template change is only
  // covered when the sync accepts it; and a synced node must not move the rules another node shares
  // with it.
  ghost predicate Covered(p: Panel, a: Action, env: Env) {
    match a
    case OnInbounds(op) => !FillingFails(p.tables, op, env)
    case OnNode(ChangeTemplate(node, template)) =>
      node in p.tables.nodes && NormalizedTemplate(template).Ok? ==>
        && Accepts(p.tables, node, NormalizedTemplate(template).value, env)
        && TemplateProperties.KeepsOtherOrders(p.tables, node, NormalizedTemplate(template).value)
    case OnNode(AddNode(node, row)) =>
      node !in p.tables.nodes && NormalizedTemplate(row.template).Ok? ==>
        TemplateProperties.KeepsOtherOrders(p.tables, node, NormalizedTemplate(row.template).value)
    case _ => true
  }

  // No wanted tag belongs to an editable row, and none carries other content on another node.
  ghost predicate Accepts(t: Tables, node: NodeId, template: Template, env: Env) {
    && (forall x :: x in RowSync.TemplateInboundContents(template, env.excludedTags) ==>
          RowSync.RowConflict(t.inbounds, node, x).None?)
    && (forall x :: x in RowSync.TemplateOutboundContents(template) ==>
          RowSync.RowConflict(t.outbounds, node, x).None?)
  }

  // The check is exact: the sync of a normalized template succeeds just when it accepts.
  lemma AcceptsExactly(t: Tables, node: NodeId, template: Template, env: Env)
    requires Normalized(template)
    ensures Synced(t, node, template, env.excludedTags, env.newSettings).Ok? <==> Accepts(t, node, template, env)
  {
    NormalizeAllNormal(template.rules);
    var inbounds := RowSync.TemplateInboundContents(template, env.excludedTags);
    var outbounds := RowSync.TemplateOutboundContents(template);
    ConflictsExactly(t.inbounds, node, inbounds);
    ConflictsExactly(t.outbounds, node, outbounds);
  }

  lemma {:induction false} ConflictsExactly(rows: seq<ConfigRow>, node: NodeId, wanted: seq<Item>)
    ensures RowSync.FirstConflict(rows, node, wanted).None? <==>
      forall x :: x in wanted ==> RowSync.RowConflict(rows, node, x).None?
  {
    if wanted != [] {
      var n := |wanted| - 1;
      assert wanted == wanted[..n] + [wanted[n]];
      ConflictsExactly(rows, node, wanted[..n]);
    }
  }

  lemma SyncFramed(t: Tables, t1: Tables, node: NodeId, template: Template, env: Env, other: NodeId)
    requires Sound(t1) && Normalized(template) && other != node && other in t.nodes
    requires t1 == t.(nodes := t1.nodes) && other in t1.nodes && t1.nodes[other] == t.nodes[other]
    requires Synced(t1, node, template, env.excludedTags, env.newSettings).Ok?
    requires RuleIsolation.KeepsOrder(t.rules, node, template.rules, other)
    ensures SameConfig(t, Synced(t1, node, template, env.excludedTags, env.newSettings).value, other)
  {
    TemplateProperties.SyncLeavesOthersAlone(t1, node, template, env.excludedTags, env.newSettings, other);
  }

  // A template change or a new node leaves the other nodes' configs alone.
  lemma TemplateFramed(p: Panel, op: NodeOp, env: Env, other: NodeId)
    requires op.ChangeTemplate? || op.AddNode?
    requires Sound(p.tables) && Covered(p, OnNode(op), env) && other != op.node && other in p.tables.nodes
    ensures SameConfig(p.tables, ApplyNode(p, op, env).tables, other)
  {
    var t, node := p.tables, op.node;
    var template := if op.ChangeTemplate? then op.template else op.row.template;
    NormalizationMeans(template);
    if (op.ChangeTemplate? <==> node in t.nodes) && NormalizedTemplate(template).Ok? {
      var normal := NormalizedTemplate(template).value;
      var row := if op.ChangeTemplate? then t.nodes[node] else op.row;
      var t1 := t.(nodes := t.nodes[node := row.(template := normal)]);
      AcceptsExactly(t1, node, normal, env);
      if Synced(t1, node, normal, env.excludedTags, env.newSettings).Ok? {
        SyncFramed(t, t1, node, normal, env, other);
      } else {
        OtherNodeRemoved(t1, node, other);
      }
    }
  }

  lemma TemplateStep(p: Panel, op: NodeOp, env: Env)
    requires op.ChangeTemplate? || op.AddNode?
    requires Sound(p.tables) && DirtyBitsSound(p, env) && Covered(p, OnNode(op), env)
    ensures DirtyBitsSound(ApplyNode(p, op, env), env)
  {
    forall other | other != op.node && other in p.tables.nodes
      ensures SameConfig(p.tables, ApplyNode(p, op, env).tables, other)
    {
      TemplateFramed(p, op, env, other);
    }
    TemplateMarks(p, op, env);
    UnknownNodeIdle(p, op.node, env);
    MarksSuffice(p, ApplyNode(p, op, env), env);
  }

  // A template that changes the database marks its node.
  lemma TemplateMarks(p: Panel, op: NodeOp, env: Env)
    requires (op.ChangeTemplate? || op.AddNode?) && Covered(p, OnNode(op), env)
    ensures
      var p' := ApplyNode(p, op, env);
      && p'.running == p.running && p.pending <= p'.pending
      && (p' == p || op.node in p'.pending || op.node !in p.tables.nodes)
  {
    var template := if op.ChangeTemplate? then op.template else op.row.template;
    NormalizationMeans(template);
    if op.ChangeTemplate? && op.node in p.tables.nodes && NormalizedTemplate(template).Ok? {
      var normal := NormalizedTemplate(template).value;
      var t1 := p.tables.(nodes := p.tables.nodes[op.node := p.tables.nodes[op.node].(template := normal)]);
      AcceptsExactly(t1, op.node, normal, env);
    }
  }

  // A node that does not exist yet runs nothing, or is still marked from an earlier life.
  lemma UnknownNodeIdle(p: Panel, node: NodeId, env: Env)
    requires DirtyBitsSound(p, env)
    ensures node !in p.tables.nodes && node in p.running ==> node in p.pending
  {
    if node in p.running && node !in p.pending {
      assert UpToDate(p, node, env);
    }
  }

  lemma NodeRemovedSound(t: Tables, node: NodeId)
    requires Sound(t)
    ensures Sound(NodeRemoved(t, node))
  {
    var t' := NodeRemoved(t, node);
    forall i | 0 <= i < |t.inbounds| ensures t.inbounds[i] in t.inbounds {
    }
    forall i | 0 <= i < |t.outbounds| ensures t.outbounds[i] in t.outbounds {
    }
    forall i | 0 <= i < |t.rules| ensures t.rules[i] in t.rules {
    }
  }

  // ---- the tables' invariants through the other operations ----------------------------------

  lemma EditedRowsSound(rows: seq<ConfigRow>, i: nat, edit: RowEdit)
    requires SoundRows(rows) && i < |rows| && (edit.content.Some? ==> !rows[i].readonly)
    ensures SoundRows(rows[i := EditedRow(rows[i], edit)])
    ensures CommaFree(rows) ==> CommaFree(rows[i := EditedRow(rows[i], edit)])
  {
    assert rows[i] in rows;
    var rows' := rows[i := EditedRow(rows[i], edit)];
    forall row | row in rows' ensures row in rows || row == EditedRow(rows[i], edit) {
    }
  }

  lemma AppendedRowsSound(rows: seq<ConfigRow>, tag: string, content: Item, enabled: bool, nodeIds: set<NodeId>)
    requires SoundRows(rows) && RowIndex(rows, tag).None? && tag != ""
    ensures SoundRows(rows + [CreatedRow(tag, content, enabled, nodeIds)])
    ensures CommaFree(rows) && ',' !in tag ==> CommaFree(rows + [CreatedRow(tag, content, enabled, nodeIds)])
  {
  }

  lemma RemovedRowsSound(rows: seq<ConfigRow>, i: nat)
    requires SoundRows(rows) && i < |rows|
    ensures SoundRows(Removed(rows, i))
    ensures CommaFree(rows) ==> CommaFree(Removed(rows, i))
  {
  }

  lemma InboundOpSound(t: Tables, op: InboundOp, env: Env)
    requires Sound(t) && InboundResult(t, op, env).Some?
    ensures Sound(InboundResult(t, op, env).value)
  {
    match op
    case CreateInbound(tag, content, enabled, nodeIds, _) =>
      AppendedRowsSound(t.inbounds, tag, content, enabled, nodeIds);
    case ModifyInbound(tag, edit) =>
      EditedRowsSound(t.inbounds, RowIndex(t.inbounds, tag).value, edit);
    case DeleteInbound(tag) =>
      RemovedRowsSound(t.inbounds, RowIndex(t.inbounds, tag).value);
    case AssignInbounds(assignments) => AssignedRowsSound(t, assignments);
  }

  lemma AssignedRowsSound(t: Tables, assignments: map<string, set<NodeId>>)
    requires Sound(t) && AssignedInbounds(t, assignments).Some?
    ensures Sound(AssignedInbounds(t, assignments).value)
  {
    forall i | 0 <= i < |t.inbounds| ensures t.inbounds[i] in t.inbounds {
    }
  }

  lemma OutboundOpSound(t: Tables, op: OutboundOp, env: Env)
    requires Sound(t) && OutboundResult(t, op, env).Some?
    ensures Sound(OutboundResult(t, op, env).value)
  {
    match op
    case CreateOutbound(tag, content, enabled, nodeIds) =>
      AppendedRowsSound(t.outbounds, tag, content, enabled, nodeIds);
    case ModifyOutbound(tag, edit) =>
      EditedRowsSound(t.outbounds, RowIndex(t.outbounds, tag).value, edit);
    case DeleteOutbound(tag) =>
      RemovedRowsSound(t.outbounds, RowIndex(t.outbounds, tag).value);
  }

  lemma AppendedRuleSound(rules: seq<RuleRow>, nextId: nat, row: RuleRow)
    requires SoundRules(rules, nextId) && NamedRows(rules)
    requires row.id == nextId && !row.readonly && row.content.ruleTag != ""
    ensures SoundRules(rules + [row], nextId + 1) && NamedRows(rules + [row])
  {
  }

  lemma EditedRuleNamed(rules: seq<RuleRow>, i: nat, edit: RuleEdit)
    requires NamedRows(rules) && i < |rules| && NormalEdit(edit).Some?
    ensures NamedRows(rules[i := EditedRule(rules[i], NormalEdit(edit).value)])
  {
    if edit.content.Some? {
      NormalizedRule(edit.content.value, None);
    }
    var rules' := rules[i := EditedRule(rules[i], NormalEdit(edit).value)];
    assert rules[i] in rules;
    forall row | row in rules' ensures row in rules || row == EditedRule(rules[i], NormalEdit(edit).value) {
    }
  }

  lemma EditedRuleSound(rules: seq<RuleRow>, nextId: nat, i: nat, edit: RuleEdit)
    requires SoundRules(rules, nextId) && i < |rules| && NormalEdit(edit).Some?
    requires edit.content.Some? ==> !rules[i].readonly
    ensures SoundRules(rules[i := EditedRule(rules[i], NormalEdit(edit).value)], nextId)
  {
    assert rules[i] in rules;
    var rules' := rules[i := EditedRule(rules[i], NormalEdit(edit).value)];
    forall row | row in rules' ensures row in rules || row == EditedRule(rules[i], NormalEdit(edit).value) {
    }
  }

  lemma PlacedRulesSound(rules: seq<RuleRow>, nextId: nat, ids: seq<nat>)
    requires SoundRules(rules, nextId)
    ensures SoundRules(PlacedRules(rules, ids), nextId)
    ensures NamedRows(rules) ==> NamedRows(PlacedRules(rules, ids))
  {
    forall i | 0 <= i < |rules| ensures rules[i] in rules {
    }
  }

  lemma RuleOpSound(t: Tables, op: RuleOp)
    requires Sound(t) && RuleResult(t, op).Some?
    ensures Sound(RuleResult(t, op).value)
  {
    match op
    case ModifyRule(id, edit) =>
      EditedRuleSound(t.rules, t.nextRuleId, RuleById(t.rules, id).value, edit);
      EditedRuleNamed(t.rules, RuleById(t.rules, id).value, edit);
    case ReorderRules(ids) => PlacedRulesSound(t.rules, t.nextRuleId, ids);
    case CreateRule(rule, enabled, nodeIds, position) =>
      NormalizedRule(rule, None);
      AppendedRuleSound(t.rules, t.nextRuleId, RuleResult(t, op).value.rules[|t.rules|]);
    case _ =>
  }

  lemma TemplateOpSound(p: Panel, op: NodeOp, env: Env)
    requires op.ChangeTemplate? || op.AddNode?
    requires Sound(p.tables)
    ensures Sound(ApplyNode(p, op, env).tables)
  {
    var t, node := p.tables, op.node;
    var template := if op.ChangeTemplate? then op.template else op.row.template;
    NormalizationMeans(template);
    if (op.ChangeTemplate? <==> node in t.nodes) && NormalizedTemplate(template).Ok? {
      var normal := NormalizedTemplate(template).value;
      var row := if op.ChangeTemplate? then t.nodes[node] else op.row;
      var t1 := t.(nodes := t.nodes[node := row.(template := normal)]);
      NodeRemovedSound(t1, node);
      if Synced(t1, node, normal, env.excludedTags, env.newSettings).Ok? {
        TemplateProperties.SyncKeepsSound(t1, node, normal, env.excludedTags, env.newSettings);
      }
    }
  }

  // Every operation, whatever its outcome, keeps the tables' invariants: unique tags and ids, and
  // read-only rows enabled and named by their content.
  lemma OperationsKeepSound(p: Panel, a: Action, env: Env)
    requires Sound(p.tables)
    ensures Sound(Apply(p, a, env).tables)
  {
    var t := p.tables;
    match a
    case OnInbounds(op) =>
      if InboundResult(t, op, env).Some? {
        InboundOpSound(t, op, env);
      }
    case OnOutbounds(op) =>
      if OutboundResult(t, op, env).Some? {
        OutboundOpSound(t, op, env);
      }
    case OnRules(op) =>
      if RuleResult(t, op).Some? {
        RuleOpSound(t, op);
      }
    case OnNode(op) =>
      match op
      case ChangeTemplate(_, _) => TemplateOpSound(p, op, env);
      case AddNode(_, _) => TemplateOpSound(p, op, env);
      case RemoveNode(node) => NodeRemovedSound(t, node);
      case _ =>
  }

  // ---- starting a node in steps -------------------------------------------------------------

  // What a thread has loaded is what would be generated now, and nothing else reached the node since
  // it was delivered.
  ghost predicate Fresh(p: Panel, t: Task, env: Env) {
    && t.node in p.tables.nodes && Generate(ViewFor(p.tables, t.node), env.excludedTags) == Ok(t.config)
    && (t.delivered && t.node in p.running ==> p.running[t.node] == t.config)
  }

  predicate Uses(a: Action, task: TaskId) {
    a.OnNode? &&
    match a.nodeOp
    case Load(k, _, _) => k == task
    case Deliver(k) => k == task
    case Finish(k) => k == task
    case _ => false
  }

  // The nodes whose rows or whose own row a request writes, or that another thread restarts.
  function Touched(p: Panel, a: Action, env: Env): set<NodeId> {
    match a
    case OnInbounds(op) => if InboundResult(p.tables, op, env).Some? then InboundNodes(p.tables, op) else {}
    case OnOutbounds(op) => if OutboundResult(p.tables, op, env).Some? then OutboundMarks(p.tables, op) else {}
    case OnRules(op) => if RuleResult(p.tables, op).Some? then RuleMarks(p.tables, op) else {}
    case OnNode(op) =>
      match op
      case ChangeTemplate(node, _) => {node}
      case AddNode(node, _) => {node}
      case ModifyNode(node, _, _, _) => {node}
      case RemoveNode(node) => {node}
      case ChangeNodeFiles(node) => {node}
      case Deliver(task) => if task in p.tasks then {p.tasks[task].node} else {}
      case _ => {}
  }

  // Whatever does not touch a node leaves its config alone, and starts nothing else on it.
  lemma UntouchedFramed(p: Panel, a: Action, env: Env, node: NodeId)
    requires Sound(p.tables) && Covered(p, a, env) && node in p.tables.nodes && node !in Touched(p, a, env)
    ensures
      var p' := Apply(p, a, env);
      && SameConfig(p.tables, p'.tables, node)
      && (node in p'.running ==> node in p.running && p'.running[node] == p.running[node])
  {
    match a
    case OnInbounds(op) =>
      if InboundResult(p.tables, op, env).Some? {
        InboundOpFramed(p.tables, op, env, node);
      }
    case OnOutbounds(op) =>
      if OutboundResult(p.tables, op, env).Some? {
        OutboundOpFramed(p.tables, op, env, node);
      }
    case OnRules(op) =>
      if RuleResult(p.tables, op).Some? {
        RuleOpFramed(p.tables, op, node);
      }
    case OnNode(op) => NodeOpFramed(p, op, env, node);
  }

  lemma NodeOpFramed(p: Panel, op: NodeOp, env: Env, node: NodeId)
    requires Sound(p.tables) && Covered(p, OnNode(op), env)
    requires node in p.tables.nodes && node !in Touched(p, OnNode(op), env)
    ensures
      var p' := ApplyNode(p, op, env);
      && SameConfig(p.tables, p'.tables, node)
      && (node in p'.running ==> node in p.running && p'.running[node] == p.running[node])
  {
    if op.ChangeTemplate? || op.AddNode? {
      TemplateFramed(p, op, env, node);
      TemplateMarks(p, op, env);
    } else if op.RemoveNode? {
      OtherNodeRemoved(p.tables, op.node, node);
    }
  }

  // A thread's config stays fresh as long as nothing touches its node.
  lemma StaysFresh(p: Panel, a: Action, env: Env, task: TaskId)
    requires Sound(p.tables) && Covered(p, a, env) && task in p.tasks && Fresh(p, p.tasks[task], env)
    requires !Uses(a, task) && p.tasks[task].node !in Touched(p, a, env)
    ensures
      var p' := Apply(p, a, env);
      task in p'.tasks && p'.tasks[task] == p.tasks[task] && Fresh(p', p'.tasks[task], env)
  {
    var node := p.tasks[task].node;
    UntouchedFramed(p, a, env, node);
    SameConfigGenerates(p.tables, Apply(p, a, env).tables, node, env);
    OtherTasksStay(p, a, env, task);
  }

  lemma OtherTasksStay(p: Panel, a: Action, env: Env, task: TaskId)
    requires !Uses(a, task)
    ensures
      var p' := Apply(p, a, env);
      (task in p'.tasks <==> task in p.tasks) && (task in p.tasks ==> p'.tasks[task] == p.tasks[task])
  {
  }

  // ---- the theorem --------------------------------------------------------------------------

  // An edit whose unmarked nodes keep their configs keeps the dirty bits sound.
  lemma CommitStep(p: Panel, result: Option<Tables>, marks: set<NodeId>, env: Env)
    requires DirtyBitsSound(p, env)
    requires result.Some? ==>
      forall node :: node in p.tables.nodes && node !in marks ==> SameConfig(p.tables, result.value, node)
    ensures DirtyBitsSound(Commit(p, result, marks), env)
  {
    MarksSuffice(p, Commit(p, result, marks), env);
  }

  // A thread may deliver what is fresh, or to a node that stays marked; and it may clear the mark only
  // after delivering what is still fresh.
  ghost predicate Timely(p: Panel, a: Action, env: Env) {
    a.OnNode? ==>
    match a.nodeOp
    case Deliver(task) => task in p.tasks ==> Fresh(p, p.tasks[task], env) || p.tasks[task].node in p.pending
    case Finish(task) => task in p.tasks && p.tasks[task].delivered ==> Fresh(p, p.tasks[task], env)
    case _ => true
  }

  // What keeps the dirty bits sound over one step.
  ghost predicate Allowed(p: Panel, a: Action, env: Env) {
    DirtyBitsSound(p, env) && Covered(p, a, env) && Timely(p, a, env)
  }

  lemma NodeStep(p: Panel, op: NodeOp, env: Env)
    requires Sound(p.tables) && DirtyBitsSound(p, env) && Covered(p, OnNode(op), env) && Timely(p, OnNode(op), env)
    ensures DirtyBitsSound(ApplyNode(p, op, env), env)
  {
    match op
    case ChangeTemplate(_, _) => TemplateStep(p, op, env);
    case AddNode(_, _) => TemplateStep(p, op, env);
    case RemoveNode(node) => RemoveStep(p, node, env);
    case Deliver(task) => DeliverStep(p, task, env);
    case Finish(task) => FinishStep(p, task, env);
    case _ => OtherStep(p, op, env);
  }

  // Nothing is delivered, and no mark goes.
  lemma OtherStep(p: Panel, op: NodeOp, env: Env)
    requires op.ModifyNode? || op.ChangeNodeFiles? || op.Load? || op.Stop?
    requires DirtyBitsSound(p, env)
    ensures DirtyBitsSound(ApplyNode(p, op, env), env)
  {
    MarksSuffice(p, ApplyNode(p, op, env), env);
  }

  lemma RemoveStep(p: Panel, node: NodeId, env: Env)
    requires DirtyBitsSound(p, env)
    ensures DirtyBitsSound(ApplyNode(p, RemoveNode(node), env), env)
  {
    var p' := ApplyNode(p, RemoveNode(node), env);
    forall other | other != node && other in p.tables.nodes ensures SameConfig(p.tables, p'.tables, other) {
      OtherNodeRemoved(p.tables, node, other);
    }
    MarksSuffice(p, p', env);
  }

  lemma DeliverStep(p: Panel, task: TaskId, env: Env)
    requires DirtyBitsSound(p, env) && Timely(p, OnNode(Deliver(task)), env)
    ensures DirtyBitsSound(Delivered(p, task), env)
  {
    var p' := Delivered(p, task);
    forall node | node in p'.running && node !in p'.pending ensures UpToDate(p', node, env) {
      assert node in p.running ==> UpToDate(p, node, env);
    }
  }

  lemma FinishStep(p: Panel, task: TaskId, env: Env)
    requires DirtyBitsSound(p, env) && Timely(p, OnNode(Finish(task)), env)
    ensures DirtyBitsSound(Finished(p, task), env)
  {
    var p' := Finished(p, task);
    forall node | node in p'.running && node !in p'.pending ensures UpToDate(p', node, env) {
      assert node !in p.pending ==> UpToDate(p, node, env);
    }
  }

  // Every covered and timely step keeps the dirty bits sound.
  lemma StepKeepsDirtyBits(p: Panel, a: Action, env: Env)
    requires Sound(p.tables) && DirtyBitsSound(p, env) && Covered(p, a, env) && Timely(p, a, env)
    ensures DirtyBitsSound(Apply(p, a, env), env)
  {
    var t := p.tables;
    match a
    case OnNode(op) => NodeStep(p, op, env);
    case OnInbounds(op) =>
      var result, marks := InboundResult(t, op, env), InboundMarks(t, op, env);
      forall node | result.Some? && node in t.nodes && node !in marks ensures SameConfig(t, result.value, node) {
        InboundOpFramed(t, op, env, node);
      }
      CommitStep(p, result, marks, env);
    case OnOutbounds(op) =>
      var result, marks := OutboundResult(t, op, env), OutboundMarks(t, op);
      forall node | result.Some? && node in t.nodes && node !in marks ensures SameConfig(t, result.value, node) {
        OutboundOpFramed(t, op, env, node);
      }
      CommitStep(p, result, marks, env);
    case OnRules(op) =>
      var result, marks := RuleResult(t, op), RuleMarks(t, op);
      forall node | result.Some? && node in t.nodes && node !in marks ensures SameConfig(t, result.value, node) {
        RuleOpFramed(t, op, node);
      }
      CommitStep(p, result, marks, env);
  }

  // A thread that nobody interrupts leaves its node unmarked and up to date.
  lemma StartKeepsDirtyBits(p: Panel, task: TaskId, node: NodeId, restarting: bool, env: Env)
    requires Sound(p.tables) && DirtyBitsSound(p, env)
    ensures
      var loaded := Apply(p, OnNode(Load(task, node, restarting)), env);
      var finished := Apply(Apply(loaded, OnNode(Deliver(task)), env), OnNode(Finish(task)), env);
      && DirtyBitsSound(finished, env) && finished.tables == p.tables
      && (node in p.tables.nodes && Generate(ViewFor(p.tables, node), env.excludedTags).Ok? ==>
            node !in finished.pending && UpToDate(finished, node, env))
  {
    var loaded := Loaded(p, task, node, restarting, env);
    MarksSuffice(p, loaded, env);
    LoadIsFresh(p, Load(task, node, restarting), env);
    DeliverStep(loaded, task, env);
    FinishStep(Delivered(loaded, task), task, env);
  }

  // The i-th action leads from the i-th state to the next.
  ghost predicate Step(states: seq<Panel>, actions: seq<Action>, i: nat, env: Env)
    requires i < |actions| && |states| == |actions| + 1
  {
    states[i + 1] == Apply(states[i], actions[i], env)
  }

  ghost predicate IsRun(states: seq<Panel>, actions: seq<Action>, env: Env) {
    |states| == |actions| + 1 && forall i :: 0 <= i < |actions| ==> Step(states, actions, i, env)
  }

  // A run goes on with any action.
  lemma RunGoesOn(states: seq<Panel>, actions: seq<Action>, a: Action, p: Panel, env: Env)
    requires IsRun(states, actions, env) && p == Apply(states[|actions|], a, env)
    ensures IsRun(states + [p], actions + [a], env)
  {
    var states', actions' := states + [p], actions + [a];
    forall i | 0 <= i < |actions'| ensures Step(states', actions', i, env) {
      if i < |actions| {
        assert Step(states, actions, i, env);
      }
    }
  }

  // Between the thread's Load at j and its action at i it does nothing but deliver, and nothing else
  // touches its node.
  ghost predicate Undisturbed(states: seq<Panel>, actions: seq<Action>, j: nat, i: nat, task: TaskId, env: Env) {
    && |states| == |actions| + 1 && j < i <= |actions|
    && actions[j].OnNode? && actions[j].nodeOp.Load? && actions[j].nodeOp.task == task
    && forall k :: j < k < i ==> LeavesAlone(states[k], actions[k], task, actions[j].nodeOp.node, env)
  }

  predicate LeavesAlone(p: Panel, a: Action, task: TaskId, node: NodeId, env: Env) {
    if Uses(a, task) then a.nodeOp.Deliver? else node !in Touched(p, a, env)
  }

  // What has to be read off the requests and the pending set before the action at i: a config is
  // delivered to a marked node or with nothing in between, and finished with nothing in between.
  ghost predicate Orderly(states: seq<Panel>, actions: seq<Action>, i: nat, env: Env)
    requires i < |actions| && |states| == |actions| + 1
  {
    var now := states[i];
    actions[i].OnNode? ==>
    match actions[i].nodeOp
    case Deliver(task) =>
      task in now.tasks ==>
        now.tasks[task].node in now.pending || exists j :: Undisturbed(states, actions, j, i, task, env)
    case Finish(task) =>
      task in now.tasks && now.tasks[task].delivered ==> exists j :: Undisturbed(states, actions, j, i, task, env)
    case _ => true
  }

  // What the thread has loaded for the node, if it is still about, is fresh.
  ghost predicate FreshAt(p: Panel, task: TaskId, node: NodeId, env: Env) {
    task in p.tasks ==> p.tasks[task].node == node && Fresh(p, p.tasks[task], env)
  }

  // A thread that nobody disturbs holds what would be generated now.
  lemma {:induction false} UndisturbedIsFresh(
      states: seq<Panel>, actions: seq<Action>, j: nat, i: nat, task: TaskId, env: Env)
    requires IsRun(states, actions, env) && Sound(states[0].tables) && RunCovered(states, actions, env)
    requires Undisturbed(states, actions, j, i, task, env)
    ensures FreshAt(states[i], task, actions[j].nodeOp.node, env)
  {
    assert Step(states, actions, i - 1, env);
    if i == j + 1 {
      LoadIsFresh(states[j], actions[j].nodeOp, env);
    } else {
      UndisturbedIsFresh(states, actions, j, i - 1, task, env);
      RunKeepsSound(states, actions, i - 1, env);
      assert StepCovered(states, actions, i - 1, env);
      OneMoreStep(states[i - 1], actions[i - 1], task, actions[j].nodeOp.node, env);
    }
  }

  lemma {:induction false} RunKeepsSound(states: seq<Panel>, actions: seq<Action>, n: nat, env: Env)
    requires IsRun(states, actions, env) && Sound(states[0].tables) && n <= |actions|
    ensures Sound(states[n].tables)
  {
    if n != 0 {
      RunKeepsSound(states, actions, n - 1, env);
      assert Step(states, actions, n - 1, env);
      OperationsKeepSound(states[n - 1], actions[n - 1], env);
    }
  }

  lemma LoadIsFresh(p: Panel, op: NodeOp, env: Env)
    requires op.Load?
    ensures FreshAt(Apply(p, OnNode(op), env), op.task, op.node, env)
  {
  }

  lemma OneMoreStep(p: Panel, a: Action, task: TaskId, node: NodeId, env: Env)
    requires Sound(p.tables) && Covered(p, a, env)
    requires FreshAt(p, task, node, env) && LeavesAlone(p, a, task, node, env)
    ensures FreshAt(Apply(p, a, env), task, node, env)
  {
    if Uses(a, task) {
      assert Apply(p, a, env) == Delivered(p, task);
    } else {
      OtherTasksStay(p, a, env, task);
      if task in p.tasks {
        StaysFresh(p, a, env, task);
      }
    }
  }

  ghost predicate StepCovered(states: seq<Panel>, actions: seq<Action>, i: nat, env: Env)
    requires i < |actions| && |states| == |actions| + 1
  {
    Covered(states[i], actions[i], env) && Orderly(states, actions, i, env)
  }

  ghost predicate RunCovered(states: seq<Panel>, actions: seq<Action>, env: Env)
    requires |states| == |actions| + 1
  {
    forall i :: 0 <= i < |actions| ==> StepCovered(states, actions, i, env)
  }

  // Whole runs, with the steps of all starting threads interleaved: in every state of a run of covered
  // and orderly actions, a connected node that is not pending a restart runs exactly the config that
  // would be generated for it now.
  lemma {:induction false} RunsKeepDirtyBits(states: seq<Panel>, actions: seq<Action>, n: nat, env: Env)
    requires IsRun(states, actions, env) && Sound(states[0].tables) && DirtyBitsSound(states[0], env)
    requires RunCovered(states, actions, env) && n <= |actions|
    ensures DirtyBitsSound(states[n], env)
  {
    if n != 0 {
      RunsKeepDirtyBits(states, actions, n - 1, env);
      RunKeepsSound(states, actions, n - 1, env);
      OrderlyIsTimely(states, actions, n - 1, env);
      assert Step(states, actions, n - 1, env);
      StepKeepsDirtyBits(states[n - 1], actions[n - 1], env);
    }
  }

  lemma OrderlyIsTimely(states: seq<Panel>, actions: seq<Action>, i: nat, env: Env)
    requires IsRun(states, actions, env) && Sound(states[0].tables) && RunCovered(states, actions, env)
    requires i < |actions|
    ensures Covered(states[i], actions[i], env) && Timely(states[i], actions[i], env)
  {
    assert StepCovered(states, actions, i, env);
    if actions[i].OnNode? && (actions[i].nodeOp.Deliver? || actions[i].nodeOp.Finish?) {
      var task := actions[i].nodeOp.task;
      if j :| Undisturbed(states, actions, j, i, task, env) {
        UndisturbedIsFresh(states, actions, j, i, task, env);
      }
    }
  }

  // Nodes that share no read-only rule need no check on orders.
  lemma UnsharedIsCovered(p: Panel, node: NodeId, template: Template)
    requires Sound(p.tables) && RuleIsolation.Unshared(p.tables.rules, node)
    ensures TemplateProperties.KeepsOtherOrders(p.tables, node, template)
  {
    forall other | other != node ensures RuleIsolation.KeepsOrder(p.tables.rules, node, template.rules, other) {
      RuleIsolation.UnsharedKeepsOrder(TemplateProperties.RuleTableOf(p.tables), node, template.rules, other);
    }
  }
}
