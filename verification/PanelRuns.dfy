// What every run of the panel keeps, from any state it starts in: the tables' invariants, read-only
// rules that belong to one node, dirty bits, and templates whose configs can fail in few ways only.

module PanelRuns {
  import opened NodeTables
  import opened NodeConfig
  import opened NodeConfigProperties
  import opened ConfigTemplate
  import opened TemplateSync
  import opened RoutingRules
  import opened ControlPlane
  import opened DirtyBits
  import RowSync
  import RowSyncProperties
  import RuleSync
  import RuleSyncProperties
  import RuleIsolation
  import RuleRecompose
  import TemplateProperties

  // ---- read-only rules stay with one node ---------------------------------------------------

  ghost predicate AtMostOne(nodes: set<NodeId>) {
    forall a, b :: a in nodes && b in nodes ==> a == b
  }

  ghost predicate NoneShared(rules: seq<RuleRow>) {
    forall row :: row in rules && row.readonly ==> AtMostOne(row.nodes)
  }

  // The one operation that shares a read-only rule; a caller can see it from the request.
  ghost predicate Shares(t: Tables, a: Action) {
    match a
    case OnRules(ModifyRule(id, edit)) =>
      var found := RuleById(t.rules, id);
      found.Some? && t.rules[found.value].readonly && edit.nodes.Some? && !AtMostOne(edit.nodes.value)
    case _ => false
  }

  lemma SyncKeepsUnshared(t: RuleSync.RuleTable, node: NodeId, wanted: seq<Rule>)
    requires SoundRules(t.rules, t.nextId) && DistinctNames(wanted) && NoneShared(t.rules)
    ensures NoneShared(RuleSync.SyncedRules(t, node, wanted).rules)
  {
    var byName := RuleSync.RulesByName(t.rules, node);
    var created := RuleSyncProperties.CreatedRows(t.rules, node, byName, wanted, t.nextId);
    forall r | r in RuleSync.SyncedRules(t, node, wanted).rules && r.readonly ensures AtMostOne(r.nodes) {
      RuleRecompose.SyncedMember(t, node, wanted, r);
      if r in created {
        var i :| 0 <= i < |created| && created[i] == r;
        RuleSyncProperties.CreatedMember(t.rules, node, byName, wanted, t.nextId, i);
      } else {
        var row :| row in t.rules && r in RuleSyncProperties.KeptRule(row, node, byName, wanted);
        KeptNodes(row, node, byName, wanted, r);
      }
    }
  }

  lemma KeptNodes(row: RuleRow, node: NodeId, byName: map<string, nat>, wanted: seq<Rule>, r: RuleRow)
    requires r in RuleSyncProperties.KeptRule(row, node, byName, wanted)
    ensures r.readonly == row.readonly && r.nodes <= row.nodes
  {
  }

  lemma TemplateOpKeepsUnshared(p: Panel, op: NodeOp, env: Env)
    requires op.ChangeTemplate? || op.AddNode?
    requires Sound(p.tables) && NoneShared(p.tables.rules)
    ensures NoneShared(ApplyNode(p, op, env).tables.rules)
  {
    var t, node := p.tables, op.node;
    var template := if op.ChangeTemplate? then op.template else op.row.template;
    NormalizationMeans(template);
    if (op.ChangeTemplate? <==> node in t.nodes) && NormalizedTemplate(template).Ok? {
      var normal := NormalizedTemplate(template).value;
      NormalizeAllNormal(normal.rules);
      SyncKeepsUnshared(TemplateProperties.RuleTableOf(t), node, normal.rules);
      RemovalKeepsUnshared(t.rules, node);
    }
  }

  lemma RemovalKeepsUnshared(rules: seq<RuleRow>, node: NodeId)
    requires NoneShared(rules)
    ensures NoneShared(RulesWithoutNode(rules, node))
  {
    forall i | 0 <= i < |rules| && rules[i].readonly ensures AtMostOne(rules[i].nodes - {node}) {
      assert rules[i] in rules;
    }
  }

  lemma RuleOpKeepsUnshared(t: Tables, op: RuleOp)
    requires NoneShared(t.rules) && !Shares(t, OnRules(op)) && RuleResult(t, op).Some?
    ensures NoneShared(RuleResult(t, op).value.rules)
  {
    match op
    case ReorderRules(ids) =>
      forall i | 0 <= i < |t.rules|
        ensures t.rules[i] in t.rules && PlacedRule(t.rules[i], ids).nodes == t.rules[i].nodes
      {
      }
    case ModifyRule(id, edit) =>
      var i := RuleById(t.rules, id).value;
      assert t.rules[i] in t.rules;
    case _ =>
  }

  lemma StepKeepsUnshared(p: Panel, a: Action, env: Env)
    requires Sound(p.tables) && NoneShared(p.tables.rules) && !Shares(p.tables, a)
    ensures NoneShared(Apply(p, a, env).tables.rules)
  {
    match a
    case OnRules(op) =>
      if RuleResult(p.tables, op).Some? {
        RuleOpKeepsUnshared(p.tables, op);
      }
    case OnNode(op) =>
      if op.ChangeTemplate? || op.AddNode? {
        TemplateOpKeepsUnshared(p, op, env);
      } else if op.RemoveNode? {
        RemovalKeepsUnshared(p.tables.rules, op.node);
      }
    case _ => assert Apply(p, a, env).tables.rules == p.tables.rules;
  }

  // ---- dirty bits over careful runs ---------------------------------------------------------

  // No read-only rule gets a second node, no template is stored that the sync rejects, and no accounts
  // are filled in from a registry that cannot be built.
  ghost predicate Careful(p: Panel, a: Action, env: Env) {
    && !Shares(p.tables, a)
    && match a
       case OnInbounds(op) => !FillingFails(p.tables, op, env)
       case OnNode(ChangeTemplate(node, template)) =>
         node in p.tables.nodes && NormalizedTemplate(template).Ok? ==>
           Accepts(p.tables, node, NormalizedTemplate(template).value, env)
       case _ => true
  }

  lemma CarefulIsCovered(p: Panel, a: Action, env: Env)
    requires Sound(p.tables) && NoneShared(p.tables.rules) && Careful(p, a, env)
    ensures Covered(p, a, env)
  {
    if a.OnNode? && (a.nodeOp.ChangeTemplate? || a.nodeOp.AddNode?) {
      var node := a.nodeOp.node;
      var template := if a.nodeOp.ChangeTemplate? then a.nodeOp.template else a.nodeOp.row.template;
      if NormalizedTemplate(template).Ok? {
        OneNodeIsUnshared(p.tables.rules, node);
        UnsharedIsCovered(p, node, NormalizedTemplate(template).value);
      }
    }
  }

  lemma OneNodeIsUnshared(rules: seq<RuleRow>, node: NodeId)
    requires NoneShared(rules)
    ensures RuleIsolation.Unshared(rules, node)
  {
    forall row | row in rules && row.readonly && node in row.nodes ensures row.nodes == {node} {
      assert forall a :: a in row.nodes ==> a == node;
    }
  }

  // What a careful run starts from and keeps.
  ghost predicate Good(p: Panel, env: Env) {
    Sound(p.tables) && NoneShared(p.tables.rules) && DirtyBitsSound(p, env)
  }

  ghost predicate CarefulAt(states: seq<Panel>, actions: seq<Action>, i: nat, env: Env)
    requires i < |actions| && |states| == |actions| + 1
  {
    Careful(states[i], actions[i], env) && Orderly(states, actions, i, env)
  }

  ghost predicate CarefulRun(states: seq<Panel>, actions: seq<Action>, env: Env) {
    && IsRun(states, actions, env)
    && forall i :: 0 <= i < |actions| ==> CarefulAt(states, actions, i, env)
  }

  // In every state of a run without those three kinds of requests, and in which every restarted node is
  // left alone from loading its config to clearing its mark, every connected node that is not pending a
  // restart runs exactly the config that would be generated for it now; reading the requests is enough.
  lemma CarefulRunsKeepDirtyBits(states: seq<Panel>, actions: seq<Action>, n: nat, env: Env)
    requires CarefulRun(states, actions, env) && n <= |actions| && Good(states[0], env)
    ensures Good(states[n], env)
  {
    forall i | 0 <= i < |actions| ensures StepCovered(states, actions, i, env) {
      CarefulUpTo(states, actions, i, env);
      assert CarefulAt(states, actions, i, env);
      CarefulIsCovered(states[i], actions[i], env);
    }
    CarefulUpTo(states, actions, n, env);
    RunsKeepDirtyBits(states, actions, n, env);
  }

  lemma {:induction false} CarefulUpTo(states: seq<Panel>, actions: seq<Action>, n: nat, env: Env)
    requires CarefulRun(states, actions, env) && n <= |actions|
    requires Sound(states[0].tables) && NoneShared(states[0].tables.rules)
    ensures Sound(states[n].tables) && NoneShared(states[n].tables.rules)
  {
    if n != 0 {
      CarefulUpTo(states, actions, n - 1, env);
      assert Step(states, actions, n - 1, env) && CarefulAt(states, actions, n - 1, env);
      OperationsKeepSound(states[n - 1], actions[n - 1], env);
      StepKeepsUnshared(states[n - 1], actions[n - 1], env);
    }
  }

  // ---- runs that leave excluded tags to templates -------------------------------------------

  ghost predicate NoExcludedRows(t: Tables, env: Env) {
    forall row :: row in t.inbounds ==> row.tag !in env.excludedTags
  }

  // No inbound is created under an excluded tag; a caller can see it from the request.
  predicate LeavesExcluded(a: Action, env: Env) {
    match a
    case OnInbounds(CreateInbound(tag, _, _, _, _)) => tag !in env.excludedTags
    case _ => true
  }

  lemma StepKeepsUnexcluded(p: Panel, a: Action, env: Env)
    requires NoExcludedRows(p.tables, env) && LeavesExcluded(a, env)
    ensures NoExcludedRows(Apply(p, a, env).tables, env)
  {
    match a
    case OnNode(op) =>
      if op.ChangeTemplate? || op.AddNode? {
        TemplateOpKeepsUnexcluded(p, op, env);
      } else if op.RemoveNode? {
        RemovalKeepsUnexcluded(p.tables.inbounds, op.node, env);
      }
    case OnInbounds(op) =>
      if InboundResult(p.tables, op, env).Some? {
        InboundOpKeepsUnexcluded(p.tables, op, env);
      }
    case _ => assert Apply(p, a, env).tables.inbounds == p.tables.inbounds;
  }

  lemma InboundOpKeepsUnexcluded(t: Tables, op: InboundOp, env: Env)
    requires NoExcludedRows(t, env) && LeavesExcluded(OnInbounds(op), env) && InboundResult(t, op, env).Some?
    ensures NoExcludedRows(InboundResult(t, op, env).value, env)
  {
    match op
    case ModifyInbound(tag, edit) =>
      var i := RowIndex(t.inbounds, tag).value;
      assert t.inbounds[i] in t.inbounds;
    case AssignInbounds(assignments) =>
      forall i | 0 <= i < |t.inbounds| ensures t.inbounds[i] in t.inbounds {
      }
    case _ =>
  }

  lemma RemovalKeepsUnexcluded(rows: seq<ConfigRow>, node: NodeId, env: Env)
    requires forall row :: row in rows ==> row.tag !in env.excludedTags
    ensures forall row :: row in WithoutNodes(rows, node) ==> row.tag !in env.excludedTags
  {
    forall i | 0 <= i < |rows| ensures rows[i] in rows {
    }
  }

  lemma TemplateOpKeepsUnexcluded(p: Panel, op: NodeOp, env: Env)
    requires op.ChangeTemplate? || op.AddNode?
    requires NoExcludedRows(p.tables, env)
    ensures NoExcludedRows(ApplyNode(p, op, env).tables, env)
  {
    var t, node := p.tables, op.node;
    var template := if op.ChangeTemplate? then op.template else op.row.template;
    if (op.ChangeTemplate? <==> node in t.nodes) && NormalizedTemplate(template).Ok? {
      var normal := NormalizedTemplate(template).value;
      NormalizationMeans(template);
      SyncKeepsUnexcluded(t.inbounds, node, normal, env);
      RemovalKeepsUnexcluded(t.inbounds, node, env);
    }
  }

  // The sync makes rows of entries that are not excluded.
  lemma SyncKeepsUnexcluded(rows: seq<ConfigRow>, node: NodeId, template: Template, env: Env)
    requires Normalized(template) && forall row :: row in rows ==> row.tag !in env.excludedTags
    ensures forall row :: row in RowSync.SyncedRows(rows, node, RowSync.TemplateInboundContents(template, env.excludedTags)) ==>
      row.tag !in env.excludedTags
  {
    var wanted := RowSync.TemplateInboundContents(template, env.excludedTags);
    forall row | row in RowSync.SyncedRows(rows, node, wanted) ensures row.tag !in env.excludedTags {
      RowSyncProperties.KeptMembers(rows, node, wanted, row);
      RowSyncProperties.NewMembers(rows, node, wanted, row);
      if x :| x in wanted && row == RowSync.NewRow(x, node) {
        TemplateProperties.InboundContentsMembers(template, env.excludedTags, x);
      }
    }
  }

  // Over a whole run in which no inbound is created under an excluded tag, filling in accounts never
  // fails.
  lemma {:induction false} UnexcludedRunsFill(states: seq<Panel>, actions: seq<Action>, n: nat, env: Env)
    requires IsRun(states, actions, env) && NoExcludedRows(states[0].tables, env)
    requires forall i :: 0 <= i < |actions| ==> LeavesExcluded(actions[i], env)
    requires n < |actions|
    ensures NoExcludedRows(states[n].tables, env)
    ensures actions[n].OnInbounds? ==> !FillingFails(states[n].tables, actions[n].inboundOp, env)
  {
    if n != 0 {
      UnexcludedRunsFill(states, actions, n - 1, env);
      assert Step(states, actions, n - 1, env);
      StepKeepsUnexcluded(states[n - 1], actions[n - 1], env);
    }
    if actions[n].OnInbounds? && InboundResult(states[n].tables, actions[n].inboundOp, env).Some? {
      InboundOpKeepsUnexcluded(states[n].tables, actions[n].inboundOp, env);
    }
  }

  // ---- what every run keeps -----------------------------------------------------------------

  ghost predicate TemplatesNormal(t: Tables) {
    forall node :: node in t.nodes ==> Normalized(t.nodes[node].template)
  }

  lemma StepKeepsTemplates(p: Panel, a: Action, env: Env)
    requires TemplatesNormal(p.tables)
    ensures TemplatesNormal(Apply(p, a, env).tables)
  {
    match a
    case OnNode(ChangeTemplate(node, template)) =>
      if node in p.tables.nodes && NormalizedTemplate(template).Ok? {
        StoredTemplate(p, node, p.tables.nodes[node], template, env);
      }
    case OnNode(AddNode(node, row)) =>
      if node !in p.tables.nodes && NormalizedTemplate(row.template).Ok? {
        StoredTemplate(p, node, row, row.template, env);
      }
    case OnNode(_) =>
    case _ => EditsKeepNodes(p, a, env);
  }

  lemma EditsKeepNodes(p: Panel, a: Action, env: Env)
    requires !a.OnNode?
    ensures Apply(p, a, env).tables.nodes == p.tables.nodes
  {
  }

  // A template that is stored is in normal form, and the sync leaves the nodes alone.
  lemma StoredTemplate(p: Panel, node: NodeId, row: NodeRow, template: Template, env: Env)
    requires TemplatesNormal(p.tables) && NormalizedTemplate(template).Ok?
    ensures
      var normal := NormalizedTemplate(template).value;
      var t := p.tables.(nodes := p.tables.nodes[node := row.(template := normal)]);
      var synced := Synced(t, node, normal, env.excludedTags, env.newSettings);
      TemplatesNormal(t) && (synced.Ok? ==> synced.value.nodes == t.nodes)
  {
    NormalizationMeans(template);
  }

  // Rejected requests and rejected templates included, no run breaks the tables or the templates.
  lemma {:induction false} EveryRunKeepsSound(states: seq<Panel>, actions: seq<Action>, n: nat, env: Env)
    requires IsRun(states, actions, env) && Sound(states[0].tables) && TemplatesNormal(states[0].tables)
    requires n <= |actions|
    ensures Sound(states[n].tables) && TemplatesNormal(states[n].tables)
  {
    if n != 0 {
      EveryRunKeepsSound(states, actions, n - 1, env);
      assert Step(states, actions, n - 1, env);
      OperationsKeepSound(states[n - 1], actions[n - 1], env);
      StepKeepsTemplates(states[n - 1], actions[n - 1], env);
    }
  }

  // In every reachable state the config of a node can be generated exactly when neither its inbounds nor
  // its outbounds are all shadowed, and no enabled inbound row doubles an excluded entry of its template.
  lemma ReachableConfigsGenerateExactlyWhen(
      states: seq<Panel>, actions: seq<Action>, n: nat, env: Env, node: NodeId)
    requires IsRun(states, actions, env) && Sound(states[0].tables) && TemplatesNormal(states[0].tables)
    requires n <= |actions| && node in states[n].tables.nodes
    ensures
      var view := ViewFor(states[n].tables, node);
      Generate(view, env.excludedTags).Ok? <==>
        && !Shadowed(view.node.template.inbounds, view.inbounds, env.excludedTags)
        && !Clashes(view.node.template.inbounds, view.inbounds, env.excludedTags)
        && !Shadowed(view.node.template.outbounds, view.outbounds, {})
  {
    var t := states[n].tables;
    EveryRunKeepsSound(states, actions, n, env);
    TemplateProperties.NodeRowsDistinct(t.inbounds, node);
    TemplateProperties.NodeRowsDistinct(t.outbounds, node);
    NodeRowsMembers(t.inbounds, node);
    GeneratesExactlyWhen(ViewFor(t, node), env.excludedTags);
  }

  // Where no inbound row has an excluded tag, an enabled inbound and an enabled outbound row are enough.
  lemma EnabledRowsSuffice(
      states: seq<Panel>, actions: seq<Action>, n: nat, env: Env, node: NodeId, i: ConfigRow, o: ConfigRow)
    requires IsRun(states, actions, env) && Sound(states[0].tables) && TemplatesNormal(states[0].tables)
    requires n <= |actions| && node in states[n].tables.nodes
    requires NoExcludedRows(states[n].tables, env)
    requires i in states[n].tables.inbounds && i.enabled && node in i.nodes
    requires o in states[n].tables.outbounds && o.enabled && node in o.nodes
    ensures Generate(ViewFor(states[n].tables, node), env.excludedTags).Ok?
  {
    var t := states[n].tables;
    ReachableConfigsGenerateExactlyWhen(states, actions, n, env, node);
    NoExcludedRowsNoClash(t, node, t.nodes[node].template.inbounds, env.excludedTags);
    NodeRowsMembers(t.inbounds, node);
    NodeRowsMembers(t.outbounds, node);
    assert RowView(i.tag, i.content, i.enabled) in NodeRows(t.inbounds, node);
    assert RowView(o.tag, o.content, o.enabled) in NodeRows(t.outbounds, node);
  }

  // Without rows on excluded tags nothing clashes.
  lemma NoExcludedRowsNoClash(t: Tables, node: NodeId, items: seq<Item>, excluded: set<string>)
    requires forall row :: row in t.inbounds ==> row.tag !in excluded
    ensures !Clashes(items, NodeRows(t.inbounds, node), excluded)
  {
    NodeRowsMembers(t.inbounds, node);
  }
}
