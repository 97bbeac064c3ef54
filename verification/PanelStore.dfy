// The panel as the source writes it: a database session, the pending-restart set and the running
// nodes, changed in place by the request handlers. Each handler is one transition of ControlPlane.

module PanelStore {
  import opened Wrappers
  import opened NodeTables
  import opened Protocols
  import opened NodeConfig
  import opened ConfigTemplate
  import opened TemplateSync
  import opened RoutingRules
  import opened ControlPlane
  import Accounts
  import DirtyBits
  import PanelRuns
  import Registry
  import RowSync
  import RuleSync
  import TemplateProperties

  class Store {
    // the session's view of the tables
    var nodes: map<NodeId, NodeRow>
    var inbounds: seq<ConfigRow>
    var outbounds: seq<ConfigRow>
    var rules: seq<RuleRow>
    var nextRuleId: nat
    var hosts: seq<Host>
    var users: seq<User>
    // what a rollback returns to
    var committed: Tables
    var pending: set<NodeId>
    var running: map<NodeId, Config>
    // what the threads that start nodes hold
    var tasks: map<TaskId, Task>

    function Session(): Tables
      reads this
    {
      Tables(nodes, inbounds, outbounds, rules, nextRuleId, hosts, users)
    }

    // Between requests nothing is uncommitted.
    ghost predicate Valid()
      reads this
    {
      committed == Session() && Sound(committed)
    }

    function State(): Panel
      reads this
    {
      Panel(Session(), pending, running, tasks)
    }

    constructor ()
      ensures Valid() && State() == Panel(Tables(map[], [], [], [], 0, [], []), {}, map[], map[])
    {
      nodes, inbounds, outbounds, rules, nextRuleId, hosts, users := map[], [], [], [], 0, [], [];
      committed := Tables(map[], [], [], [], 0, [], []);
      pending, running, tasks := {}, map[], map[];
    }

    method Commit()
      modifies this`committed
      ensures committed == Session()
    {
      committed := Session();
    }

    method Rollback()
      modifies this
      ensures Session() == committed == old(committed) && pending == old(pending) && running == old(running) && tasks == old(tasks)
    {
      nodes, inbounds, outbounds, rules := committed.nodes, committed.inbounds, committed.outbounds, committed.rules;
      nextRuleId, hosts, users := committed.nextRuleId, committed.hosts, committed.users;
    }

    method MarkNodesPendingRestart(nodeIds: set<NodeId>)
      modifies this`pending
      ensures pending == old(pending) + nodeIds
    {
      pending := pending + nodeIds;
    }

    method ClearNodePendingRestart(node: NodeId)
      modifies this`pending
      ensures pending == old(pending) - {node}
    {
      pending := pending - {node};
    }

    // ---- the template sync --------------------------------------------------------------------

    method CleanupInbounds(deleted: seq<string>)
      modifies this`hosts, this`users
      ensures hosts == HostsKept(old(hosts), deleted) && users == UsersKept(old(users), deleted)
    {
      var kept := [];
      for i := 0 to |hosts|
        invariant kept == HostsKept(hosts[..i], deleted)
        invariant hosts == old(hosts) && users == old(users)
      {
        assert hosts[..i + 1][..i] == hosts[..i];
        if hosts[i].inboundTag !in deleted {
          kept := kept + [hosts[i]];
        }
      }
      assert hosts[..|hosts|] == hosts;
      var cleaned := [];
      for i := 0 to |users|
        invariant |cleaned| == i && forall k :: 0 <= k < i ==> cleaned[k] == UserKept(users[k], deleted)
        invariant users == old(users)
      {
        cleaned := cleaned + [UserKept(users[i], deleted)];
      }
      hosts, users := kept, cleaned;
    }

    method AddDefaultHosts(created: seq<ConfigRow>, position: int)
      modifies this`hosts
      ensures hosts == old(hosts) + DefaultHosts(created, position)
    {
      var nextPosition := position;
      for i := 0 to |created|
        invariant nextPosition == position + i
        invariant hosts == old(hosts) + DefaultHosts(created[..i], position)
      {
        assert created[..i + 1][..i] == created[..i];
        hosts := hosts + [Host(created[i].tag, HOST_REMARK, HOST_ADDRESS, nextPosition)];
        nextPosition := nextPosition + 1;
      }
      assert created[..|created|] == created;
    }

    method EnsureNewAccounts(created: seq<ConfigRow>, wanted: seq<Item>, env: Env)
      modifies this`users
      ensures users == UsersEnsured(
        old(users), inbounds, created, wanted, NewProtocols(created), env.excludedTags, env.newSettings)
    {
      var protocols := NewProtocols(created);
      for i := 0 to |protocols|
        invariant users == UsersEnsured(
          old(users), inbounds, created, wanted, protocols[..i], env.excludedTags, env.newSettings)
      {
        assert protocols[..i + 1][..i] == protocols[..i];
        users := Accounts.EnsureProtocolInboundsForUsers(
          users, inbounds, protocols[i], TagsOf(created, protocols[i]), ItemTags(wanted, protocols[i]),
          env.excludedTags, env.newSettings);
      }
      assert protocols[..|protocols|] == protocols;
    }

    method SyncInbounds(node: NodeId, wanted: seq<Item>, env: Env) returns (r: Result<(), RowSync.SyncError>)
      requires UniqueTags(inbounds) && RowSync.DistinctTags(wanted)
      modifies this`inbounds, this`hosts, this`users
      ensures match RowSync.FirstConflict(old(inbounds), node, wanted)
              case Some(e) => r == Err(e)
              case None => r.Ok? && Session() == SyncedInbounds(old(Session()), node, wanted, env.excludedTags, env.newSettings)
    {
      var position := NextHostPosition(hosts);
      var rows, created, deleted := RowSync.SyncConfigRows(inbounds, node, wanted);
      CleanupInbounds(deleted);
      match rows
      case Err(e) => return Err(e);
      case Ok(table) =>
        inbounds := table;
        AddDefaultHosts(created, position);
        EnsureNewAccounts(created, wanted, env);
        r := Ok(());
    }

    method SyncRoutes(node: NodeId, template: Template) returns (r: Result<(), RowSync.SyncError>)
      requires UniqueTags(outbounds)
      modifies this`outbounds, this`rules, this`nextRuleId
      ensures match SyncedRoutes(old(Session()), node, template)
              case Err(e) => r == Err(e)
              case Ok(t) => r.Ok? && Session() == t
    {
      TemplateProperties.ContentsDistinct(template, {});
      var rows, _, _ := RowSync.SyncConfigRows(outbounds, node, RowSync.TemplateOutboundContents(template));
      match rows
      case Err(e) => return Err(e);
      case Ok(table) => outbounds := table;
      var ruleTable := RuleSync.SyncRoutingRules(RuleSync.RuleTable(rules, nextRuleId), node, template.rules);
      match ruleTable
      case Err(e) => return Err(e);
      case Ok(table) => rules, nextRuleId := table.rules, table.nextId;
      r := Ok(());
    }

    // Commits on success; on failure the session holds half a sync, which only a rollback undoes.
    method SyncReadonlyNodeConfig(node: NodeId, template: Template, env: Env)
      returns (r: Result<(), RowSync.SyncError>)
      requires UniqueTags(inbounds) && UniqueTags(outbounds)
      modifies this`inbounds, this`outbounds, this`rules, this`nextRuleId, this`hosts, this`users, this`committed
      ensures match Synced(old(Session()), node, template, env.excludedTags, env.newSettings)
              case Ok(t) => r.Ok? && Session() == committed == t
              case Err(e) => r == Err(e) && committed == old(committed)
    {
      TemplateProperties.ContentsDistinct(template, env.excludedTags);
      ghost var t := Session();
      r := SyncInbounds(node, RowSync.TemplateInboundContents(template, env.excludedTags), env);
      if r.Ok? {
        assert outbounds == t.outbounds;
        r := SyncRoutes(node, template);
        if r.Ok? {
          Commit();
        }
      }
    }

    method ModifyNodeConfigTemplate(node: NodeId, payload: Template, env: Env)
      requires Valid()
      modifies this
      ensures Valid() && State() == Apply(old(State()), OnNode(ChangeTemplate(node, payload)), env)
    {
      ghost var before := State();
      ChangeNodeTemplate(node, payload, env);
      DirtyBits.OperationsKeepSound(before, OnNode(ChangeTemplate(node, payload)), env);
    }

    method ChangeNodeTemplate(node: NodeId, payload: Template, env: Env)
      requires Valid()
      modifies this
      ensures committed == Session() && State() == TemplateChanged(old(State()), node, payload, env)
    {
      if node !in nodes {
        return;
      }
      var normalized := NormalizeXrayConfigTemplate(payload);
      match normalized
      case Err(_) =>
      case Ok(template) =>
        nodes := nodes[node := nodes[node].(template := template)];
        Commit();
        SyncStoredTemplate(node, template, env);
    }

    // The template is stored already; a rejected sync leaves it beside the old rows.
    method SyncStoredTemplate(node: NodeId, template: Template, env: Env)
      requires committed == Session() && UniqueTags(inbounds) && UniqueTags(outbounds)
      modifies this
      ensures committed == Session() && running == old(running) && tasks == old(tasks)
      ensures match Synced(old(Session()), node, template, env.excludedTags, env.newSettings)
              case Ok(t) => Session() == t && pending == old(pending) + {node}
              case Err(_) => Session() == old(Session()) && pending == old(pending)
    {
      var synced := SyncReadonlyNodeConfig(node, template, env);
      CloseSync(node, synced.Ok?);
    }

    // What follows a sync: the mark of the node, or the rollback.
    method CloseSync(node: NodeId, ok: bool)
      requires ok ==> committed == Session()
      modifies this
      ensures Session() == committed == old(committed) && running == old(running) && tasks == old(tasks)
      ensures pending == if ok then old(pending) + {node} else old(pending)
    {
      if ok {
        MarkNodesPendingRestart({node});
      } else {
        Rollback();
      }
    }

    // ---- inbounds -----------------------------------------------------------------------------

    // Fails when the registry of enabled inbounds cannot be built.
    method EnsureInboundUsers(row: ConfigRow, env: Env) returns (ok: bool)
      modifies this`users
      ensures ok == Registry.RegistryBuilds(nodes, inbounds, env.excludedTags)
      ensures users == InboundUsers(old(users), nodes, inbounds, row, env)
    {
      ok := Registry.RegistryBuilds(nodes, inbounds, env.excludedTags);
      var protocol := row.content.protocol;
      if ok && row.enabled && Accounts.Usable(row.tag, env.excludedTags) {
        users := Accounts.EnsureProtocolInboundsForUsers(
          users, inbounds, protocol, [row.tag], Accounts.ProtocolTags(inbounds, protocol, env.excludedTags),
          env.excludedTags, env.newSettings);
      }
    }

    method CreateInboundConfig(
        tag: string, content: Item, enabled: bool, nodeIds: set<NodeId>, autoAssign: bool, env: Env)
      requires Valid()
      modifies this
      ensures Valid()
      ensures State() == Apply(old(State()), OnInbounds(CreateInbound(tag, content, enabled, nodeIds, autoAssign)), env)
    {
      DirtyBits.OperationsKeepSound(
        State(), OnInbounds(CreateInbound(tag, content, enabled, nodeIds, autoAssign)), env);
      if !ValidInbound(Session(), tag, content, env) || RowIndex(inbounds, tag).Some? || !(nodeIds <= nodes.Keys) {
        return;
      }
      var ok := StoreInbound(CreatedRow(tag, content, enabled, nodeIds), autoAssign, env);
      if ok {
        MarkNodesPendingRestart(nodeIds);
      }
    }

    // The row is committed before the accounts are filled in.
    method StoreInbound(created: ConfigRow, autoAssign: bool, env: Env) returns (ok: bool)
      modifies this`inbounds, this`users, this`committed
      ensures committed == Session() && inbounds == old(inbounds) + [created]
      ensures ok <==> (autoAssign ==> Registry.RegistryBuilds(nodes, inbounds, env.excludedTags))
      ensures autoAssign ==> users == InboundUsers(old(users), nodes, inbounds, created, env)
      ensures !autoAssign ==> |users| == |old(users)| && forall i :: 0 <= i < |users| ==>
        users[i] == if created.content.protocol !in ACCOUNT_PROTOCOLS then old(users)[i]
                    else Accounts.ExcludingUser(
                      old(users)[i], created.content.protocol,
                      Accounts.StoredTags(inbounds, [created.tag], env.excludedTags))
    {
      inbounds := inbounds + [created];
      Commit();
      ok := true;
      if autoAssign {
        ok := EnsureInboundUsers(created, env);
      } else {
        users := Accounts.ExcludeProtocolInboundsForUsers(
          users, inbounds, created.content.protocol, [created.tag], env.excludedTags);
      }
      Commit();
    }

    method ModifyInboundConfig(tag: string, edit: RowEdit, env: Env)
      requires Valid()
      modifies this
      ensures Valid() && State() == Apply(old(State()), OnInbounds(ModifyInbound(tag, edit)), env)
    {
      var found := RowIndex(inbounds, tag);
      if found.None? {
        return;
      }
      var row := inbounds[found.value];
      if edit.content.Some? && (row.readonly || !ValidInbound(Session(), tag, edit.content.value, env)) {
        return;
      }
      if edit.nodes.Some? && !(edit.nodes.value <= nodes.Keys) {
        return;
      }
      DirtyBits.InboundOpSound(Session(), ModifyInbound(tag, edit), env);
      var updated := EditedRow(row, edit);
      var affected := EditedNodes(row.nodes, edit.nodes);
      var ok := StoreEditedInbound(found.value, updated, env);
      if ok {
        MarkNodesPendingRestart(affected);
      }
    }

    method StoreEditedInbound(i: nat, updated: ConfigRow, env: Env) returns (ok: bool)
      requires i < |inbounds|
      modifies this`inbounds, this`users, this`committed
      ensures inbounds == old(inbounds)[i := updated] && committed == Session()
      ensures users == if updated.enabled && !old(inbounds)[i].enabled
                       then InboundUsers(old(users), nodes, inbounds, updated, env) else old(users)
      ensures ok <==> (updated.enabled && !old(inbounds)[i].enabled ==>
                         Registry.RegistryBuilds(nodes, inbounds, env.excludedTags))
    {
      var enabled := inbounds[i].enabled;
      inbounds := inbounds[i := updated];
      Commit();
      ok := true;
      if updated.enabled && !enabled {
        ok := EnsureInboundUsers(updated, env);
      }
      Commit();
    }

    method DeleteInboundConfig(tag: string, env: Env)
      requires Valid()
      modifies this
      ensures Valid() && State() == Apply(old(State()), OnInbounds(DeleteInbound(tag)), env)
    {
      var found := RowIndex(inbounds, tag);
      if found.None? || inbounds[found.value].readonly {
        return;
      }
      DirtyBits.InboundOpSound(Session(), DeleteInbound(tag), env);
      var affected := inbounds[found.value].nodes;
      DropInbound(found.value, tag);
      MarkNodesPendingRestart(affected);
    }

    method DropInbound(i: nat, tag: string)
      requires i < |inbounds|
      modifies this`inbounds, this`hosts, this`users, this`committed
      ensures inbounds == Removed(old(inbounds), i) && committed == Session()
      ensures hosts == HostsKept(old(hosts), [tag]) && users == UsersKept(old(users), [tag])
    {
      inbounds := Removed(inbounds, i);
      CleanupInbounds([tag]);
      Commit();
    }

    method ModifyInboundNodes(assignments: map<string, set<NodeId>>, env: Env)
      requires Valid()
      modifies this
      ensures Valid() && State() == Apply(old(State()), OnInbounds(AssignInbounds(assignments)), env)
    {
      if (exists tag :: tag in assignments && RowIndex(inbounds, tag).None?)
         || (exists tag :: tag in assignments && !(assignments[tag] <= nodes.Keys)) {
        return;
      }
      DirtyBits.InboundOpSound(Session(), AssignInbounds(assignments), env);
      var affected := ReassignedNodes(inbounds, assignments);
      StoreInboundNodes(assignments);
      MarkNodesPendingRestart(affected);
    }

    method StoreInboundNodes(assignments: map<string, set<NodeId>>)
      requires UniqueTags(inbounds) && AssignedInbounds(Session(), assignments).Some?
      modifies this`inbounds, this`committed
      ensures committed == Session() && Session() == AssignedInbounds(old(Session()), assignments).value
    {
      UpdateInboundNodes(assignments);
      assert inbounds == AssignedInbounds(old(Session()), assignments).value.inbounds;
      Commit();
    }

    method UpdateInboundNodes(assignments: map<string, set<NodeId>>)
      requires UniqueTags(inbounds) && forall tag :: tag in assignments ==> RowIndex(inbounds, tag).Some?
      modifies this`inbounds
      ensures |inbounds| == |old(inbounds)|
      ensures forall i :: 0 <= i < |inbounds| ==> inbounds[i] == AssignedRow(old(inbounds)[i], assignments)
    {
      ghost var rows := inbounds;
      var todo := assignments.Keys;
      while todo != {}
        invariant todo <= assignments.Keys && |inbounds| == |rows|
        invariant forall i :: 0 <= i < |rows| ==>
          inbounds[i] == if rows[i].tag in todo then rows[i] else AssignedRow(rows[i], assignments)
        decreases todo
      {
        var tag :| tag in todo;
        var old_ := RowIndex(rows, tag).value;
        assert inbounds[old_].tag == tag && inbounds[old_] in inbounds;
        var i := RowIndex(inbounds, tag).value;
        inbounds := inbounds[i := inbounds[i].(nodes := assignments[tag])];
        todo := todo - {tag};
      }
    }

    // ---- outbounds ----------------------------------------------------------------------------

    method CreateOutboundConfig(tag: string, content: Item, enabled: bool, nodeIds: set<NodeId>, env: Env)
      requires Valid()
      modifies this
      ensures Valid() && State() == Apply(old(State()), OnOutbounds(CreateOutbound(tag, content, enabled, nodeIds)), env)
    {
      DirtyBits.OperationsKeepSound(State(), OnOutbounds(CreateOutbound(tag, content, enabled, nodeIds)), env);
      if !ValidOutbound(Session(), tag, content, env) || RowIndex(outbounds, tag).Some? || !(nodeIds <= nodes.Keys) {
        return;
      }
      outbounds := outbounds + [CreatedRow(tag, content, enabled, nodeIds)];
      Commit();
      MarkNodesPendingRestart(nodeIds);
    }

    method ModifyOutboundConfig(tag: string, edit: RowEdit, env: Env)
      requires Valid()
      modifies this
      ensures Valid() && State() == Apply(old(State()), OnOutbounds(ModifyOutbound(tag, edit)), env)
    {
      DirtyBits.OperationsKeepSound(State(), OnOutbounds(ModifyOutbound(tag, edit)), env);
      var found := RowIndex(outbounds, tag);
      if found.None? {
        return;
      }
      var row := outbounds[found.value];
      if edit.content.Some? && (row.readonly || !ValidOutbound(Session(), tag, edit.content.value, env)) {
        return;
      }
      if edit.nodes.Some? && !(edit.nodes.value <= nodes.Keys) {
        return;
      }
      var affected := row.nodes;
      outbounds := outbounds[found.value := EditedRow(row, edit)];
      Commit();
      if edit.nodes.Some? {
        affected := affected + edit.nodes.value;
      }
      MarkNodesPendingRestart(affected);
    }

    method DeleteOutboundConfig(tag: string, env: Env)
      requires Valid()
      modifies this
      ensures Valid() && State() == Apply(old(State()), OnOutbounds(DeleteOutbound(tag)), env)
    {
      DirtyBits.OperationsKeepSound(State(), OnOutbounds(DeleteOutbound(tag)), env);
      var found := RowIndex(outbounds, tag);
      if found.None? || outbounds[found.value].readonly {
        return;
      }
      var affected := outbounds[found.value].nodes;
      outbounds := Removed(outbounds, found.value);
      Commit();
      MarkNodesPendingRestart(affected);
    }

    // ---- routing rules ------------------------------------------------------------------------

    method CreateRoutingRule(rule: Rule, enabled: bool, nodeIds: set<NodeId>, position: Option<nat>, env: Env)
      requires Valid()
      modifies this
      ensures Valid() && State() == Apply(old(State()), OnRules(CreateRule(rule, enabled, nodeIds, position)), env)
    {
      var normal := NormalizeRuleContent(rule);
      if normal.Err? || !(nodeIds <= nodes.Keys) {
        return;
      }
      NormalizedRule(rule, None);
      DirtyBits.RuleOpSound(Session(), CreateRule(rule, enabled, nodeIds, position));
      var place := if position.Some? then position.value else NextPosition(rules);
      StoreRule(RoutingRuleName(normal.value, None).value, normal.value, enabled, place, nodeIds);
      MarkNodesPendingRestart(nodeIds);
    }

    method StoreRule(name: string, content: Rule, enabled: bool, position: int, nodeIds: set<NodeId>)
      modifies this`rules, this`nextRuleId, this`committed
      ensures rules == old(rules) + [RuleRow(old(nextRuleId), name, content, enabled, false, position, nodeIds)]
      ensures nextRuleId == old(nextRuleId) + 1 && committed == Session()
    {
      rules := rules + [RuleRow(nextRuleId, name, content, enabled, false, position, nodeIds)];
      nextRuleId := nextRuleId + 1;
      Commit();
    }

    method ModifyRoutingRule(id: nat, edit: RuleEdit, env: Env)
      requires Valid()
      modifies this
      ensures Valid() && State() == Apply(old(State()), OnRules(ModifyRule(id, edit)), env)
    {
      DirtyBits.OperationsKeepSound(State(), OnRules(ModifyRule(id, edit)), env);
      var found := RuleById(rules, id);
      if found.None? {
        return;
      }
      var row := rules[found.value];
      var normal := NormalEdit(edit);
      if (row.readonly && edit.content.Some?) || normal.None? {
        return;
      }
      if edit.nodes.Some? && !(edit.nodes.value <= nodes.Keys) {
        return;
      }
      var affected := row.nodes;
      rules := rules[found.value := EditedRule(row, normal.value)];
      Commit();
      if edit.nodes.Some? {
        affected := affected + edit.nodes.value;
      }
      MarkNodesPendingRestart(affected);
    }

    method ReorderRoutingRules(ids: seq<nat>, env: Env)
      requires Valid()
      modifies this
      ensures Valid() && State() == Apply(old(State()), OnRules(ReorderRules(ids)), env)
    {
      DirtyBits.OperationsKeepSound(State(), OnRules(ReorderRules(ids)), env);
      var affected := MovedNodes(rules, ids);
      if !CompleteOrder(rules, ids) {
        return;
      }
      PlaceRules(ids);
      assert rules == PlacedRules(old(rules), ids);
      Commit();
      MarkNodesPendingRestart(affected);
    }

    method PlaceRules(ids: seq<nat>)
      requires IdOrder(rules) && CompleteOrder(rules, ids)
      modifies this`rules
      ensures |rules| == |old(rules)|
      ensures forall i :: 0 <= i < |rules| ==> rules[i] == PlacedRule(old(rules)[i], ids)
    {
      ghost var rows := rules;
      for position := 0 to |ids|
        invariant |rules| == |rows|
        invariant forall i :: 0 <= i < |rows| ==> rules[i] == PlacedRule(rows[i], ids[..position])
      {
        assert ids[..position + 1][..position] == ids[..position];
        KnownRule(rows, ids, position);
        var old_ := RuleById(rows, ids[position]).value;
        assert rules[old_].id == ids[position];
        RuleByIdFinds(rules, old_);
        var i := RuleById(rules, ids[position]).value;
        rules := rules[i := rules[i].(position := position)];
      }
      assert ids[..|ids|] == ids;
    }

    method DeleteRoutingRule(id: nat, env: Env)
      requires Valid()
      modifies this
      ensures Valid() && State() == Apply(old(State()), OnRules(DeleteRule(id)), env)
    {
      var found := RuleById(rules, id);
      if found.None? || rules[found.value].readonly {
        return;
      }
      DirtyBits.RuleOpSound(Session(), DeleteRule(id));
      var affected := rules[found.value].nodes;
      rules := Removed(rules, found.value);
      Commit();
      MarkNodesPendingRestart(affected);
    }

    // ---- nodes --------------------------------------------------------------------------------

    method RemoveNodeRow(node: NodeId)
      modifies this`nodes, this`inbounds, this`outbounds, this`rules, this`committed
      ensures Session() == committed == NodeRemoved(old(Session()), node)
    {
      nodes := map n | n in nodes && n != node :: nodes[n];
      inbounds, outbounds := WithoutNodes(inbounds, node), WithoutNodes(outbounds, node);
      rules := RulesWithoutNode(rules, node);
      Commit();
    }

    // The rows of a node just stored; a node whose template cannot be synced is removed again.
    method StoreNodeRows(node: NodeId, template: Template, env: Env)
      requires committed == Session() && UniqueTags(inbounds) && UniqueTags(outbounds)
      modifies this
      ensures committed == Session() && pending == old(pending) && running == old(running) && tasks == old(tasks)
      ensures match Synced(old(Session()), node, template, env.excludedTags, env.newSettings)
              case Ok(t) => Session() == t
              case Err(_) => Session() == NodeRemoved(old(Session()), node)
    {
      var synced := SyncReadonlyNodeConfig(node, template, env);
      if synced.Err? {
        TakeNodeBack(node);
      }
    }

    method TakeNodeBack(node: NodeId)
      modifies this
      ensures Session() == committed == NodeRemoved(old(committed), node)
      ensures pending == old(pending) && running == old(running) && tasks == old(tasks)
    {
      Rollback();
      RemoveNodeRow(node);
    }

    method AddNewNode(node: NodeId, row: NodeRow, env: Env)
      requires Valid()
      modifies this
      ensures Valid() && State() == Apply(old(State()), OnNode(AddNode(node, row)), env)
    {
      ghost var before := State();
      AddNodeRow(node, row, env);
      DirtyBits.OperationsKeepSound(before, OnNode(AddNode(node, row)), env);
    }

    method AddNodeRow(node: NodeId, row: NodeRow, env: Env)
      requires Valid()
      modifies this
      ensures committed == Session() && State() == NodeAdded(old(State()), node, row, env)
    {
      if node in nodes {
        return;
      }
      var normalized := NormalizeXrayConfigTemplate(row.template);
      match normalized
      case Err(_) =>
      case Ok(template) =>
        StoreNewNode(node, row.(template := template), env);
    }

    // The node is committed before its template is synced.
    method StoreNewNode(node: NodeId, row: NodeRow, env: Env)
      requires committed == Session() && UniqueTags(inbounds) && UniqueTags(outbounds)
      modifies this
      ensures committed == Session() && pending == old(pending) && running == old(running) && tasks == old(tasks)
      ensures
        var stored := old(Session()).(nodes := old(nodes)[node := row]);
        match Synced(stored, node, row.template, env.excludedTags, env.newSettings)
        case Ok(t) => Session() == t
        case Err(_) => Session() == NodeRemoved(stored, node)
    {
      nodes := nodes[node := row];
      Commit();
      StoreNodeRows(node, row.template, env);
    }

    method RemoveNodeConfig(node: NodeId, env: Env)
      requires Valid()
      modifies this
      ensures Valid() && State() == Apply(old(State()), OnNode(RemoveNode(node)), env)
    {
      DirtyBits.OperationsKeepSound(State(), OnNode(RemoveNode(node)), env);
      RemoveNodeRow(node);
      Disconnect(node);
      ClearNodePendingRestart(node);
    }

    method Disconnect(node: NodeId)
      modifies this`running
      ensures running == map n | n in old(running) && n != node :: old(running)[n]
    {
      running := map n | n in running && n != node :: running[n];
    }

    method ModifyNodeSettings(node: NodeId, apiPort: int, accessLog: bool, errorLog: bool, env: Env)
      requires Valid()
      modifies this
      ensures Valid() && State() == Apply(old(State()), OnNode(ModifyNode(node, apiPort, accessLog, errorLog)), env)
    {
      if node in nodes {
        nodes := nodes[node := nodes[node].(apiPort := apiPort, accessLog := accessLog, errorLog := errorLog)];
        Commit();
        Disconnect(node);
      }
    }

    method LoadNodeXrayConfig(node: NodeId, env: Env) returns (r: Result<Config, ConfigError>)
      requires node in nodes
      ensures r == Generate(ViewFor(Session(), node), env.excludedTags)
    {
      var view := ViewFor(Session(), node);
      var payload := MergeManagedConfigs(view.node.template, view, env.excludedTags);
      match Validate(payload.inbounds, payload.outbounds, false)
      case Some(e) => r := Err(e);
      case None =>
        var prepared := ResolveInbounds(payload.inbounds, env.excludedTags);
        var config := ApplyApi(
          Config(prepared, payload.outbounds, payload.rules, Logged(payload.sections, view.node)), view.node.apiPort);
        r := Ok(config);
    }

    // ---- the steps of a thread that starts a node ---------------------------------------------

    method DropTask(task: TaskId)
      modifies this`tasks
      ensures tasks == map k | k in old(tasks) && k != task :: old(tasks)[k]
    {
      tasks := map k | k in tasks && k != task :: tasks[k];
    }

    method LoadForStart(task: TaskId, node: NodeId, restarting: bool, env: Env)
      requires Valid()
      modifies this
      ensures Valid() && State() == Apply(old(State()), OnNode(Load(task, node, restarting)), env)
    {
      if node in nodes {
        LoadStored(task, node, restarting, env);
      } else {
        DropTask(task);
      }
    }

    method LoadStored(task: TaskId, node: NodeId, restarting: bool, env: Env)
      requires node in nodes
      modifies this`running, this`tasks
      ensures State() == Loaded(old(State()), task, node, restarting, env)
    {
      var config := LoadNodeXrayConfig(node, env);
      match config
      case Err(_) =>
        DropTask(task);
        if restarting {
          Disconnect(node);
        }
      case Ok(loaded) => tasks := tasks[task := Task(node, loaded, false)];
    }

    method DeliverConfig(task: TaskId, env: Env)
      requires Valid()
      modifies this
      ensures Valid() && State() == Apply(old(State()), OnNode(Deliver(task)), env)
    {
      if task in tasks {
        var t := tasks[task];
        running := running[t.node := t.config];
        tasks := tasks[task := t.(delivered := true)];
      }
    }

    method FinishStart(task: TaskId, env: Env)
      requires Valid()
      modifies this
      ensures Valid() && State() == Apply(old(State()), OnNode(Finish(task)), env)
    {
      if task in tasks {
        var t := tasks[task];
        if t.delivered {
          ClearNodePendingRestart(t.node);
        }
        DropTask(task);
      }
    }

    // A thread that nobody interrupts leaves its node up to date.
    method RestartNode(task: TaskId, node: NodeId, restarting: bool, env: Env)
      requires Valid() && DirtyBits.DirtyBitsSound(State(), env)
      modifies this
      ensures Valid() && DirtyBits.DirtyBitsSound(State(), env)
      ensures State() == Apply(Apply(Apply(old(State()), OnNode(Load(task, node, restarting)), env),
                                     OnNode(Deliver(task)), env), OnNode(Finish(task)), env)
      ensures node in nodes && Generate(ViewFor(Session(), node), env.excludedTags).Ok? ==>
        node !in pending && DirtyBits.UpToDate(State(), node, env)
    {
      DirtyBits.StartKeepsDirtyBits(State(), task, node, restarting, env);
      LoadForStart(task, node, restarting, env);
      DeliverConfig(task, env);
      FinishStart(task, env);
    }

    // ---- whole runs ---------------------------------------------------------------------------

    method PerformOnInbounds(op: InboundOp, env: Env)
      requires Valid()
      modifies this
      ensures Valid() && State() == Apply(old(State()), OnInbounds(op), env)
    {
      match op
      case CreateInbound(tag, content, enabled, nodeIds, autoAssign) =>
        CreateInboundConfig(tag, content, enabled, nodeIds, autoAssign, env);
      case ModifyInbound(tag, edit) => ModifyInboundConfig(tag, edit, env);
      case DeleteInbound(tag) => DeleteInboundConfig(tag, env);
      case AssignInbounds(assignments) => ModifyInboundNodes(assignments, env);
    }

    method PerformOnOutbounds(op: OutboundOp, env: Env)
      requires Valid()
      modifies this
      ensures Valid() && State() == Apply(old(State()), OnOutbounds(op), env)
    {
      match op
      case CreateOutbound(tag, content, enabled, nodeIds) => CreateOutboundConfig(tag, content, enabled, nodeIds, env);
      case ModifyOutbound(tag, edit) => ModifyOutboundConfig(tag, edit, env);
      case DeleteOutbound(tag) => DeleteOutboundConfig(tag, env);
    }

    method PerformOnRules(op: RuleOp, env: Env)
      requires Valid()
      modifies this
      ensures Valid() && State() == Apply(old(State()), OnRules(op), env)
    {
      match op
      case CreateRule(rule, enabled, nodeIds, position) => CreateRoutingRule(rule, enabled, nodeIds, position, env);
      case ModifyRule(id, edit) => ModifyRoutingRule(id, edit, env);
      case ReorderRules(ids) => ReorderRoutingRules(ids, env);
      case DeleteRule(id) => DeleteRoutingRule(id, env);
    }

    method PerformOnNode(op: NodeOp, env: Env)
      requires Valid()
      modifies this
      ensures Valid() && State() == Apply(old(State()), OnNode(op), env)
    {
      match op
      case ChangeTemplate(node, template) => ModifyNodeConfigTemplate(node, template, env);
      case AddNode(node, row) => AddNewNode(node, row, env);
      case ModifyNode(node, apiPort, accessLog, errorLog) =>
        ModifyNodeSettings(node, apiPort, accessLog, errorLog, env);
      case RemoveNode(node) => RemoveNodeConfig(node, env);
      case ChangeNodeFiles(node) => MarkNodesPendingRestart({node});
      case Load(task, node, restarting) => LoadForStart(task, node, restarting, env);
      case Deliver(task) => DeliverConfig(task, env);
      case Finish(task) => FinishStart(task, env);
      case Stop(node) => Disconnect(node);
    }

    // One request, or one step of a thread. The dirty bits stay sound under the conditions of the step.
    method Perform(a: Action, env: Env)
      requires Valid()
      modifies this
      ensures Valid() && State() == Apply(old(State()), a, env)
      ensures DirtyBits.Allowed(old(State()), a, env) ==> DirtyBits.DirtyBitsSound(State(), env)
    {
      ghost var p := State();
      match a {
        case OnInbounds(op) => PerformOnInbounds(op, env);
        case OnOutbounds(op) => PerformOnOutbounds(op, env);
        case OnRules(op) => PerformOnRules(op, env);
        case OnNode(op) => PerformOnNode(op, env);
      }
      if DirtyBits.Allowed(p, a, env) {
        DirtyBits.StepKeepsDirtyBits(p, a, env);
      }
    }

    // Whatever the order of requests and steps, the store goes through a run of the transition system;
    // and a careful run keeps the dirty bits sound.
    method PerformAll(actions: seq<Action>, env: Env) returns (ghost states: seq<Panel>)
      requires Valid()
      modifies this
      ensures DirtyBits.IsRun(states, actions, env)
      ensures states[0] == old(State()) && State() == states[|actions|] && Valid()
      ensures PanelRuns.CarefulRun(states, actions, env) && PanelRuns.Good(old(State()), env) ==>
        PanelRuns.Good(State(), env)
    {
      states := [State()];
      for i := 0 to |actions|
        invariant Valid() && |states| == i + 1 && states[0] == old(State()) && State() == states[i]
        invariant DirtyBits.IsRun(states, actions[..i], env)
      {
        Perform(actions[i], env);
        DirtyBits.RunGoesOn(states, actions[..i], actions[i], State(), env);
        states := states + [State()];
        assert actions[..i + 1] == actions[..i] + [actions[i]];
      }
      assert actions[..|actions|] == actions;
      if PanelRuns.CarefulRun(states, actions, env) && PanelRuns.Good(states[0], env) {
        PanelRuns.CarefulRunsKeepDirtyBits(states, actions, |actions|, env);
      }
    }
  }

  lemma {:induction false} RuleByIdFinds(rules: seq<RuleRow>, i: nat)
    requires i < |rules|
    ensures RuleById(rules, rules[i].id).Some?
  {
    if i < |rules| - 1 {
      RuleByIdFinds(rules[..|rules| - 1], i);
    }
  }

  // A complete order names only stored rules.
  lemma KnownRule(rules: seq<RuleRow>, ids: seq<nat>, k: nat)
    requires CompleteOrder(rules, ids) && k < |ids|
    ensures RuleById(rules, ids[k]).Some?
  {
    var given := set id | id in ids;
    assert ids[k] in given;
    var row :| row in rules && row.id == ids[k];
    var i :| 0 <= i < |rules| && rules[i] == row;
    RuleByIdFinds(rules, i);
  }
}
