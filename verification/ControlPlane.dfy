// The operations that change what nodes should run, the set of nodes pending a restart, and the
// configs nodes do run: as one transition system.

module ControlPlane {
  import opened Wrappers
  import opened NodeTables
  import opened Protocols
  import opened NodeConfig
  import opened ConfigTemplate
  import opened TemplateSync
  import opened RoutingRules
  import Accounts
  import Registry

  // Settings of the environment, and the random settings of new accounts.
  datatype Env = Env(excludedTags: set<string>, newSettings: NewSettings)

  // A thread that connects or restarts a node, between loading the config and clearing the mark.
  datatype Task = Task(node: NodeId, config: Config, delivered: bool)

  type TaskId = nat

  datatype Panel = Panel(
    tables: Tables, pending: set<NodeId>, running: map<NodeId, Config>, tasks: map<TaskId, Task>)

  // The fields of a modify request that are not null.
  datatype RowEdit = RowEdit(content: Option<Item>, enabled: Option<bool>, nodes: Option<set<NodeId>>)

  datatype RuleEdit = RuleEdit(
    content: Option<Rule>, enabled: Option<bool>, nodes: Option<set<NodeId>>, position: Option<nat>)

  datatype InboundOp =
    | CreateInbound(tag: string, content: Item, enabled: bool, nodeIds: set<NodeId>, autoAssign: bool)
    | ModifyInbound(tag: string, edit: RowEdit)
    | DeleteInbound(tag: string)
    | AssignInbounds(assignments: map<string, set<NodeId>>)

  datatype OutboundOp =
    | CreateOutbound(tag: string, content: Item, enabled: bool, nodeIds: set<NodeId>)
    | ModifyOutbound(tag: string, edit: RowEdit)
    | DeleteOutbound(tag: string)

  datatype RuleOp =
    | CreateRule(rule: Rule, enabled: bool, nodeIds: set<NodeId>, position: Option<nat>)
    | ModifyRule(id: nat, edit: RuleEdit)
    | ReorderRules(ids: seq<nat>)
    | DeleteRule(id: nat)

  datatype NodeOp =
    | ChangeTemplate(node: NodeId, template: Template)
    | AddNode(node: NodeId, row: NodeRow)
    | ModifyNode(node: NodeId, apiPort: int, accessLog: bool, errorLog: bool)
    | RemoveNode(node: NodeId)
    | ChangeNodeFiles(node: NodeId)   // certificates and geo resources
    | Load(task: TaskId, node: NodeId, restarting: bool)   // restart_node, or else connect_node
    | Deliver(task: TaskId)           // the node starts with the loaded config
    | Finish(task: TaskId)            // the mark is cleared, unless starting failed
    | Stop(node: NodeId)              // the transport fails, or the connection is lost

  datatype Action =
    | OnInbounds(inboundOp: InboundOp)
    | OnOutbounds(outboundOp: OutboundOp)
    | OnRules(ruleOp: RuleOp)
    | OnNode(nodeOp: NodeOp)

  // ---- inbounds and outbounds ---------------------------------------------------------------

  // New content is validated along with all other stored rows.
  predicate ValidInbound(t: Tables, tag: string, content: Item, env: Env) {
    && tag != "" && ',' !in tag && content.protocol in INBOUND_PROTOCOLS
    && Registry.RowsFit(t.nodes, t.inbounds, {tag, API_TAG}, env.excludedTags)
  }

  predicate ValidOutbound(t: Tables, tag: string, content: Item, env: Env) {
    && tag != "" && content.protocol in OUTBOUND_PROTOCOLS
    && Registry.RowsFit(t.nodes, t.inbounds, {}, env.excludedTags)
  }

  function RowIndex(rows: seq<ConfigRow>, tag: string): (i: Option<nat>)
    ensures i.Some? ==> i.value < |rows| && rows[i.value].tag == tag
    ensures i.None? ==> forall row :: row in rows ==> row.tag != tag
  {
    if rows == [] then None
    else if rows[|rows| - 1].tag == tag then Some(|rows| - 1)
    else RowIndex(rows[..|rows| - 1], tag)
  }

  function CreatedRow(tag: string, content: Item, enabled: bool, nodeIds: set<NodeId>): ConfigRow {
    ConfigRow(tag, content.(tag := tag), enabled, false, nodeIds)
  }

  function EditedRow(row: ConfigRow, edit: RowEdit): ConfigRow {
    row.(
      content := if edit.content.Some? then edit.content.value.(tag := row.tag) else row.content,
      enabled := if edit.enabled.Some? then row.readonly || edit.enabled.value else row.enabled,
      nodes := if edit.nodes.Some? then edit.nodes.value else row.nodes)
  }

  function Removed<T>(rows: seq<T>, i: nat): seq<T>
    requires i < |rows|
  {
    rows[..i] + rows[i + 1..]
  }

  // _ensure_inbound_users. It fails, and changes nobody, when the registry cannot be built.
  function InboundUsers(
      users: seq<User>, nodes: map<NodeId, NodeRow>, rows: seq<ConfigRow>, row: ConfigRow, env: Env): seq<User>
  {
    var protocol := row.content.protocol;
    if !Registry.RegistryBuilds(nodes, rows, env.excludedTags) || !row.enabled || protocol !in ACCOUNT_PROTOCOLS || !Accounts.Usable(row.tag, env.excludedTags) then users
    else
      var registry := Accounts.ProtocolTags(rows, protocol, env.excludedTags);
      Accounts.EnsuredUsers(
        users, protocol, Accounts.OtherTags(rows, [row.tag], registry, env.excludedTags), env.newSettings)
  }

  function ManualUsers(users: seq<User>, rows: seq<ConfigRow>, row: ConfigRow, env: Env): seq<User> {
    if row.content.protocol !in ACCOUNT_PROTOCOLS then users
    else
      var tags := Accounts.StoredTags(rows, [row.tag], env.excludedTags);
      seq(|users|, i requires 0 <= i < |users| => Accounts.ExcludingUser(users[i], row.content.protocol, tags))
  }

  function CreatedInbound(
      t: Tables, tag: string, content: Item, enabled: bool, nodeIds: set<NodeId>, autoAssign: bool, env: Env): Option<Tables>
  {
    if !ValidInbound(t, tag, content, env) || RowIndex(t.inbounds, tag).Some? || !(nodeIds <= t.nodes.Keys) then None
    else
      var row := CreatedRow(tag, content, enabled, nodeIds);
      var rows := t.inbounds + [row];
      var users := if autoAssign then InboundUsers(t.users, t.nodes, rows, row, env) else ManualUsers(t.users, rows, row, env);
      Some(t.(inbounds := rows, users := users))
  }

  function ModifiedInbound(t: Tables, tag: string, edit: RowEdit, env: Env): Option<Tables> {
    var found := RowIndex(t.inbounds, tag);
    if found.None? then None
    else
      var row := t.inbounds[found.value];
      if edit.content.Some? && (row.readonly || !ValidInbound(t, tag, edit.content.value, env)) then None
      else if edit.nodes.Some? && !(edit.nodes.value <= t.nodes.Keys) then None
      else
        var row' := EditedRow(row, edit);
        var rows := t.inbounds[found.value := row'];
        var users := if row'.enabled && !row.enabled then InboundUsers(t.users, t.nodes, rows, row', env) else t.users;
        Some(t.(inbounds := rows, users := users))
  }

  function ForgetTag(users: seq<User>, tag: string): seq<User> {
    UsersKept(users, [tag])
  }

  function DeletedInbound(t: Tables, tag: string): Option<Tables> {
    var found := RowIndex(t.inbounds, tag);
    if found.None? || t.inbounds[found.value].readonly then None
    else Some(t.(
      inbounds := Removed(t.inbounds, found.value),
      hosts := HostsKept(t.hosts, [tag]),
      users := ForgetTag(t.users, tag)))
  }

  function AssignedRow(row: ConfigRow, assignments: map<string, set<NodeId>>): ConfigRow {
    if row.tag in assignments then row.(nodes := assignments[row.tag]) else row
  }

  function AssignedInbounds(t: Tables, assignments: map<string, set<NodeId>>): Option<Tables> {
    if (exists tag :: tag in assignments && RowIndex(t.inbounds, tag).None?)
       || (exists tag :: tag in assignments && !(assignments[tag] <= t.nodes.Keys)) then None
    else Some(t.(inbounds := seq(|t.inbounds|, i requires 0 <= i < |t.inbounds| => AssignedRow(t.inbounds[i], assignments))))
  }

  function CreatedOutbound(
      t: Tables, tag: string, content: Item, enabled: bool, nodeIds: set<NodeId>, env: Env): Option<Tables>
  {
    if !ValidOutbound(t, tag, content, env) || RowIndex(t.outbounds, tag).Some? || !(nodeIds <= t.nodes.Keys) then None
    else Some(t.(outbounds := t.outbounds + [CreatedRow(tag, content, enabled, nodeIds)]))
  }

  function ModifiedOutbound(t: Tables, tag: string, edit: RowEdit, env: Env): Option<Tables> {
    var found := RowIndex(t.outbounds, tag);
    if found.None? then None
    else
      var row := t.outbounds[found.value];
      if edit.content.Some? && (row.readonly || !ValidOutbound(t, tag, edit.content.value, env)) then None
      else if edit.nodes.Some? && !(edit.nodes.value <= t.nodes.Keys) then None
      else Some(t.(outbounds := t.outbounds[found.value := EditedRow(row, edit)]))
  }

  function DeletedOutbound(t: Tables, tag: string): Option<Tables> {
    var found := RowIndex(t.outbounds, tag);
    if found.None? || t.outbounds[found.value].readonly then None
    else Some(t.(outbounds := Removed(t.outbounds, found.value)))
  }

  // ---- routing rules ------------------------------------------------------------------------

  function RuleById(rules: seq<RuleRow>, id: nat): (i: Option<nat>)
    ensures i.Some? ==> i.value < |rules| && rules[i.value].id == id
  {
    if rules == [] then None
    else if rules[|rules| - 1].id == id then Some(|rules| - 1)
    else RuleById(rules[..|rules| - 1], id)
  }

  function NextPosition(rules: seq<RuleRow>): int {
    if rules == [] then 0
    else
      var earlier, last := NextPosition(rules[..|rules| - 1]), rules[|rules| - 1].position + 1;
      if |rules| == 1 || earlier < last then last else earlier
  }

  function CreatedRule(t: Tables, rule: Rule, enabled: bool, nodeIds: set<NodeId>, position: Option<nat>): Option<Tables> {
    var normal := NormalizeRuleContent(rule);
    if normal.Err? || !(nodeIds <= t.nodes.Keys) then None
    else
      var place := if position.Some? then position.value else NextPosition(t.rules);
      Some(t.(
        rules := t.rules + [RuleRow(t.nextRuleId, normal.value.ruleTag, normal.value, enabled, false, place, nodeIds)],
        nextRuleId := t.nextRuleId + 1))
  }

  function EditedRule(row: RuleRow, edit: RuleEdit): RuleRow {
    row.(
      name := if edit.content.Some? then edit.content.value.ruleTag else row.name,
      content := if edit.content.Some? then edit.content.value else row.content,
      enabled := if edit.enabled.Some? then row.readonly || edit.enabled.value else row.enabled,
      position := if edit.position.Some? then edit.position.value else row.position,
      nodes := if edit.nodes.Some? then edit.nodes.value else row.nodes)
  }

  // The request's content in normal form; None when it is malformed.
  function NormalEdit(edit: RuleEdit): Option<RuleEdit> {
    if edit.content.None? then Some(edit)
    else
      match NormalizeRuleContent(edit.content.value)
      case Err(_) => None
      case Ok(normal) => Some(edit.(content := Some(normal)))
  }

  function ModifiedRule(t: Tables, id: nat, edit: RuleEdit): Option<Tables> {
    var found, normal := RuleById(t.rules, id), NormalEdit(edit);
    if found.None? || normal.None? then None
    else
      var row := t.rules[found.value];
      if row.readonly && edit.content.Some? then None
      else if edit.nodes.Some? && !(edit.nodes.value <= t.nodes.Keys) then None
      else Some(t.(rules := t.rules[found.value := EditedRule(row, normal.value)]))
  }

  function IndexOf(ids: seq<nat>, id: nat): (i: Option<nat>)
    ensures i.Some? <==> id in ids
    ensures i.Some? ==> i.value < |ids| && ids[i.value] == id
  {
    if ids == [] then None
    else if ids[|ids| - 1] == id then Some(|ids| - 1)
    else IndexOf(ids[..|ids| - 1], id)
  }

  predicate CompleteOrder(rules: seq<RuleRow>, ids: seq<nat>) {
    && |ids| == |set id | id in ids|
    && (set id | id in ids) == (set row | row in rules :: row.id)
  }

  function PlacedRule(row: RuleRow, ids: seq<nat>): RuleRow {
    match IndexOf(ids, row.id)
    case Some(p) => row.(position := p)
    case None => row
  }

  function PlacedRules(rules: seq<RuleRow>, ids: seq<nat>): (r: seq<RuleRow>)
    ensures |r| == |rules|
    ensures forall i :: 0 <= i < |rules| ==> r[i] == PlacedRule(rules[i], ids)
  {
    seq(|rules|, i requires 0 <= i < |rules| => PlacedRule(rules[i], ids))
  }

  function ReorderedRules(t: Tables, ids: seq<nat>): Option<Tables> {
    if !CompleteOrder(t.rules, ids) then None else Some(t.(rules := PlacedRules(t.rules, ids)))
  }

  function DeletedRule(t: Tables, id: nat): Option<Tables> {
    var found := RuleById(t.rules, id);
    if found.None? || t.rules[found.value].readonly then None
    else Some(t.(rules := Removed(t.rules, found.value)))
  }

  // ---- nodes --------------------------------------------------------------------------------

  function WithoutNodes(rows: seq<ConfigRow>, node: NodeId): seq<ConfigRow> {
    seq(|rows|, i requires 0 <= i < |rows| => rows[i].(nodes := rows[i].nodes - {node}))
  }

  function RulesWithoutNode(rules: seq<RuleRow>, node: NodeId): seq<RuleRow> {
    seq(|rules|, i requires 0 <= i < |rules| => rules[i].(nodes := rules[i].nodes - {node}))
  }

  // Shared rows survive a removed node; only its assignments go.
  function NodeRemoved(t: Tables, node: NodeId): Tables {
    t.(
      nodes := map n | n in t.nodes && n != node :: t.nodes[n],
      inbounds := WithoutNodes(t.inbounds, node),
      outbounds := WithoutNodes(t.outbounds, node),
      rules := RulesWithoutNode(t.rules, node))
  }

  // ---- what each operation marks ------------------------------------------------------------

  function RowNodes(rows: seq<ConfigRow>, tag: string): set<NodeId> {
    var found := RowIndex(rows, tag);
    if found.Some? then rows[found.value].nodes else {}
  }

  function RuleNodes(rules: seq<RuleRow>, id: nat): set<NodeId> {
    var found := RuleById(rules, id);
    if found.Some? then rules[found.value].nodes else {}
  }

  function EditedNodes(nodes: set<NodeId>, edit: Option<set<NodeId>>): set<NodeId> {
    nodes + if edit.Some? then edit.value else {}
  }

  // The nodes whose inbound set an assignment really changes, before and after.
  function ReassignedNodes(rows: seq<ConfigRow>, assignments: map<string, set<NodeId>>): set<NodeId> {
    set row, node | row in rows && row.tag in assignments && row.nodes != assignments[row.tag]
                    && node in row.nodes + assignments[row.tag] :: node
  }

  // A rule whose requested position is not the one it has.
  predicate Moves(row: RuleRow, ids: seq<nat>) {
    match IndexOf(ids, row.id)
    case Some(p) => p != row.position
    case None => true
  }

  function MovedNodes(rules: seq<RuleRow>, ids: seq<nat>): set<NodeId> {
    set row, node | row in rules && Moves(row, ids) && node in row.nodes :: node
  }

  // ---- the transition function --------------------------------------------------------------

  // A rejected request leaves everything as it was; another one commits and marks.
  function Commit(p: Panel, result: Option<Tables>, marks: set<NodeId>): Panel {
    if result.None? then p else p.(tables := result.value, pending := p.pending + marks)
  }

  function Disconnected(p: Panel, node: NodeId): Panel {
    p.(running := map n | n in p.running && n != node :: p.running[n])
  }

  // The template is committed before the sync runs: a rejected sync leaves the new template beside
  // the old rows, and marks nobody.
  function TemplateChanged(p: Panel, node: NodeId, template: Template, env: Env): Panel {
    if node !in p.tables.nodes then p
    else
      match NormalizedTemplate(template)
      case Err(_) => p
      case Ok(normal) =>
        var t := p.tables.(nodes := p.tables.nodes[node := p.tables.nodes[node].(template := normal)]);
        match Synced(t, node, normal, env.excludedTags, env.newSettings)
        case Err(_) => p.(tables := t)
        case Ok(t') => p.(tables := t', pending := p.pending + {node})
  }

  // A node whose template cannot be synced is removed again.
  function NodeAdded(p: Panel, node: NodeId, row: NodeRow, env: Env): Panel {
    if node in p.tables.nodes then p
    else
      match NormalizedTemplate(row.template)
      case Err(_) => p
      case Ok(normal) =>
        var t := p.tables.(nodes := p.tables.nodes[node := row.(template := normal)]);
        match Synced(t, node, normal, env.excludedTags, env.newSettings)
        case Err(_) => p.(tables := NodeRemoved(t, node))
        case Ok(t') => p.(tables := t')
  }

  function NodeModified(p: Panel, node: NodeId, apiPort: int, accessLog: bool, errorLog: bool): Panel {
    if node !in p.tables.nodes then p
    else
      var row := p.tables.nodes[node].(apiPort := apiPort, accessLog := accessLog, errorLog := errorLog);
      Disconnected(p.(tables := p.tables.(nodes := p.tables.nodes[node := row])), node)
  }

  function WithoutTask(p: Panel, task: TaskId): Panel {
    p.(tasks := map k | k in p.tasks && k != task :: p.tasks[k])
  }

  // A thread loads the config of a node. When that fails it is over, and a restart disconnects the node.
  function Loaded(p: Panel, task: TaskId, node: NodeId, restarting: bool, env: Env): Panel {
    if node !in p.tables.nodes then WithoutTask(p, task)
    else
      match Generate(ViewFor(p.tables, node), env.excludedTags)
      case Err(_) => if restarting then Disconnected(WithoutTask(p, task), node) else WithoutTask(p, task)
      case Ok(config) => p.(tasks := p.tasks[task := Task(node, config, false)])
  }

  function Delivered(p: Panel, task: TaskId): Panel {
    if task !in p.tasks then p
    else
      var t := p.tasks[task];
      p.(running := p.running[t.node := t.config], tasks := p.tasks[task := t.(delivered := true)])
  }

  function Finished(p: Panel, task: TaskId): Panel {
    if task !in p.tasks then p
    else
      var t := p.tasks[task];
      WithoutTask(p.(pending := if t.delivered then p.pending - {t.node} else p.pending), task)
  }

  function InboundResult(t: Tables, op: InboundOp, env: Env): Option<Tables> {
    match op
    case CreateInbound(tag, content, enabled, nodeIds, autoAssign) =>
      CreatedInbound(t, tag, content, enabled, nodeIds, autoAssign, env)
    case ModifyInbound(tag, edit) => ModifiedInbound(t, tag, edit, env)
    case DeleteInbound(tag) => DeletedInbound(t, tag)
    case AssignInbounds(assignments) => AssignedInbounds(t, assignments)
  }

  // The old and the new nodes of the rows that an operation changes.
  function InboundNodes(t: Tables, op: InboundOp): set<NodeId> {
    match op
    case CreateInbound(_, _, _, nodeIds, _) => nodeIds
    case ModifyInbound(tag, edit) => EditedNodes(RowNodes(t.inbounds, tag), edit.nodes)
    case DeleteInbound(tag) => RowNodes(t.inbounds, tag)
    case AssignInbounds(assignments) => ReassignedNodes(t.inbounds, assignments)
  }

  function OutboundResult(t: Tables, op: OutboundOp, env: Env): Option<Tables> {
    match op
    case CreateOutbound(tag, content, enabled, nodeIds) => CreatedOutbound(t, tag, content, enabled, nodeIds, env)
    case ModifyOutbound(tag, edit) => ModifiedOutbound(t, tag, edit, env)
    case DeleteOutbound(tag) => DeletedOutbound(t, tag)
  }

  // Filling in accounts comes after the new row is committed and before its nodes are marked.
  predicate FillsAccounts(t: Tables, op: InboundOp) {
    match op
    case CreateInbound(_, _, _, _, autoAssign) => autoAssign
    case ModifyInbound(tag, edit) =>
      var found := RowIndex(t.inbounds, tag);
      found.Some? && !t.inbounds[found.value].enabled && EditedRow(t.inbounds[found.value], edit).enabled
    case _ => false
  }

  predicate FillingFails(t: Tables, op: InboundOp, env: Env) {
    var result := InboundResult(t, op, env);
    && result.Some? && FillsAccounts(t, op)
    && !Registry.RegistryBuilds(t.nodes, result.value.inbounds, env.excludedTags)
  }

  function InboundMarks(t: Tables, op: InboundOp, env: Env): set<NodeId> {
    if FillingFails(t, op, env) then {} else InboundNodes(t, op)
  }

  function OutboundMarks(t: Tables, op: OutboundOp): set<NodeId> {
    match op
    case CreateOutbound(_, _, _, nodeIds) => nodeIds
    case ModifyOutbound(tag, edit) => EditedNodes(RowNodes(t.outbounds, tag), edit.nodes)
    case DeleteOutbound(tag) => RowNodes(t.outbounds, tag)
  }

  function RuleResult(t: Tables, op: RuleOp): Option<Tables> {
    match op
    case CreateRule(rule, enabled, nodeIds, position) => CreatedRule(t, rule, enabled, nodeIds, position)
    case ModifyRule(id, edit) => ModifiedRule(t, id, edit)
    case ReorderRules(ids) => ReorderedRules(t, ids)
    case DeleteRule(id) => DeletedRule(t, id)
  }

  function RuleMarks(t: Tables, op: RuleOp): set<NodeId> {
    match op
    case CreateRule(_, _, nodeIds, _) => nodeIds
    case ModifyRule(id, edit) => EditedNodes(RuleNodes(t.rules, id), edit.nodes)
    case ReorderRules(ids) => MovedNodes(t.rules, ids)
    case DeleteRule(id) => RuleNodes(t.rules, id)
  }

  function ApplyNode(p: Panel, op: NodeOp, env: Env): Panel {
    match op
    case ChangeTemplate(node, template) => TemplateChanged(p, node, template, env)
    case AddNode(node, row) => NodeAdded(p, node, row, env)
    case ModifyNode(node, apiPort, accessLog, errorLog) => NodeModified(p, node, apiPort, accessLog, errorLog)
    case RemoveNode(node) =>
      Disconnected(p.(tables := NodeRemoved(p.tables, node), pending := p.pending - {node}), node)
    case ChangeNodeFiles(node) => p.(pending := p.pending + {node})
    case Load(task, node, restarting) => Loaded(p, task, node, restarting, env)
    case Deliver(task) => Delivered(p, task)
    case Finish(task) => Finished(p, task)
    case Stop(node) => Disconnected(p, node)
  }

  function Apply(p: Panel, a: Action, env: Env): Panel {
    match a
    case OnInbounds(op) => Commit(p, InboundResult(p.tables, op, env), InboundMarks(p.tables, op, env))
    case OnOutbounds(op) => Commit(p, OutboundResult(p.tables, op, env), OutboundMarks(p.tables, op))
    case OnRules(op) => Commit(p, RuleResult(p.tables, op), RuleMarks(p.tables, op))
    case OnNode(op) => ApplyNode(p, op, env)
  }
}
