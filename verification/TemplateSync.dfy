// sync_readonly_node_config as a whole: inbounds with their default hosts and user accounts, then
// outbounds, then routing rules.

module TemplateSync {
  import opened Wrappers
  import opened NodeTables
  import opened Protocols
  import opened RoutingRules
  import RowSync
  import RuleSync
  import Accounts

  type NewSettings = (nat, string) -> string

  const HOST_REMARK := "Marz ({USERNAME}) [{PROTOCOL} - {TRANSPORT}]"
  const HOST_ADDRESS := "{SERVER_IP}"

  function NextHostPosition(hosts: seq<Host>): int {
    if hosts == [] then 0
    else
      var earlier, last := NextHostPosition(hosts[..|hosts| - 1]), hosts[|hosts| - 1].position + 1;
      if |hosts| == 1 || earlier < last then last else earlier
  }

  function HostsKept(hosts: seq<Host>, deleted: seq<string>): seq<Host> {
    if hosts == [] then []
    else
      var host := hosts[|hosts| - 1];
      if host.inboundTag in deleted then HostsKept(hosts[..|hosts| - 1], deleted)
      else HostsKept(hosts[..|hosts| - 1], deleted) + [host]
  }

  function DefaultHosts(created: seq<ConfigRow>, position: int): seq<Host> {
    if created == [] then []
    else
      var n := |created| - 1;
      DefaultHosts(created[..n], position) + [Host(created[n].tag, HOST_REMARK, HOST_ADDRESS, position + n)]
  }

  // The tags of the deleted inbounds leave every account's exclusions.
  function UserKept(user: User, deleted: seq<string>): User {
    user.(proxies := map p | p in user.proxies ::
      user.proxies[p].(excluded := user.proxies[p].excluded - (set tag | tag in deleted)))
  }

  function UsersKept(users: seq<User>, deleted: seq<string>): seq<User> {
    seq(|users|, i requires 0 <= i < |users| => UserKept(users[i], deleted))
  }

  function TagsOf(rows: seq<ConfigRow>, protocol: string): seq<string> {
    if rows == [] then []
    else
      var row := rows[|rows| - 1];
      if row.content.protocol == protocol then TagsOf(rows[..|rows| - 1], protocol) + [row.tag]
      else TagsOf(rows[..|rows| - 1], protocol)
  }

  function ItemTags(items: seq<Item>, protocol: string): seq<string> {
    if items == [] then []
    else
      var x := items[|items| - 1];
      if x.protocol == protocol then ItemTags(items[..|items| - 1], protocol) + [x.tag]
      else ItemTags(items[..|items| - 1], protocol)
  }

  // The protocols of the new inbounds, in order of first appearance.
  function NewProtocols(created: seq<ConfigRow>): seq<string> {
    if created == [] then []
    else
      var earlier, protocol := NewProtocols(created[..|created| - 1]), created[|created| - 1].content.protocol;
      if protocol in earlier then earlier else earlier + [protocol]
  }

  // Accounts for the users that lack one on a new inbound's protocol.
  function UsersEnsured(
      users: seq<User>, rows: seq<ConfigRow>, created: seq<ConfigRow>, wanted: seq<Item>, protocols: seq<string>,
      excludedTags: set<string>, settings: NewSettings): seq<User>
  {
    if protocols == [] then users
    else
      var n := |protocols| - 1;
      var protocol := protocols[n];
      var earlier := UsersEnsured(users, rows, created, wanted, protocols[..n], excludedTags, settings);
      var included := TagsOf(created, protocol);
      if protocol !in ACCOUNT_PROTOCOLS
         || (forall tag :: tag in included ==> !Accounts.Usable(tag, excludedTags)) then earlier
      else Accounts.EnsuredUsers(
        earlier, protocol, Accounts.OtherTags(rows, included, ItemTags(wanted, protocol), excludedTags), settings)
  }

  function SyncedInbounds(t: Tables, node: NodeId, wanted: seq<Item>, excludedTags: set<string>, settings: NewSettings): Tables {
    var rows := RowSync.SyncedRows(t.inbounds, node, wanted);
    var created := RowSync.NewRows(t.inbounds, node, wanted);
    var deleted := RowSync.DeletedTags(t.inbounds, node, wanted);
    t.(
      inbounds := rows,
      hosts := HostsKept(t.hosts, deleted) + DefaultHosts(created, NextHostPosition(t.hosts)),
      users := UsersEnsured(
        UsersKept(t.users, deleted), rows, created, wanted, NewProtocols(created), excludedTags, settings))
  }

  // The outbound and rule part, on tables whose inbounds are synced.
  function SyncedRoutes(t: Tables, node: NodeId, template: Template): Result<Tables, RowSync.SyncError> {
    var outbounds := RowSync.TemplateOutboundContents(template);
    match RowSync.FirstConflict(t.outbounds, node, outbounds)
    case Some(e) => Err(e)
    case None =>
      match NormalizeAll(template.rules)
      case Err(p) => Err(RowSync.InvalidRule(p))
      case Ok(rules) =>
        var table := RuleSync.SyncedRules(RuleSync.RuleTable(t.rules, t.nextRuleId), node, rules);
        Ok(t.(
          outbounds := RowSync.SyncedRows(t.outbounds, node, outbounds),
          rules := table.rules,
          nextRuleId := table.nextId))
  }

  function Synced(t: Tables, node: NodeId, template: Template, excludedTags: set<string>, settings: NewSettings)
    : Result<Tables, RowSync.SyncError>
  {
    var inbounds := RowSync.TemplateInboundContents(template, excludedTags);
    match RowSync.FirstConflict(t.inbounds, node, inbounds)
    case Some(e) => Err(e)
    case None => SyncedRoutes(SyncedInbounds(t, node, inbounds, excludedTags, settings), node, template)
  }
}
