// Generating a node's Xray config from its template and its assigned rows
// (_merge_managed_configs, load_node_xray_config, and what XRayConfig validates, fills in and overwrites).

module NodeConfig {
  import opened Wrappers
  import opened Json
  import opened NodeTables
  import opened Protocols
  import opened Sorting

  // Everything of the database that one node's config is made from.
  datatype NodeView = NodeView(node: NodeRow, inbounds: seq<RowView>, outbounds: seq<RowView>, rules: seq<RuleView>)

  function ViewFor(t: Tables, node: NodeId): NodeView
    requires node in t.nodes
  {
    NodeView(t.nodes[node], NodeRows(t.inbounds, node), NodeRows(t.outbounds, node), NodeRules(t.rules, node))
  }

  // A generated config.
  datatype Config = Config(inbounds: seq<Item>, outbounds: seq<Item>, rules: seq<Rule>, sections: Sections)

  datatype ConfigError =
    | NoInbounds | NoOutbounds
    | MissingInboundTag | DuplicateInboundTag | CommaInInboundTag
    | MissingOutboundTag | DuplicateOutboundTag

  // ---- merging ------------------------------------------------------------------------------

  function ManagedTags(views: seq<RowView>): set<string> {
    set v | v in views :: v.tag
  }

  function EnabledItems(views: seq<RowView>): seq<Item> {
    if views == [] then []
    else
      var v := views[|views| - 1];
      if v.enabled then EnabledItems(views[..|views| - 1]) + [v.content.(tag := v.tag)]
      else EnabledItems(views[..|views| - 1])
  }

  // The template's entries that no assigned row manages, or that are always the template's.
  function UnmanagedItems(items: seq<Item>, managed: set<string>, excluded: set<string>): seq<Item> {
    if items == [] then []
    else
      var x := items[|items| - 1];
      if x.tag !in managed || x.tag in excluded
      then UnmanagedItems(items[..|items| - 1], managed, excluded) + [x]
      else UnmanagedItems(items[..|items| - 1], managed, excluded)
  }

  function MergedItems(items: seq<Item>, views: seq<RowView>, excluded: set<string>): seq<Item> {
    UnmanagedItems(items, ManagedTags(views), excluded) + EnabledItems(views)
  }

  function ViewPosition(v: RuleView): int { v.position }

  function EnabledRules(views: seq<RuleView>): seq<Rule> {
    if views == [] then []
    else if views[|views| - 1].enabled then EnabledRules(views[..|views| - 1]) + [views[|views| - 1].content]
    else EnabledRules(views[..|views| - 1])
  }

  function MergedRules(views: seq<RuleView>): seq<Rule> {
    EnabledRules(SortBy(views, ViewPosition))
  }

  method MergeItems(items: seq<Item>, views: seq<RowView>, excluded: set<string>) returns (merged: seq<Item>)
    ensures merged == MergedItems(items, views, excluded)
  {
    var managed, stored := {}, [];
    for i := 0 to |views|
      invariant managed == ManagedTags(views[..i])
      invariant stored == EnabledItems(views[..i])
    {
      var v := views[i];
      assert views[..i + 1] == views[..i] + [v];
      managed := managed + {v.tag};
      if v.enabled {
        stored := stored + [v.content.(tag := v.tag)];
      }
    }
    assert views[..|views|] == views;
    merged := [];
    for i := 0 to |items|
      invariant merged == UnmanagedItems(items[..i], managed, excluded)
    {
      assert items[..i + 1][..i] == items[..i];
      if items[i].tag !in managed || items[i].tag in excluded {
        merged := merged + [items[i]];
      }
    }
    assert items[..|items|] == items;
    merged := merged + stored;
  }

  method MergeManagedConfigs(template: Template, view: NodeView, excluded: set<string>) returns (payload: Template)
    ensures payload == MergedPayload(template, view, excluded)
  {
    payload := template;
    var inbounds := MergeItems(payload.inbounds, view.inbounds, excluded);
    payload := payload.(inbounds := inbounds);
    var outbounds := MergeItems(payload.outbounds, view.outbounds, {});
    payload := payload.(outbounds := outbounds);
    var rows := SortBy(view.rules, ViewPosition);
    var rules := [];
    for i := 0 to |rows|
      invariant rules == EnabledRules(rows[..i])
    {
      assert rows[..i + 1][..i] == rows[..i];
      if rows[i].enabled {
        rules := rules + [rows[i].content];
      }
    }
    assert rows[..|rows|] == rows;
    payload := payload.(rules := rules);
  }

  function MergedPayload(template: Template, view: NodeView, excluded: set<string>): Template {
    template.(
      inbounds := MergedItems(template.inbounds, view.inbounds, excluded),
      outbounds := MergedItems(template.outbounds, view.outbounds, {}),
      rules := MergedRules(view.rules))
  }

  // ---- validation ---------------------------------------------------------------------------

  function CheckInboundTags(items: seq<Item>): Option<ConfigError> {
    if items == [] then None
    else
      var earlier, x := items[..|items| - 1], items[|items| - 1];
      if CheckInboundTags(earlier).Some? then CheckInboundTags(earlier)
      else if x.tag == "" then Some(MissingInboundTag)
      else if exists y :: y in earlier && y.tag == x.tag then Some(DuplicateInboundTag)
      else if ',' in x.tag then Some(CommaInInboundTag)
      else None
  }

  function CheckOutboundTags(items: seq<Item>): Option<ConfigError> {
    if items == [] then None
    else
      var earlier, x := items[..|items| - 1], items[|items| - 1];
      if CheckOutboundTags(earlier).Some? then CheckOutboundTags(earlier)
      else if x.tag == "" then Some(MissingOutboundTag)
      else if exists y :: y in earlier && y.tag == x.tag then Some(DuplicateOutboundTag)
      else None
  }

  function Validate(inbounds: seq<Item>, outbounds: seq<Item>, allowEmptyInbounds: bool): Option<ConfigError> {
    if inbounds == [] && !allowEmptyInbounds then Some(NoInbounds)
    else if outbounds == [] then Some(NoOutbounds)
    else if CheckInboundTags(inbounds).Some? then CheckInboundTags(inbounds)
    else CheckOutboundTags(outbounds)
  }

  // ---- what is filled in and overwritten ----------------------------------------------------

  // The file of a log carries the day's date, which is left out here.
  function LogFile(kind: string): Json {
    String("/logs/" + kind + "/")
  }

  function WithLog(log: Fields, kind: string, enabled: bool): Fields {
    if enabled then log[kind := LogFile(kind)] else log - {kind}
  }

  function Logged(sections: Sections, node: NodeRow): Sections {
    sections.(log := WithLog(WithLog(sections.log, "access", node.accessLog), "error", node.errorLog))
  }

  function UserContainer(protocol: string): string {
    if protocol == "hysteria" then "users" else "clients"
  }

  function WithClients(settings: Json, protocol: string): Json {
    if protocol in ACCOUNT_PROTOCOLS && settings.Object? && Missing(settings.fields, UserContainer(protocol))
    then Object(settings.fields[UserContainer(protocol) := List([])])
    else settings
  }

  // A supported inbound gets settings, and an account inbound room for its clients.
  function Prepared(x: Item, excluded: set<string>): Item {
    if x.protocol !in INBOUND_PROTOCOLS || x.tag in excluded then x
    else
      var settings := if Missing(x.body, "settings") then Object(map[]) else x.body["settings"];
      x.(body := x.body["settings" := WithClients(settings, x.protocol)])
  }

  function PreparedItems(items: seq<Item>, excluded: set<string>): (r: seq<Item>)
    ensures |r| == |items| && forall i :: 0 <= i < |items| ==> r[i] == Prepared(items[i], excluded)
  {
    seq(|items|, i requires 0 <= i < |items| => Prepared(items[i], excluded))
  }

  method ResolveInbounds(items: seq<Item>, excluded: set<string>) returns (resolved: seq<Item>)
    ensures resolved == PreparedItems(items, excluded)
  {
    resolved := items;
    for i := 0 to |items|
      invariant |resolved| == |items|
      invariant forall k :: 0 <= k < |items| ==> resolved[k] == if k < i then Prepared(items[k], excluded) else items[k]
    {
      var x := resolved[i];
      if x.protocol in INBOUND_PROTOCOLS && x.tag !in excluded {
        if Missing(x.body, "settings") {
          x := x.(body := x.body["settings" := Object(map[])]);
        }
        x := x.(body := x.body["settings" := WithClients(x.body["settings"], x.protocol)]);
        resolved := resolved[i := x];
      }
    }
  }

  const API_SERVICES: seq<string> := ["HandlerService", "StatsService", "LoggerService", "RoutingService"]

  function WithServices(services: seq<Json>, needed: seq<string>): seq<Json> {
    if needed == [] then services
    else
      var earlier, service := WithServices(services, needed[..|needed| - 1]), String(needed[|needed| - 1]);
      if service in earlier then earlier else earlier + [service]
  }

  function Services(api: Fields): seq<Json> {
    if "services" in api && api["services"].List? then api["services"].items else []
  }

  function ApiName(api: Fields): Json {
    if "tag" in api then api["tag"] else String("API")
  }

  function WithApiServices(api: Fields): Fields {
    api["tag" := ApiName(api)]["services" := List(WithServices(Services(api), API_SERVICES))]
  }

  method EnsureApiServices(api: Fields) returns (ensured: Fields)
    ensures ensured == WithApiServices(api)
  {
    ensured := api;
    if "tag" !in ensured {
      ensured := ensured["tag" := String("API")];
    }
    var services := Services(api);
    for i := 0 to |API_SERVICES|
      invariant services == WithServices(Services(api), API_SERVICES[..i])
    {
      assert API_SERVICES[..i + 1][..i] == API_SERVICES[..i];
      if String(API_SERVICES[i]) !in services {
        services := services + [String(API_SERVICES[i])];
      }
    }
    assert API_SERVICES[..|API_SERVICES|] == API_SERVICES;
    ensured := ensured["services" := List(services)];
  }

  const API_TAG := "API_INBOUND"
  const API_HOST := "127.0.0.1"

  function WithAddress(settings: Fields): Json {
    Object(settings["address" := String(API_HOST)])
  }

  // The API inbound of a config that has none.
  function ApiInbound(port: int): Item {
    Item(API_TAG, "dokodemo-door", map[
      "listen" := String(API_HOST), "port" := Number(port as real), "settings" := WithAddress(map[])])
  }

  // A config's own API inbound has its address and port overwritten.
  function Readdressed(x: Item, port: int): Item {
    if x.tag != API_TAG then x
    else x.(body := x.body["listen" := String(API_HOST)]["port" := Number(port as real)]
                          ["settings" := WithAddress(SubObject(x.body, "settings"))])
  }

  function ReaddressedItems(items: seq<Item>, port: int): (r: seq<Item>)
    ensures |r| == |items| && forall i :: 0 <= i < |items| ==> r[i] == Readdressed(items[i], port)
  {
    seq(|items|, i requires 0 <= i < |items| => Readdressed(items[i], port))
  }

  const API_RULE := Rule("", "field", "API", "", "inboundTag: [API_INBOUND]")

  const FORCED_POLICIES: Fields := map[
    "levels" := Object(map["0" := Object(map["statsUserUplink" := Bool(true), "statsUserDownlink" := Bool(true)])]),
    "system" := Object(map[
      "statsInboundDownlink" := Bool(false), "statsInboundUplink" := Bool(false),
      "statsOutboundDownlink" := Bool(true), "statsOutboundUplink" := Bool(true)])]

  function PolicyFields(sections: Sections): Fields {
    if sections.policy.Some? && sections.policy.value.Object? then sections.policy.value.fields else map[]
  }

  // Statistics are started afresh, and policies that count traffic are merged over the config's.
  function Counting(sections: Sections): Sections {
    sections.(stats := Some(Object(map[])), policy := Some(Object(Merged(PolicyFields(sections), FORCED_POLICIES))))
  }

  predicate HasApi(items: seq<Item>) {
    exists x :: x in items && x.tag == API_TAG
  }

  function WithApi(config: Config, port: int): Config {
    var sections := config.sections.(api := WithApiServices(config.sections.api));
    if HasApi(config.inbounds) then config.(inbounds := ReaddressedItems(config.inbounds, port), sections := sections)
    else Config([ApiInbound(port)] + config.inbounds, config.outbounds, [API_RULE] + config.rules, Counting(sections))
  }

  method ApplyApi(config: Config, port: int) returns (applied: Config)
    ensures applied == WithApi(config, port)
  {
    var api := EnsureApiServices(config.sections.api);
    applied := config.(sections := config.sections.(api := api));
    if HasApi(applied.inbounds) {
      applied := applied.(inbounds := ReaddressedItems(applied.inbounds, port));
      return;
    }
    var policy := MergeDicts(PolicyFields(applied.sections), FORCED_POLICIES);
    applied := applied.(sections := applied.sections.(stats := Some(Object(map[])), policy := Some(Object(policy))));
    applied := applied.(inbounds := [ApiInbound(port)] + applied.inbounds, rules := [API_RULE] + applied.rules);
  }

  function BareConfig(view: NodeView, excluded: set<string>): Config {
    var payload := MergedPayload(view.node.template, view, excluded);
    Config(PreparedItems(payload.inbounds, excluded), payload.outbounds, payload.rules, Logged(payload.sections, view.node))
  }

  function Generate(view: NodeView, excluded: set<string>): Result<Config, ConfigError> {
    var payload := MergedPayload(view.node.template, view, excluded);
    match Validate(payload.inbounds, payload.outbounds, false)
    case Some(e) => Err(e)
    case None => Ok(WithApi(BareConfig(view, excluded), view.node.apiPort))
  }
}
