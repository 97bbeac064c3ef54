// The clients a node's config gives its account inbounds (app/xray/config.py, include_db_users),
// against what the rows assigned to the node ask for.

module NodeClients {
  import opened Wrappers
  import opened Json
  import opened NodeTables
  import opened Protocols
  import opened NodeConfig
  import NodeConfigProperties

  datatype UserStatus = Active | Disabled | Limited | Expired | OnHold

  // The settings of an account; those a protocol has no use for are "".
  datatype Settings = Settings(secret: string, flow: string, cipher: string)

  datatype Account = Account(settings: Settings, excluded: set<string>)

  datatype DbUser = DbUser(id: nat, username: string, status: UserStatus, accounts: map<string, Account>)

  // "{id}.{username}"
  datatype Email = Email(id: nat, username: string)

  datatype Client = Client(secret: string, flow: string, cipher: string)

  datatype Transport = Transport(network: string, tls: string, headerType: string)

  // What is fixed while the panel runs: the tags left to templates, and how an inbound's protocol and
  // stream settings resolve to network, TLS and header type.
  datatype Xray = Xray(excludedTags: set<string>, transport: (string, Json) -> Transport)

  function StreamSettings(item: Item): Json {
    if "streamSettings" in item.body then item.body["streamSettings"] else Null
  }

  function TransportOf(item: Item, x: Xray): Transport {
    x.transport(item.protocol, StreamSettings(item))
  }

  function EmailOf(user: DbUser): Email {
    Email(user.id, user.username)
  }

  predicate Served(status: UserStatus) {
    status == Active || status == OnHold
  }

  predicate Registers(item: Item, x: Xray) {
    item.protocol in ACCOUNT_PROTOCOLS && item.tag !in x.excludedTags
  }

  // The user has a client on an inbound of the protocol with the tag.
  predicate Due(user: DbUser, protocol: string, tag: string) {
    Served(user.status) && protocol in user.accounts && tag !in user.accounts[protocol].excluded
  }

  // XTLS flows work over TCP and mKCP with TLS or REALITY only, and not with an HTTP header.
  predicate StripsFlow(t: Transport) {
    || t.network !in {"tcp", "raw", "kcp"}
    || (t.network in {"tcp", "raw", "kcp"} && t.tls !in {"tls", "reality"})
    || t.headerType == "http"
  }

  function ClientFor(settings: Settings, t: Transport): Client {
    Client(settings.secret, if settings.flow != "" && StripsFlow(t) then "" else settings.flow, settings.cipher)
  }

  function ItemFor(config: seq<Item>, tag: string): (item: Option<Item>)
    ensures item.Some? ==> item.value in config && item.value.tag == tag
    ensures item.None? ==> forall other :: other in config ==> other.tag != tag
  {
    if config == [] then None
    else if config[|config| - 1].tag == tag then Some(config[|config| - 1])
    else ItemFor(config[..|config| - 1], tag)
  }

  function UserFor(users: seq<DbUser>, email: Email): (user: Option<DbUser>)
    ensures user.Some? ==> user.value in users && EmailOf(user.value) == email
    ensures user.None? ==> forall other :: other in users ==> EmailOf(other) != email
  {
    if users == [] then None
    else if EmailOf(users[|users| - 1]) == email then Some(users[|users| - 1])
    else UserFor(users[..|users| - 1], email)
  }

  ghost predicate UniqueIds(users: seq<DbUser>) {
    forall i, j :: 0 <= i < j < |users| ==> users[i].id != users[j].id
  }

  ghost predicate UniqueItems(config: seq<Item>) {
    forall i, j :: 0 <= i < j < |config| ==> config[i].tag != config[j].tag
  }

  function ClientOn(item: Item, user: DbUser, x: Xray): Option<Client> {
    if Registers(item, x) && Due(user, item.protocol, item.tag)
    then Some(ClientFor(user.accounts[item.protocol].settings, TransportOf(item, x)))
    else None
  }

  // The client that the config asks for under a tag and an email.
  function ConfigClient(config: seq<Item>, users: seq<DbUser>, x: Xray, tag: string, email: Email): Option<Client> {
    match (ItemFor(config, tag), UserFor(users, email))
    case (Some(item), Some(user)) => ClientOn(item, user, x)
    case _ => None
  }

  // ---- include_db_users ---------------------------------------------------------------------

  type Clients = map<(string, Email), Client>

  function Lookup(clients: Clients, tag: string, email: Email): Option<Client> {
    if (tag, email) in clients then Some(clients[(tag, email)]) else None
  }

  const PROTOCOLS: seq<string> := ["vmess", "vless", "trojan", "shadowsocks", "hysteria"]

  function UserAdded(clients: Clients, item: Item, user: DbUser, x: Xray): Clients {
    match ClientOn(item, user, x)
    case Some(client) => clients[(item.tag, EmailOf(user)) := client]
    case None => clients
  }

  function UsersAdded(clients: Clients, item: Item, users: seq<DbUser>, x: Xray): Clients {
    if users == [] then clients
    else UserAdded(UsersAdded(clients, item, users[..|users| - 1], x), item, users[|users| - 1], x)
  }

  function InboundsAdded(clients: Clients, protocol: string, config: seq<Item>, users: seq<DbUser>, x: Xray): Clients {
    if config == [] then clients
    else
      var earlier := InboundsAdded(clients, protocol, config[..|config| - 1], users, x);
      var item := config[|config| - 1];
      if item.protocol == protocol then UsersAdded(earlier, item, users, x) else earlier
  }

  function ProtocolsAdded(protocols: seq<string>, config: seq<Item>, users: seq<DbUser>, x: Xray): Clients {
    if protocols == [] then map[]
    else
      InboundsAdded(ProtocolsAdded(protocols[..|protocols| - 1], config, users, x),
                    protocols[|protocols| - 1], config, users, x)
  }

  method AddUsers(clients: Clients, item: Item, users: seq<DbUser>, x: Xray) returns (r: Clients)
    ensures r == UsersAdded(clients, item, users, x)
  {
    r := clients;
    if !Registers(item, x) {
      NobodyAdded(clients, item, users, x);
      return;
    }
    for i := 0 to |users|
      invariant r == UsersAdded(clients, item, users[..i], x)
    {
      assert users[..i + 1][..i] == users[..i];
      var user := users[i];
      if Served(user.status) && item.protocol in user.accounts && item.tag !in user.accounts[item.protocol].excluded {
        var settings := user.accounts[item.protocol].settings;
        var client := Client(settings.secret, settings.flow, settings.cipher);
        if client.flow != "" && StripsFlow(TransportOf(item, x)) {
          client := client.(flow := "");
        }
        r := r[(item.tag, EmailOf(user)) := client];
      }
    }
    assert users[..|users|] == users;
  }

  lemma {:induction false} NobodyAdded(clients: Clients, item: Item, users: seq<DbUser>, x: Xray)
    requires !Registers(item, x)
    ensures UsersAdded(clients, item, users, x) == clients
  {
    if users != [] {
      NobodyAdded(clients, item, users[..|users| - 1], x);
    }
  }

  method IncludeDbUsers(config: seq<Item>, users: seq<DbUser>, x: Xray) returns (clients: Clients)
    requires UniqueItems(config) && UniqueIds(users)
    ensures forall tag, email :: Lookup(clients, tag, email) == ConfigClient(config, users, x, tag, email)
  {
    clients := map[];
    for p := 0 to |PROTOCOLS|
      invariant clients == ProtocolsAdded(PROTOCOLS[..p], config, users, x)
    {
      assert PROTOCOLS[..p + 1][..p] == PROTOCOLS[..p];
      ghost var before := clients;
      for i := 0 to |config|
        invariant clients == InboundsAdded(before, PROTOCOLS[p], config[..i], users, x)
      {
        assert config[..i + 1][..i] == config[..i];
        if config[i].protocol == PROTOCOLS[p] {
          clients := AddUsers(clients, config[i], users, x);
        }
      }
      assert config[..|config|] == config;
    }
    assert PROTOCOLS[..|PROTOCOLS|] == PROTOCOLS;
    forall tag, email ensures Lookup(clients, tag, email) == ConfigClient(config, users, x, tag, email) {
      IncludedClient(config, users, x, tag, email);
    }
  }

  lemma {:induction false} UsersAddedLookup(
      clients: Clients, item: Item, users: seq<DbUser>, x: Xray, tag: string, email: Email)
    requires UniqueIds(users)
    ensures Lookup(UsersAdded(clients, item, users, x), tag, email)
         == match UserFor(users, email) {
              case Some(user) =>
                if item.tag == tag && ClientOn(item, user, x).Some? then ClientOn(item, user, x)
                else Lookup(clients, tag, email)
              case None => Lookup(clients, tag, email)
            }
  {
    if users != [] {
      var n := |users| - 1;
      UsersAddedLookup(clients, item, users[..n], x, tag, email);
    }
  }

  lemma {:induction false} InboundsAddedLookup(
      clients: Clients, protocol: string, config: seq<Item>, users: seq<DbUser>, x: Xray, tag: string, email: Email)
    requires UniqueIds(users) && UniqueItems(config)
    ensures Lookup(InboundsAdded(clients, protocol, config, users, x), tag, email)
         == if ItemFor(config, tag).Some? && ItemFor(config, tag).value.protocol == protocol
               && ConfigClient(config, users, x, tag, email).Some?
            then ConfigClient(config, users, x, tag, email) else Lookup(clients, tag, email)
  {
    if config != [] {
      var n := |config| - 1;
      InboundsAddedLookup(clients, protocol, config[..n], users, x, tag, email);
      if config[n].protocol == protocol {
        UsersAddedLookup(InboundsAdded(clients, protocol, config[..n], users, x), config[n], users, x, tag, email);
      }
    }
  }

  lemma {:induction false} ProtocolsAddedLookup(
      protocols: seq<string>, config: seq<Item>, users: seq<DbUser>, x: Xray, tag: string, email: Email)
    requires UniqueIds(users) && UniqueItems(config)
    ensures Lookup(ProtocolsAdded(protocols, config, users, x), tag, email)
         == if ItemFor(config, tag).Some? && ItemFor(config, tag).value.protocol in protocols
            then ConfigClient(config, users, x, tag, email) else None
  {
    if protocols != [] {
      var n := |protocols| - 1;
      assert protocols == protocols[..n] + [protocols[n]];
      ProtocolsAddedLookup(protocols[..n], config, users, x, tag, email);
      InboundsAddedLookup(ProtocolsAdded(protocols[..n], config, users, x), protocols[n], config, users, x, tag, email);
    }
  }

  lemma IncludedClient(config: seq<Item>, users: seq<DbUser>, x: Xray, tag: string, email: Email)
    requires UniqueIds(users) && UniqueItems(config)
    ensures Lookup(ProtocolsAdded(PROTOCOLS, config, users, x), tag, email) == ConfigClient(config, users, x, tag, email)
  {
    ProtocolsAddedLookup(PROTOCOLS, config, users, x, tag, email);
    assert forall protocol :: protocol in ACCOUNT_PROTOCOLS ==> protocol in PROTOCOLS;
  }

  // ---- against the rows ---------------------------------------------------------------------

  // The client that the rows assigned to a node ask for.
  function RowClient(
      rows: seq<ConfigRow>, node: NodeId, users: seq<DbUser>, x: Xray, tag: string, email: Email): Option<Client>
  {
    match (RowFor(rows, tag), UserFor(users, email))
    case (Some(row), Some(user)) =>
      if row.enabled && node in row.nodes then ClientOn(row.content, user, x) else None
    case _ => None
  }

  // All that clients depend on.
  predicate SameInbound(a: Item, b: Item) {
    a.tag == b.tag && a.protocol == b.protocol && StreamSettings(a) == StreamSettings(b)
  }

  ghost predicate RowServes(rows: seq<ConfigRow>, node: NodeId, item: Item) {
    exists row :: row in rows && row.enabled && node in row.nodes && SameInbound(row.content, item)
  }

  ghost predicate ConfigServes(config: seq<Item>, item: Item) {
    exists other :: other in config && SameInbound(other, item)
  }

  // The account inbounds of a config are the contents of the enabled rows assigned to the node.
  ghost predicate ConfigServesRows(config: seq<Item>, rows: seq<ConfigRow>, node: NodeId, x: Xray) {
    && UniqueItems(config)
    && forall item :: Registers(item, x) ==> (ConfigServes(config, item) <==> RowServes(rows, node, item))
  }

  lemma {:induction false} ItemForMember(config: seq<Item>, item: Item)
    requires UniqueItems(config) && item in config
    ensures ItemFor(config, item.tag) == Some(item)
  {
  }

  // Such a config holds exactly the clients that the rows ask for.
  lemma ConfigMatchesRows(
      config: seq<Item>, rows: seq<ConfigRow>, node: NodeId, users: seq<DbUser>, x: Xray, tag: string, email: Email)
    requires SoundRows(rows) && ConfigServesRows(config, rows, node, x)
    ensures ConfigClient(config, users, x, tag, email) == RowClient(rows, node, users, x, tag, email)
  {
    RowForFinds(rows, tag);
    var found, stored := ItemFor(config, tag), RowFor(rows, tag);
    if found.Some? && Registers(found.value, x) {
      assert ConfigServes(config, found.value);
      var row :| row in rows && row.enabled && node in row.nodes && SameInbound(row.content, found.value);
      var i :| 0 <= i < |rows| && rows[i] == row;
      RowForUnique(rows, i);
    }
    if stored.Some? && stored.value.enabled && node in stored.value.nodes && Registers(stored.value.content, x) {
      assert RowServes(rows, node, stored.value.content);
      var item :| item in config && SameInbound(item, stored.value.content);
      ItemForMember(config, item);
    }
  }

  lemma ServedByEnabledItem(rows: seq<ConfigRow>, node: NodeId, item: Item)
    requires SoundRows(rows)
    ensures ConfigServes(EnabledItems(NodeRows(rows, node)), item) <==> RowServes(rows, node, item)
  {
    var views := NodeRows(rows, node);
    NodeRowsMembers(rows, node);
    if ConfigServes(EnabledItems(views), item) {
      var other :| other in EnabledItems(views) && SameInbound(other, item);
      NodeConfigProperties.EnabledMembers(views, other);
      var v :| v in views && v.enabled && other == v.content.(tag := v.tag);
      var row :| row in rows && node in row.nodes && v == RowView(row.tag, row.content, row.enabled);
      assert row.content == other;
    }
    if RowServes(rows, node, item) {
      var row :| row in rows && row.enabled && node in row.nodes && SameInbound(row.content, item);
      var v := RowView(row.tag, row.content, row.enabled);
      assert v in views && row.content == v.content.(tag := v.tag);
      NodeConfigProperties.EnabledMembers(views, row.content);
    }
  }

  // A generated config is of this kind when every account inbound of the template is a row's.
  lemma GeneratedConfigServesRows(t: Tables, node: NodeId, x: Xray)
    requires Sound(t) && node in t.nodes
    requires Generate(ViewFor(t, node), x.excludedTags).Ok?
    requires forall item :: item in t.nodes[node].template.inbounds && Registers(item, x) ==>
      item.tag in ManagedTags(NodeRows(t.inbounds, node))
    ensures ConfigServesRows(Generate(ViewFor(t, node), x.excludedTags).value.inbounds, t.inbounds, node, x)
  {
    var view := ViewFor(t, node);
    var config := Generate(view, x.excludedTags).value.inbounds;
    GeneratedTags(view, x.excludedTags);
    forall item | Registers(item, x) ensures ConfigServes(config, item) <==> RowServes(t.inbounds, node, item) {
      GeneratedServes(view, x.excludedTags, item);
      MergedServes(view, x, item);
      ServedByEnabledItem(t.inbounds, node, item);
    }
  }

  // Accounts are served by rows alone.
  lemma MergedServes(view: NodeView, x: Xray, item: Item)
    requires Registers(item, x)
    requires forall y :: y in view.node.template.inbounds && Registers(y, x) ==> y.tag in ManagedTags(view.inbounds)
    ensures ConfigServes(MergedItems(view.node.template.inbounds, view.inbounds, x.excludedTags), item)
       <==> ConfigServes(EnabledItems(view.inbounds), item)
  {
    var kept := UnmanagedItems(view.node.template.inbounds, ManagedTags(view.inbounds), x.excludedTags);
    forall y | y in kept && SameInbound(y, item) ensures false {
      NodeConfigProperties.UnmanagedMembers(
        view.node.template.inbounds, ManagedTags(view.inbounds), x.excludedTags, y);
    }
  }

  lemma GeneratedTags(view: NodeView, excluded: set<string>)
    requires Generate(view, excluded).Ok?
    ensures UniqueItems(Generate(view, excluded).value.inbounds)
  {
    var merged := NodeConfigProperties.MergedInbounds(view, excluded);
    NodeConfigProperties.InboundCheckMeans(merged);
    NodeConfigProperties.PreparedTags(merged, excluded);
    ApiKeepsUnique(BareConfig(view, excluded), view.node.apiPort);
  }

  lemma ApiKeepsUnique(config: Config, port: int)
    requires UniqueItems(config.inbounds)
    ensures UniqueItems(WithApi(config, port).inbounds)
  {
    var items := config.inbounds;
    forall i | 0 <= i < |items| ensures items[i] in items {
    }
  }

  // Preparing entries and adding the API changes nothing that clients depend on.
  lemma GeneratedServes(view: NodeView, excluded: set<string>, item: Item)
    requires Generate(view, excluded).Ok? && item.protocol in ACCOUNT_PROTOCOLS
    ensures
      var merged := MergedItems(view.node.template.inbounds, view.inbounds, excluded);
      ConfigServes(Generate(view, excluded).value.inbounds, item) <==> ConfigServes(merged, item)
  {
    var merged := MergedItems(view.node.template.inbounds, view.inbounds, excluded);
    forall i | 0 <= i < |merged| ensures SameInbound(PreparedItems(merged, excluded)[i], merged[i]) {
    }
    ServesPointwise(PreparedItems(merged, excluded), merged, item);
    ApiServes(BareConfig(view, excluded), view.node.apiPort, item);
  }

  lemma ApiServes(config: Config, port: int, item: Item)
    requires item.protocol in ACCOUNT_PROTOCOLS
    ensures ConfigServes(WithApi(config, port).inbounds, item) <==> ConfigServes(config.inbounds, item)
  {
    if HasApi(config.inbounds) {
      ServesPointwise(ReaddressedItems(config.inbounds, port), config.inbounds, item);
    } else {
      NotTheApi(item, port);
    }
  }

  lemma ServesPointwise(a: seq<Item>, b: seq<Item>, item: Item)
    requires |a| == |b| && forall i :: 0 <= i < |a| ==> SameInbound(a[i], b[i])
    ensures ConfigServes(a, item) <==> ConfigServes(b, item)
  {
    forall i | 0 <= i < |a| ensures a[i] in a && b[i] in b && SameInbound(a[i], b[i]) {
    }
  }

  lemma NotTheApi(item: Item, port: int)
    requires item.protocol in ACCOUNT_PROTOCOLS
    ensures !SameInbound(ApiInbound(port), item)
  {
    assert ApiInbound(port).protocol !in ACCOUNT_PROTOCOLS;
  }
}
