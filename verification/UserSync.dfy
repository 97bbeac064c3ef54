// What add_user, update_user and remove_user spawn (app/xray/operations.py), and that the spawned
// calls bring the nodes to what a full regeneration would give them.

module UserSync {
  import opened Wrappers
  import opened Seqs
  import opened NodeTables
  import opened Protocols
  import opened NodeClients
  import opened UserThreads
  import Accounts

  // The running nodes in the order of the registry of nodes.
  datatype Fleet = Fleet(nodes: seq<NodeId>, connected: set<NodeId>, started: set<NodeId>)

  datatype World = World(rows: seq<ConfigRow>, x: Xray, fleet: Fleet)

  // User.inbounds for one protocol of the user.
  function InboundTags(w: World, user: DbUser, protocol: string): seq<string> {
    if protocol !in user.accounts then []
    else Accounts.Without(Accounts.ProtocolTags(w.rows, protocol, w.x.excludedTags), user.accounts[protocol].excluded)
  }

  function NodeIds(w: World, tag: string): set<NodeId> {
    match RowFor(w.rows, tag)
    case Some(row) => row.nodes
    case None => {}
  }

  predicate Live(w: World, tag: string, node: NodeId) {
    node in NodeIds(w, tag) && node in w.fleet.connected && node in w.fleet.started
  }

  // Some ciphers cannot be set on a running core.
  predicate SupportsRuntimeAccount(protocol: string, settings: Settings) {
    protocol == "shadowsocks" ==>
      settings.cipher in {"aes-128-gcm", "aes-256-gcm", "chacha20-ietf-poly1305", "xchacha20-poly1305"}
  }

  // How the node's own registry resolves the tag.
  function NodeTransport(w: World, node: NodeId, tag: string): Transport {
    match RowFor(w.rows, tag)
    case Some(row) =>
      if row.enabled && node in row.nodes && row.content.protocol in INBOUND_PROTOCOLS && tag !in w.x.excludedTags
      then TransportOf(row.content, w.x) else Transport("tcp", "", "")
    case None => Transport("tcp", "", "")
  }

  function NodeAccount(w: World, user: DbUser, protocol: string, tag: string, node: NodeId): Client
    requires protocol in user.accounts
  {
    ClientFor(user.accounts[protocol].settings, NodeTransport(w, node, tag))
  }

  // Every enabled inbound's tag, in registry order.
  function RegistryTags(rows: seq<ConfigRow>, x: Xray): seq<string> {
    if rows == [] then []
    else
      var row := rows[|rows| - 1];
      var earlier := RegistryTags(rows[..|rows| - 1], x);
      if row.enabled && row.content.protocol in INBOUND_PROTOCOLS && row.tag !in x.excludedTags
      then earlier + [row.tag] else earlier
  }

  // ---- the spawned threads ------------------------------------------------------------------

  function PutThread(w: World, user: DbUser, protocol: string, tag: string, node: NodeId, alter: bool): Thread
    requires protocol in user.accounts
  {
    var cell := Cell(node, tag, EmailOf(user));
    var client := NodeAccount(w, user, protocol, tag, node);
    if alter then [Remove(cell), Add(cell, client)] else [Add(cell, client)]
  }

  function PutOnNodes(
      w: World, user: DbUser, protocol: string, tag: string, nodes: seq<NodeId>, alter: bool): seq<Thread>
    requires protocol in user.accounts
  {
    if nodes == [] then []
    else
      var earlier := PutOnNodes(w, user, protocol, tag, nodes[..|nodes| - 1], alter);
      var node := nodes[|nodes| - 1];
      if Live(w, tag, node) then earlier + [PutThread(w, user, protocol, tag, node, alter)] else earlier
  }

  function PutOnTags(w: World, user: DbUser, protocol: string, tags: seq<string>, alter: bool): seq<Thread>
    requires protocol in user.accounts
  {
    if tags == [] || !SupportsRuntimeAccount(protocol, user.accounts[protocol].settings) then []
    else PutOnTags(w, user, protocol, tags[..|tags| - 1], alter)
         + PutOnNodes(w, user, protocol, tags[|tags| - 1], w.fleet.nodes, alter)
  }

  function PutThreads(w: World, user: DbUser, protocols: seq<string>, alter: bool): seq<Thread> {
    if protocols == [] then []
    else
      var earlier := PutThreads(w, user, protocols[..|protocols| - 1], alter);
      var protocol := protocols[|protocols| - 1];
      if protocol in user.accounts
      then earlier + PutOnTags(w, user, protocol, InboundTags(w, user, protocol), alter) else earlier
  }

  // The tags that a running core cannot be told about.
  function RestartOnly(w: World, user: DbUser, protocols: seq<string>): set<string> {
    set protocol, tag | protocol in protocols && protocol in user.accounts
                        && !SupportsRuntimeAccount(protocol, user.accounts[protocol].settings)
                        && tag in InboundTags(w, user, protocol) :: tag
  }

  function ActiveTags(w: World, user: DbUser, protocols: seq<string>): set<string> {
    set protocol, tag | protocol in protocols && tag in InboundTags(w, user, protocol) :: tag
  }

  function DropOnNodes(w: World, tag: string, email: Email, nodes: seq<NodeId>): seq<Thread> {
    if nodes == [] then []
    else
      var earlier := DropOnNodes(w, tag, email, nodes[..|nodes| - 1]);
      var node := nodes[|nodes| - 1];
      if Live(w, tag, node) then earlier + [[Remove(Cell(node, tag, email))]] else earlier
  }

  function DropThreads(w: World, tags: seq<string>, email: Email, active: set<string>): seq<Thread> {
    if tags == [] then []
    else
      var earlier := DropThreads(w, tags[..|tags| - 1], email, active);
      var tag := tags[|tags| - 1];
      if tag in active then earlier else earlier + DropOnNodes(w, tag, email, w.fleet.nodes)
  }

  predicate Affected(w: World, tags: set<string>, node: NodeId) {
    exists tag :: tag in tags && node in NodeIds(w, tag)
  }

  function RestartThreads(w: World, tags: set<string>, nodes: seq<NodeId>): seq<Thread> {
    if nodes == [] then []
    else
      var earlier := RestartThreads(w, tags, nodes[..|nodes| - 1]);
      var node := nodes[|nodes| - 1];
      if Affected(w, tags, node) && node in w.fleet.connected then earlier + [[Restart(node)]] else earlier
  }

  // ---- the operations -----------------------------------------------------------------------

  method RestartInboundNodes(w: World, tags: set<string>) returns (threads: seq<Thread>)
    ensures threads == RestartThreads(w, tags, w.fleet.nodes)
  {
    var affected := set tag, node | tag in tags && node in NodeIds(w, tag) :: node;
    threads := [];
    for i := 0 to |w.fleet.nodes|
      invariant threads == RestartThreads(w, tags, w.fleet.nodes[..i])
    {
      assert w.fleet.nodes[..i + 1][..i] == w.fleet.nodes[..i];
      if w.fleet.nodes[i] in affected && w.fleet.nodes[i] in w.fleet.connected {
        threads := threads + [[Restart(w.fleet.nodes[i])]];
      }
    }
    assert w.fleet.nodes[..|w.fleet.nodes|] == w.fleet.nodes;
  }

  method SpawnPuts(w: World, user: DbUser, protocol: string, tag: string, alter: bool) returns (threads: seq<Thread>)
    requires protocol in user.accounts
    ensures threads == PutOnNodes(w, user, protocol, tag, w.fleet.nodes, alter)
  {
    threads := [];
    for i := 0 to |w.fleet.nodes|
      invariant threads == PutOnNodes(w, user, protocol, tag, w.fleet.nodes[..i], alter)
    {
      assert w.fleet.nodes[..i + 1][..i] == w.fleet.nodes[..i];
      var node := w.fleet.nodes[i];
      if node in NodeIds(w, tag) && node in w.fleet.connected && node in w.fleet.started {
        var settings := user.accounts[protocol].settings;
        var account := Client(settings.secret, settings.flow, settings.cipher);
        if account.flow != "" && StripsFlow(NodeTransport(w, node, tag)) {
          account := account.(flow := "");
        }
        var cell := Cell(node, tag, EmailOf(user));
        threads := threads + [if alter then [Remove(cell), Add(cell, account)] else [Add(cell, account)]];
      }
    }
    assert w.fleet.nodes[..|w.fleet.nodes|] == w.fleet.nodes;
  }

  // The loop over User.inbounds that add_user and update_user share.
  method SpawnAccounts(w: World, user: DbUser, alter: bool)
    returns (threads: seq<Thread>, active: set<string>, restartOnly: set<string>)
    ensures threads == PutThreads(w, user, PROTOCOLS, alter)
    ensures active == ActiveTags(w, user, PROTOCOLS) && restartOnly == RestartOnly(w, user, PROTOCOLS)
  {
    threads, active, restartOnly := [], {}, {};
    for p := 0 to |PROTOCOLS|
      invariant threads == PutThreads(w, user, PROTOCOLS[..p], alter)
      invariant active == ActiveTags(w, user, PROTOCOLS[..p]) && restartOnly == RestartOnly(w, user, PROTOCOLS[..p])
    {
      assert PROTOCOLS[..p + 1] == PROTOCOLS[..p] + [PROTOCOLS[p]];
      if PROTOCOLS[p] in user.accounts {
        var more, moreActive, moreRestarts := SpawnProtocol(w, user, PROTOCOLS[p], alter);
        threads, active, restartOnly := threads + more, active + moreActive, restartOnly + moreRestarts;
      }
    }
    assert PROTOCOLS[..|PROTOCOLS|] == PROTOCOLS;
  }

  method SpawnProtocol(w: World, user: DbUser, protocol: string, alter: bool)
    returns (threads: seq<Thread>, active: set<string>, restartOnly: set<string>)
    requires protocol in user.accounts
    ensures threads == PutOnTags(w, user, protocol, InboundTags(w, user, protocol), alter)
    ensures active == ToSet(InboundTags(w, user, protocol))
    ensures restartOnly == if SupportsRuntimeAccount(protocol, user.accounts[protocol].settings) then {} else active
  {
    threads, active, restartOnly := [], {}, {};
    var tags := InboundTags(w, user, protocol);
    var runtime := SupportsRuntimeAccount(protocol, user.accounts[protocol].settings);
    for i := 0 to |tags|
      invariant threads == PutOnTags(w, user, protocol, tags[..i], alter)
      invariant active == ToSet(tags[..i]) && restartOnly == if runtime then {} else active
    {
      assert tags[..i + 1] == tags[..i] + [tags[i]];
      active := active + {tags[i]};
      if !runtime {
        restartOnly := restartOnly + {tags[i]};
      } else {
        var more := SpawnPuts(w, user, protocol, tags[i], alter);
        threads := threads + more;
      }
    }
    assert tags[..|tags|] == tags;
  }

  method SpawnDrops(w: World, email: Email, active: set<string>) returns (threads: seq<Thread>)
    ensures threads == DropThreads(w, RegistryTags(w.rows, w.x), email, active)
  {
    var tags := RegistryTags(w.rows, w.x);
    threads := [];
    for t := 0 to |tags|
      invariant threads == DropThreads(w, tags[..t], email, active)
    {
      assert tags[..t + 1][..t] == tags[..t];
      if tags[t] !in active {
        ghost var before := threads;
        for i := 0 to |w.fleet.nodes|
          invariant threads == before + DropOnNodes(w, tags[t], email, w.fleet.nodes[..i])
        {
          assert w.fleet.nodes[..i + 1][..i] == w.fleet.nodes[..i];
          if Live(w, tags[t], w.fleet.nodes[i]) {
            threads := threads + [[Remove(Cell(w.fleet.nodes[i], tags[t], email))]];
          }
        }
        assert w.fleet.nodes[..|w.fleet.nodes|] == w.fleet.nodes;
      }
    }
    assert tags[..|tags|] == tags;
  }

  function AddThreads(w: World, users: seq<DbUser>, email: Email): seq<Thread> {
    match UserFor(users, email)
    case None => []
    case Some(user) =>
      PutThreads(w, user, PROTOCOLS, false) + RestartThreads(w, RestartOnly(w, user, PROTOCOLS), w.fleet.nodes)
  }

  function UpdateThreads(w: World, users: seq<DbUser>, email: Email): seq<Thread> {
    match UserFor(users, email)
    case None => []
    case Some(user) =>
      PutThreads(w, user, PROTOCOLS, true)
      + DropThreads(w, RegistryTags(w.rows, w.x), email, ActiveTags(w, user, PROTOCOLS))
      + RestartThreads(w, RestartOnly(w, user, PROTOCOLS), w.fleet.nodes)
  }

  function RemoveThreads(w: World, email: Email): seq<Thread> {
    DropThreads(w, RegistryTags(w.rows, w.x), email, {})
  }

  method AddUser(w: World, users: seq<DbUser>, email: Email) returns (threads: seq<Thread>)
    ensures threads == AddThreads(w, users, email)
  {
    var user := UserFor(users, email);
    if user.None? {
      return [];
    }
    var puts, _, restartOnly := SpawnAccounts(w, user.value, false);
    var restarts := RestartInboundNodes(w, restartOnly);
    threads := puts + restarts;
  }

  method UpdateUser(w: World, users: seq<DbUser>, email: Email) returns (threads: seq<Thread>)
    ensures threads == UpdateThreads(w, users, email)
  {
    var user := UserFor(users, email);
    if user.None? {
      return [];
    }
    var puts, active, restartOnly := SpawnAccounts(w, user.value, true);
    var drops := SpawnDrops(w, email, active);
    var restarts := RestartInboundNodes(w, restartOnly);
    threads := puts + drops + restarts;
  }

  method RemoveUser(w: World, email: Email) returns (threads: seq<Thread>)
    ensures threads == RemoveThreads(w, email)
  {
    threads := SpawnDrops(w, email, {});
  }
}
