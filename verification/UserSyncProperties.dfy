// After a user changed, the spawned calls leave every node with the clients that a full
// regeneration of its config would give it, however the threads interleave.

module UserSyncProperties {
  import opened Wrappers
  import opened NodeTables
  import opened Protocols
  import opened NodeClients
  import opened UserThreads
  import opened UserSync
  import Accounts

  // ---- which threads are spawned ------------------------------------------------------------

  lemma {:induction false} PutOnNodesMembers(
      w: World, user: DbUser, protocol: string, tag: string, nodes: seq<NodeId>, alter: bool, thread: Thread)
    requires protocol in user.accounts
    ensures thread in PutOnNodes(w, user, protocol, tag, nodes, alter) <==>
      exists node :: node in nodes && Live(w, tag, node) && thread == PutThread(w, user, protocol, tag, node, alter)
  {
    if nodes != [] {
      var n := |nodes| - 1;
      assert nodes == nodes[..n] + [nodes[n]];
      PutOnNodesMembers(w, user, protocol, tag, nodes[..n], alter, thread);
    }
  }

  ghost predicate PutsOn(
      w: World, user: DbUser, protocol: string, tag: string, node: NodeId, alter: bool, thread: Thread)
    requires protocol in user.accounts
  {
    && node in w.fleet.nodes && Live(w, tag, node)
    && SupportsRuntimeAccount(protocol, user.accounts[protocol].settings)
    && thread == PutThread(w, user, protocol, tag, node, alter)
  }

  lemma PutOnFleet(w: World, user: DbUser, protocol: string, tag: string, alter: bool, thread: Thread)
    requires protocol in user.accounts && SupportsRuntimeAccount(protocol, user.accounts[protocol].settings)
    ensures thread in PutOnNodes(w, user, protocol, tag, w.fleet.nodes, alter) <==>
      exists node :: PutsOn(w, user, protocol, tag, node, alter, thread)
  {
    PutOnNodesMembers(w, user, protocol, tag, w.fleet.nodes, alter, thread);
    if thread in PutOnNodes(w, user, protocol, tag, w.fleet.nodes, alter) {
      var node :| node in w.fleet.nodes && Live(w, tag, node) && thread == PutThread(w, user, protocol, tag, node, alter);
      assert PutsOn(w, user, protocol, tag, node, alter, thread);
    }
  }

  lemma {:induction false} PutOnTagsMembers(
      w: World, user: DbUser, protocol: string, tags: seq<string>, alter: bool, thread: Thread)
    requires protocol in user.accounts
    ensures thread in PutOnTags(w, user, protocol, tags, alter) <==>
      exists tag, node :: tag in tags && PutsOn(w, user, protocol, tag, node, alter, thread)
  {
    if tags != [] {
      var n := |tags| - 1;
      assert tags == tags[..n] + [tags[n]];
      PutOnTagsMembers(w, user, protocol, tags[..n], alter, thread);
      if SupportsRuntimeAccount(protocol, user.accounts[protocol].settings) {
        PutOnFleet(w, user, protocol, tags[n], alter, thread);
      }
    }
  }

  ghost predicate Puts(w: World, user: DbUser, protocol: string, alter: bool, thread: Thread) {
    && protocol in user.accounts
    && exists tag, node :: tag in InboundTags(w, user, protocol) && PutsOn(w, user, protocol, tag, node, alter, thread)
  }

  lemma {:induction false} PutThreadsMembers(
      w: World, user: DbUser, protocols: seq<string>, alter: bool, thread: Thread)
    ensures thread in PutThreads(w, user, protocols, alter) <==>
      exists protocol :: protocol in protocols && Puts(w, user, protocol, alter, thread)
  {
    if protocols != [] {
      var n := |protocols| - 1;
      assert protocols == protocols[..n] + [protocols[n]];
      PutThreadsMembers(w, user, protocols[..n], alter, thread);
      if protocols[n] in user.accounts {
        PutOnTagsMembers(w, user, protocols[n], InboundTags(w, user, protocols[n]), alter, thread);
      }
      assert thread in PutThreads(w, user, protocols, alter) <==>
        thread in PutThreads(w, user, protocols[..n], alter) || Puts(w, user, protocols[n], alter, thread);
    }
  }

  lemma {:induction false} DropOnNodesMembers(w: World, tag: string, email: Email, nodes: seq<NodeId>, thread: Thread)
    ensures thread in DropOnNodes(w, tag, email, nodes) <==>
      exists node :: node in nodes && Live(w, tag, node) && thread == [Remove(Cell(node, tag, email))]
  {
    if nodes != [] {
      var n := |nodes| - 1;
      assert nodes == nodes[..n] + [nodes[n]];
      DropOnNodesMembers(w, tag, email, nodes[..n], thread);
    }
  }

  ghost predicate DropsOn(w: World, tag: string, node: NodeId, email: Email, thread: Thread) {
    node in w.fleet.nodes && Live(w, tag, node) && thread == [Remove(Cell(node, tag, email))]
  }

  lemma DropOnFleet(w: World, tag: string, email: Email, thread: Thread)
    ensures thread in DropOnNodes(w, tag, email, w.fleet.nodes) <==>
      exists node :: DropsOn(w, tag, node, email, thread)
  {
    DropOnNodesMembers(w, tag, email, w.fleet.nodes, thread);
    if thread in DropOnNodes(w, tag, email, w.fleet.nodes) {
      var node :| node in w.fleet.nodes && Live(w, tag, node) && thread == [Remove(Cell(node, tag, email))];
      assert DropsOn(w, tag, node, email, thread);
    }
  }

  lemma {:induction false} DropThreadsMembers(
      w: World, tags: seq<string>, email: Email, active: set<string>, thread: Thread)
    ensures thread in DropThreads(w, tags, email, active) <==>
      exists tag, node :: tag in tags && tag !in active && DropsOn(w, tag, node, email, thread)
  {
    if tags != [] {
      var n := |tags| - 1;
      assert tags == tags[..n] + [tags[n]];
      DropThreadsMembers(w, tags[..n], email, active, thread);
      DropOnFleet(w, tags[n], email, thread);
    }
  }

  ghost predicate Restarts(w: World, tags: set<string>, node: NodeId) {
    node in w.fleet.nodes && Affected(w, tags, node) && node in w.fleet.connected
  }

  lemma {:induction false} RestartThreadsMembers(w: World, tags: set<string>, nodes: seq<NodeId>, thread: Thread)
    ensures thread in RestartThreads(w, tags, nodes) <==>
      exists node :: node in nodes && Affected(w, tags, node) && node in w.fleet.connected && thread == [Restart(node)]
  {
    if nodes != [] {
      var n := |nodes| - 1;
      assert nodes == nodes[..n] + [nodes[n]];
      RestartThreadsMembers(w, tags, nodes[..n], thread);
    }
  }

  // ---- tags against rows --------------------------------------------------------------------

  lemma UserTag(w: World, user: DbUser, protocol: string, tag: string)
    requires SoundRows(w.rows) && protocol in user.accounts
    ensures tag in InboundTags(w, user, protocol) <==>
      && RowFor(w.rows, tag).Some? && RowFor(w.rows, tag).value.enabled
      && RowFor(w.rows, tag).value.content.protocol == protocol
      && Registers(RowFor(w.rows, tag).value.content, w.x) && tag !in user.accounts[protocol].excluded
  {
    var registry := Accounts.ProtocolTags(w.rows, protocol, w.x.excludedTags);
    Accounts.WithoutMembers(registry, user.accounts[protocol].excluded, tag);
    Accounts.ProtocolTagsMembers(w.rows, protocol, w.x.excludedTags, tag);
    RowForFinds(w.rows, tag);
    if tag in registry {
      var row :| row in w.rows && Accounts.Registered(row, protocol, w.x.excludedTags) && row.tag == tag;
      var i :| 0 <= i < |w.rows| && w.rows[i] == row;
      RowForUnique(w.rows, i);
    }
  }

  lemma {:induction false} RegistryTag(rows: seq<ConfigRow>, x: Xray, row: ConfigRow)
    requires row in rows && row.enabled && row.content.protocol in INBOUND_PROTOCOLS && row.tag !in x.excludedTags
    ensures row.tag in RegistryTags(rows, x)
  {
    var n := |rows| - 1;
    assert rows == rows[..n] + [rows[n]];
    if row in rows[..n] {
      RegistryTag(rows[..n], x, row);
    }
  }

  // ---- the cells ----------------------------------------------------------------------------

  function Want(w: World, users: seq<DbUser>, c: Cell): Option<Client> {
    RowClient(w.rows, c.node, users, w.x, c.tag, c.email)
  }

  predicate Running(w: World, node: NodeId) {
    node in w.fleet.nodes && node in w.fleet.connected && node in w.fleet.started
  }

  // The row that a running node serves the cell's tag from.
  ghost predicate CellServed(w: World, c: Cell) {
    match RowFor(w.rows, c.tag)
    case Some(row) => row.enabled && c.node in row.nodes && Registers(row.content, w.x)
    case None => false
  }

  lemma PutThreadFine(w: World, users: seq<DbUser>, user: DbUser, protocol: string, alter: bool, thread: Thread, c: Cell)
    requires SoundRows(w.rows) && UserFor(users, EmailOf(user)) == Some(user) && Served(user.status)
    requires Puts(w, user, protocol, alter, thread)
    ensures Fine(thread, c, Want(w, users, c))
  {
    var tag, node :| tag in InboundTags(w, user, protocol) && PutsOn(w, user, protocol, tag, node, alter, thread);
    UserTag(w, user, protocol, tag);
    RowForFinds(w.rows, tag);
    var cell := Cell(node, tag, EmailOf(user));
    var client := NodeAccount(w, user, protocol, tag, node);
    assert ACCOUNT_PROTOCOLS <= INBOUND_PROTOCOLS;
    assert Want(w, users, cell) == Some(client);
    if alter {
      assert thread[1..] == [Add(cell, client)];
    }
  }

  lemma NotPutFine(thread: Thread, c: Cell, want: Option<Client>)
    requires forall k :: 0 <= k < |thread| ==> !thread[k].Add? && (thread[k] == Remove(c) ==> want.None?)
    ensures Fine(thread, c, want)
  {
  }

  // A cell that the user must lose is served under a registry tag.
  lemma DropIsPending(w: World, threads: seq<Thread>, email: Email, active: set<string>, c: Cell)
    requires SoundRows(w.rows) && CellServed(w, c) && Running(w, c.node) && c.email == email && c.tag !in active
    requires forall thread :: thread in DropThreads(w, RegistryTags(w.rows, w.x), email, active) ==> thread in threads
    ensures Pending(threads, Remove(c))
  {
    var thread := [Remove(c)];
    RowForFinds(w.rows, c.tag);
    assert ACCOUNT_PROTOCOLS <= INBOUND_PROTOCOLS;
    RegistryTag(w.rows, w.x, RowFor(w.rows, c.tag).value);
    DropThreadsMembers(w, RegistryTags(w.rows, w.x), email, active, thread);
    assert DropsOn(w, c.tag, c.node, email, thread);
    ThreadPending(threads, thread, Remove(c));
  }

  lemma ThreadPending(threads: seq<Thread>, thread: Thread, call: Call)
    requires thread in threads && call in thread
    ensures Pending(threads, call)
  {
    var i :| 0 <= i < |threads| && threads[i] == thread;
    assert call in threads[i];
  }

  // A client the user is due is put in place at run time, or its node is restarted.
  lemma DueIsPending(w: World, users: seq<DbUser>, user: DbUser, threads: seq<Thread>, alter: bool, c: Cell)
    requires SoundRows(w.rows) && UserFor(users, EmailOf(user)) == Some(user)
    requires c.email == EmailOf(user) && Running(w, c.node) && Want(w, users, c).Some?
    requires forall thread :: thread in PutThreads(w, user, PROTOCOLS, alter) ==> thread in threads
    requires forall thread ::
      thread in RestartThreads(w, RestartOnly(w, user, PROTOCOLS), w.fleet.nodes) ==> thread in threads
    ensures Pending(threads, Restart(c.node))
         || (Pending(threads, Add(c, Want(w, users, c).value)) && (alter ==> Pending(threads, Remove(c))))
  {
    RowForFinds(w.rows, c.tag);
    var row := RowFor(w.rows, c.tag).value;
    var protocol := row.content.protocol;
    UserTag(w, user, protocol, c.tag);
    assert protocol in PROTOCOLS;
    if SupportsRuntimeAccount(protocol, user.accounts[protocol].settings) {
      var thread := PutThread(w, user, protocol, c.tag, c.node, alter);
      assert PutsOn(w, user, protocol, c.tag, c.node, alter, thread);
      PutThreadsMembers(w, user, PROTOCOLS, alter, thread);
      assert ACCOUNT_PROTOCOLS <= INBOUND_PROTOCOLS;
      ThreadPending(threads, thread, Add(c, Want(w, users, c).value));
      if alter {
        ThreadPending(threads, thread, Remove(c));
      }
    } else {
      var tags := RestartOnly(w, user, PROTOCOLS);
      assert c.tag in tags && Affected(w, tags, c.node);
      RestartThreadsMembers(w, tags, w.fleet.nodes, [Restart(c.node)]);
      ThreadPending(threads, [Restart(c.node)], Restart(c.node));
    }
  }

  // ---- the three operations -----------------------------------------------------------------

  // Nobody but the user with the email changed.
  ghost predicate OthersUnchanged(before: seq<DbUser>, after: seq<DbUser>, email: Email) {
    forall other :: other != email ==> UserFor(before, other) == UserFor(after, other)
  }

  // The node holds what its config gave the users of before, and its regenerated config would give
  // it the clients of after.
  ghost predicate UpToDate(w: World, before: seq<DbUser>, after: seq<DbUser>, held: Held, regenerated: Held, node: NodeId) {
    && Running(w, node)
    && forall c: Cell :: c.node == node ==>
      Look(held, c) == Want(w, before, c) && Look(regenerated, c) == Want(w, after, c)
  }

  lemma UpdateFine(w: World, users: seq<DbUser>, email: Email, c: Cell)
    requires SoundRows(w.rows) && UserFor(users, email).Some? && Served(UserFor(users, email).value.status)
    ensures AllFine(UpdateThreads(w, users, email), c, Want(w, users, c))
  {
    var user := UserFor(users, email).value;
    var want := Want(w, users, c);
    var active := ActiveTags(w, user, PROTOCOLS);
    forall thread | thread in UpdateThreads(w, users, email) ensures Fine(thread, c, want) {
      if thread in PutThreads(w, user, PROTOCOLS, true) {
        PutThreadsMembers(w, user, PROTOCOLS, true, thread);
        var protocol :| protocol in PROTOCOLS && Puts(w, user, protocol, true, thread);
        PutThreadFine(w, users, user, protocol, true, thread, c);
      } else if thread in DropThreads(w, RegistryTags(w.rows, w.x), email, active) {
        DropThreadsMembers(w, RegistryTags(w.rows, w.x), email, active, thread);
        if thread == [Remove(c)] && want.Some? {
          ActiveTag(w, users, user, c);
        }
        NotPutFine(thread, c, want);
      } else {
        RestartThreadsMembers(w, RestartOnly(w, user, PROTOCOLS), w.fleet.nodes, thread);
        NotPutFine(thread, c, want);
      }
    }
  }

  lemma ActiveTag(w: World, users: seq<DbUser>, user: DbUser, c: Cell)
    requires SoundRows(w.rows) && UserFor(users, c.email) == Some(user) && Want(w, users, c).Some?
    ensures c.tag in ActiveTags(w, user, PROTOCOLS)
  {
    RowForFinds(w.rows, c.tag);
    var protocol := RowFor(w.rows, c.tag).value.content.protocol;
    UserTag(w, user, protocol, c.tag);
    assert protocol in PROTOCOLS;
  }

  // update_user on a user that is served.
  lemma UpdateConverges(
      w: World, before: seq<DbUser>, after: seq<DbUser>, email: Email,
      held: Held, regenerated: Held, schedule: seq<nat>, c: Cell)
    requires SoundRows(w.rows) && OthersUnchanged(before, after, email)
    requires UserFor(after, email).Some? && Served(UserFor(after, email).value.status)
    requires UpToDate(w, before, after, held, regenerated, c.node)
    ensures
      var end := Run(State(held, UpdateThreads(w, after, email)), schedule, regenerated);
      Finished(end) ==> Look(end.held, c) == Want(w, after, c)
  {
    var threads := UpdateThreads(w, after, email);
    var user := UserFor(after, email).value;
    var active := ActiveTags(w, user, PROTOCOLS);
    UpdateFine(w, after, email, c);
    if c.email == email && CellServed(w, c) {
      if Want(w, after, c).Some? {
        DueIsPending(w, after, user, threads, true, c);
      } else {
        InactiveTag(w, after, user, c);
        DropIsPending(w, threads, email, active, c);
      }
    }
    ConvergesExactlyWhen(State(held, threads), schedule, regenerated, c, Want(w, after, c));
  }

  lemma InactiveTag(w: World, users: seq<DbUser>, user: DbUser, c: Cell)
    requires SoundRows(w.rows) && UserFor(users, c.email) == Some(user) && Served(user.status)
    requires CellServed(w, c) && Want(w, users, c).None?
    ensures c.tag !in ActiveTags(w, user, PROTOCOLS)
  {
    RowForFinds(w.rows, c.tag);
    forall protocol | protocol in PROTOCOLS && c.tag in InboundTags(w, user, protocol) ensures false {
      UserTag(w, user, protocol, c.tag);
    }
  }

  // remove_user on a user that is deleted or no longer served.
  lemma RemoveConverges(
      w: World, before: seq<DbUser>, after: seq<DbUser>, email: Email,
      held: Held, regenerated: Held, schedule: seq<nat>, c: Cell)
    requires SoundRows(w.rows) && OthersUnchanged(before, after, email)
    requires UserFor(after, email).Some? ==> !Served(UserFor(after, email).value.status)
    requires UpToDate(w, before, after, held, regenerated, c.node)
    ensures
      var end := Run(State(held, RemoveThreads(w, email)), schedule, regenerated);
      Finished(end) ==> Look(end.held, c) == Want(w, after, c)
  {
    var threads := RemoveThreads(w, email);
    var want := Want(w, after, c);
    forall thread | thread in threads ensures Fine(thread, c, want) {
      DropThreadsMembers(w, RegistryTags(w.rows, w.x), email, {}, thread);
      NotPutFine(thread, c, want);
    }
    if c.email == email && CellServed(w, c) {
      DropIsPending(w, threads, email, {}, c);
    }
    ConvergesExactlyWhen(State(held, threads), schedule, regenerated, c, want);
  }

  lemma AddFine(w: World, users: seq<DbUser>, email: Email, c: Cell)
    requires SoundRows(w.rows) && UserFor(users, email).Some? && Served(UserFor(users, email).value.status)
    ensures AllFine(AddThreads(w, users, email), c, Want(w, users, c))
  {
    var user := UserFor(users, email).value;
    forall thread | thread in AddThreads(w, users, email) ensures Fine(thread, c, Want(w, users, c)) {
      if thread in PutThreads(w, user, PROTOCOLS, false) {
        PutThreadsMembers(w, user, PROTOCOLS, false, thread);
        var protocol :| protocol in PROTOCOLS && Puts(w, user, protocol, false, thread);
        PutThreadFine(w, users, user, protocol, false, thread, c);
      } else {
        RestartThreadsMembers(w, RestartOnly(w, user, PROTOCOLS), w.fleet.nodes, thread);
        NotPutFine(thread, c, Want(w, users, c));
      }
    }
  }

  lemma AddRemovesNothing(w: World, users: seq<DbUser>, email: Email, c: Cell)
    requires UserFor(users, email).Some?
    ensures !Pending(AddThreads(w, users, email), Remove(c))
    ensures Pending(AddThreads(w, users, email), Restart(c.node)) <==>
      Restarts(w, RestartOnly(w, UserFor(users, email).value, PROTOCOLS), c.node)
  {
    var user := UserFor(users, email).value;
    var threads := AddThreads(w, users, email);
    var tags := RestartOnly(w, user, PROTOCOLS);
    forall i | 0 <= i < |threads|
      ensures Remove(c) !in threads[i] && (Restart(c.node) in threads[i] ==> Restarts(w, tags, c.node))
    {
      assert threads[i] in threads;
      PutThreadsMembers(w, user, PROTOCOLS, false, threads[i]);
      RestartThreadsMembers(w, tags, w.fleet.nodes, threads[i]);
    }
    if Restarts(w, tags, c.node) {
      RestartThreadsMembers(w, tags, w.fleet.nodes, [Restart(c.node)]);
      ThreadPending(threads, [Restart(c.node)], Restart(c.node));
    }
  }

  // add_user never replaces a client: it brings a running node up to date exactly when what the node
  // holds of the user is still wanted, or the node is restarted anyway.
  lemma AddConvergesExactlyWhen(
      w: World, users: seq<DbUser>, email: Email, held: Held, regenerated: Held, schedule: seq<nat>, c: Cell)
    requires SoundRows(w.rows) && UserFor(users, email).Some? && Served(UserFor(users, email).value.status)
    requires Running(w, c.node) && Look(regenerated, c) == Want(w, users, c) && c.email == email
    ensures
      var end := Run(State(held, AddThreads(w, users, email)), schedule, regenerated);
      var user := UserFor(users, email).value;
      Finished(end) ==> (Look(end.held, c) == Want(w, users, c) <==>
        || Look(held, c).None? || Look(held, c) == Want(w, users, c)
        || Restarts(w, RestartOnly(w, user, PROTOCOLS), c.node))
  {
    var user := UserFor(users, email).value;
    var threads := AddThreads(w, users, email);
    AddFine(w, users, email, c);
    AddRemovesNothing(w, users, email, c);
    if Want(w, users, c).Some? {
      DueIsPending(w, users, user, threads, false, c);
    }
    ConvergesExactlyWhen(State(held, threads), schedule, regenerated, c, Want(w, users, c));
  }

  // One node, one inbound, and a user whose secret has changed from "old" to "new".
  const INBOUND := ConfigRow("in", Item("in", "vless", map[]), true, false, {1})
  const CHANGED := DbUser(1, "ann", Active, map["vless" := Account(Settings("new", "", ""), {})])

  function OneNode(): World {
    World([INBOUND], Xray({}, (protocol, stream) => Transport("tcp", "", "")), Fleet([1], {1}, {1}))
  }

  // A node that still holds the older client keeps it: add_user does not put the new one in its place.
  lemma AddLeavesOldClient() returns (schedule: seq<nat>)
    ensures
      var w, c := OneNode(), Cell(1, "in", EmailOf(CHANGED));
      var held, regenerated := map[c := Client("old", "", "")], map[c := Client("new", "", "")];
      var end := Run(State(held, AddThreads(w, [CHANGED], c.email)), schedule, regenerated);
      && Finished(end) && Want(w, [CHANGED], c) == Some(Client("new", "", ""))
      && Look(end.held, c) != Want(w, [CHANGED], c)
  {
    var w, c := OneNode(), Cell(1, "in", EmailOf(CHANGED));
    var held, regenerated := map[c := Client("old", "", "")], map[c := Client("new", "", "")];
    assert [INBOUND][..0] == [] && [CHANGED][..0] == [];
    assert UserFor([CHANGED], c.email) == Some(CHANGED);
    assert Want(w, [CHANGED], c) == Some(Client("new", "", ""));
    assert RestartOnly(w, CHANGED, PROTOCOLS) == {};
    schedule := CanFinish(State(held, AddThreads(w, [CHANGED], c.email)), [], regenerated);
    AddConvergesExactlyWhen(w, [CHANGED], c.email, held, regenerated, schedule, c);
    assert Client("old", "", "").secret[0] != Client("new", "", "").secret[0];
  }

  // The clients of everybody else stay as they are.
  lemma AddKeepsOthers(
      w: World, users: seq<DbUser>, email: Email, held: Held, regenerated: Held, schedule: seq<nat>, c: Cell)
    requires SoundRows(w.rows) && UserFor(users, email).Some? && Served(UserFor(users, email).value.status)
    requires Look(held, c) == Want(w, users, c) && Look(regenerated, c) == Want(w, users, c)
    ensures
      var end := Run(State(held, AddThreads(w, users, email)), schedule, regenerated);
      Finished(end) ==> Look(end.held, c) == Want(w, users, c)
  {
    AddFine(w, users, email, c);
    ConvergesExactlyWhen(State(held, AddThreads(w, users, email)), schedule, regenerated, c, Want(w, users, c));
  }

  // ---- against full regeneration ------------------------------------------------------------

  // The node holds exactly the clients that its config would be given for the users.
  ghost predicate HoldsConfigClients(held: Held, node: NodeId, config: seq<Item>, users: seq<DbUser>, x: Xray) {
    forall tag, email :: Look(held, Cell(node, tag, email)) == ConfigClient(config, users, x, tag, email)
  }

  // The calls that follow a modification of the user, or its deletion.
  function FollowUp(w: World, after: seq<DbUser>, email: Email): seq<Thread> {
    var user := UserFor(after, email);
    if user.Some? && Served(user.value.status) then UpdateThreads(w, after, email) else RemoveThreads(w, email)
  }

  lemma HoldsWanted(w: World, users: seq<DbUser>, held: Held, config: seq<Item>, node: NodeId)
    requires SoundRows(w.rows) && ConfigServesRows(config, w.rows, node, w.x)
    ensures HoldsConfigClients(held, node, config, users, w.x) <==>
      forall c: Cell :: c.node == node ==> Look(held, c) == Want(w, users, c)
  {
    forall tag, email
      ensures ConfigClient(config, users, w.x, tag, email) == Want(w, users, Cell(node, tag, email))
    {
      ConfigMatchesRows(config, w.rows, node, users, w.x, tag, email);
    }
    if HoldsConfigClients(held, node, config, users, w.x) {
      forall c: Cell | c.node == node ensures Look(held, c) == Want(w, users, c) {
        assert c == Cell(node, c.tag, c.email);
      }
    }
  }

  // Incremental updates and full regeneration agree: a node that held the clients of its config
  // holds them again when all calls have run, in whatever order.
  lemma IncrementalEqualsRegenerated(
      w: World, before: seq<DbUser>, after: seq<DbUser>, email: Email, config: seq<Item>, node: NodeId,
      held: Held, regenerated: Held, schedule: seq<nat>)
    requires SoundRows(w.rows) && OthersUnchanged(before, after, email)
    requires Running(w, node) && ConfigServesRows(config, w.rows, node, w.x)
    requires HoldsConfigClients(held, node, config, before, w.x)
    requires HoldsConfigClients(regenerated, node, config, after, w.x)
    ensures
      var end := Run(State(held, FollowUp(w, after, email)), schedule, regenerated);
      Finished(end) ==> HoldsConfigClients(end.held, node, config, after, w.x)
  {
    var end := Run(State(held, FollowUp(w, after, email)), schedule, regenerated);
    HoldsWanted(w, before, held, config, node);
    HoldsWanted(w, after, regenerated, config, node);
    HoldsWanted(w, after, end.held, config, node);
    if Finished(end) {
      forall c: Cell | c.node == node ensures Look(end.held, c) == Want(w, after, c) {
        assert UpToDate(w, before, after, held, regenerated, node);
        var user := UserFor(after, email);
        if user.Some? && Served(user.value.status) {
          UpdateConverges(w, before, after, email, held, regenerated, schedule, c);
        } else {
          RemoveConverges(w, before, after, email, held, regenerated, schedule, c);
        }
      }
    }
  }

  // The same when a user is created, or served again: add_user does where the node holds nothing of the
  // user yet.
  lemma CreationEqualsRegenerated(
      w: World, before: seq<DbUser>, after: seq<DbUser>, email: Email, config: seq<Item>, node: NodeId,
      held: Held, regenerated: Held, schedule: seq<nat>)
    requires SoundRows(w.rows) && OthersUnchanged(before, after, email)
    requires UserFor(before, email).Some? ==> !Served(UserFor(before, email).value.status)
    requires UserFor(after, email).Some? && Served(UserFor(after, email).value.status)
    requires Running(w, node) && ConfigServesRows(config, w.rows, node, w.x)
    requires HoldsConfigClients(held, node, config, before, w.x)
    requires HoldsConfigClients(regenerated, node, config, after, w.x)
    ensures
      var end := Run(State(held, AddThreads(w, after, email)), schedule, regenerated);
      Finished(end) ==> HoldsConfigClients(end.held, node, config, after, w.x)
  {
    var end := Run(State(held, AddThreads(w, after, email)), schedule, regenerated);
    HoldsWanted(w, before, held, config, node);
    HoldsWanted(w, after, regenerated, config, node);
    HoldsWanted(w, after, end.held, config, node);
    if Finished(end) {
      forall c: Cell | c.node == node ensures Look(end.held, c) == Want(w, after, c) {
        if c.email == email {
          AddConvergesExactlyWhen(w, after, email, held, regenerated, schedule, c);
        } else {
          AddKeepsOthers(w, after, email, held, regenerated, schedule, c);
        }
      }
    }
  }
}
