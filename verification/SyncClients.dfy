// What syncing one node's template means for the clients of the other nodes: it may give users new
// accounts, and those are not confined to the synced node's inbounds (app/db/crud/routing.py,
// app/db/crud/proxy_inbounds.py).

module SyncClients {
  import opened Wrappers
  import opened NodeTables
  import opened Protocols
  import opened TemplateSync
  import opened Accounts
  import opened ConfigTemplate
  import RowSync
  import RowSyncProperties
  import TemplateProperties

  // The settings of the client that a user has on an inbound, if it has one.
  function ClientOn(user: User, v: RowView, excludedTags: set<string>): Option<string> {
    var protocol := v.content.protocol;
    if v.enabled && protocol in ACCOUNT_PROTOCOLS && v.tag !in excludedTags
       && protocol in user.proxies && v.tag !in user.proxies[protocol].excluded
    then Some(user.proxies[protocol].settings) else None
  }

  // The node's inbounds and every user's clients on them are the same in both databases.
  ghost predicate SameClients(t: Tables, t': Tables, node: NodeId, excludedTags: set<string>) {
    && NodeRows(t'.inbounds, node) == NodeRows(t.inbounds, node) && |t'.users| == |t.users|
    && forall i, v :: 0 <= i < |t.users| && v in NodeRows(t.inbounds, node) ==>
         ClientOn(t'.users[i], v, excludedTags) == ClientOn(t.users[i], v, excludedTags)
  }

  // The template brings a new inbound of the protocol.
  ghost predicate Brings(t: Tables, wanted: seq<Item>, protocol: string) {
    exists x :: x in wanted && x.protocol == protocol && RowFor(t.inbounds, x.tag).None?
  }

  // The user has no account for the enabled inbound's protocol, the template brings a new inbound of
  // that protocol, and it does not hold this one. All of it can be seen before the sync.
  ghost predicate Gains(t: Tables, wanted: seq<Item>, node: NodeId, excludedTags: set<string>, i: nat, v: RowView) {
    && i < |t.users| && v in NodeRows(t.inbounds, node) && v.enabled
    && v.content.protocol in ACCOUNT_PROTOCOLS && v.tag !in excludedTags
    && v.content.protocol !in t.users[i].proxies
    && Brings(t, wanted, v.content.protocol) && RowSync.Find(wanted, v.tag).None?
  }

  // ---- the lists the sync hands over --------------------------------------------------------

  lemma {:induction false} DeletedMembers(rows: seq<ConfigRow>, node: NodeId, wanted: seq<Item>, tag: string)
    ensures tag in RowSync.DeletedTags(rows, node, wanted) <==>
      exists row :: row in rows && row.tag == tag && RowSync.KeptRow(row, node, wanted) == []
  {
    if rows != [] {
      var n := |rows| - 1;
      assert rows == rows[..n] + [rows[n]];
      DeletedMembers(rows[..n], node, wanted, tag);
    }
  }

  lemma {:induction false} TagsOfMembers(rows: seq<ConfigRow>, protocol: string, tag: string)
    ensures tag in TagsOf(rows, protocol) <==> exists row :: row in rows && row.content.protocol == protocol && row.tag == tag
  {
    if rows != [] {
      var n := |rows| - 1;
      assert rows == rows[..n] + [rows[n]];
      TagsOfMembers(rows[..n], protocol, tag);
    }
  }

  lemma {:induction false} ItemTagsMembers(items: seq<Item>, protocol: string, tag: string)
    ensures tag in ItemTags(items, protocol) <==> exists x :: x in items && x.protocol == protocol && x.tag == tag
  {
    if items != [] {
      var n := |items| - 1;
      assert items == items[..n] + [items[n]];
      ItemTagsMembers(items[..n], protocol, tag);
    }
  }

  lemma {:induction false} NewProtocolsMembers(created: seq<ConfigRow>, protocol: string)
    ensures protocol in NewProtocols(created) <==> exists row :: row in created && row.content.protocol == protocol
  {
    if created != [] {
      var n := |created| - 1;
      assert created == created[..n] + [created[n]];
      NewProtocolsMembers(created[..n], protocol);
    }
  }

  // ---- one user's accounts ------------------------------------------------------------------

  // The accounts of the protocol are filled in.
  predicate Fills(created: seq<ConfigRow>, protocols: seq<string>, protocol: string, excludedTags: set<string>) {
    && protocol in protocols && protocol in ACCOUNT_PROTOCOLS
    && exists tag :: tag in TagsOf(created, protocol) && Usable(tag, excludedTags)
  }

  lemma {:induction false} EnsuredAccount(
      users: seq<User>, rows: seq<ConfigRow>, created: seq<ConfigRow>, wanted: seq<Item>, protocols: seq<string>,
      excludedTags: set<string>, settings: NewSettings, i: nat, protocol: string)
    requires i < |users|
    ensures
      var after := UsersEnsured(users, rows, created, wanted, protocols, excludedTags, settings);
      && |after| == |users| && after[i].id == users[i].id
      && (protocol in users[i].proxies ==>
            protocol in after[i].proxies && after[i].proxies[protocol] == users[i].proxies[protocol])
      && (protocol !in users[i].proxies ==>
            (protocol in after[i].proxies <==> Fills(created, protocols, protocol, excludedTags))
            && (protocol in after[i].proxies ==>
                  after[i].proxies[protocol] == Proxy(
                    settings(users[i].id, protocol),
                    OtherTags(rows, TagsOf(created, protocol), ItemTags(wanted, protocol), excludedTags))))
  {
    if protocols != [] {
      var n := |protocols| - 1;
      assert protocols == protocols[..n] + [protocols[n]];
      EnsuredAccount(users, rows, created, wanted, protocols[..n], excludedTags, settings, i, protocol);
    }
  }

  // New rows are the template entries that were not stored.
  lemma CreatedTags(t: Tables, node: NodeId, wanted: seq<Item>, protocol: string, excludedTags: set<string>)
    requires forall x :: x in wanted ==> Usable(x.tag, excludedTags)
    requires protocol in ACCOUNT_PROTOCOLS
    ensures
      var created := RowSync.NewRows(t.inbounds, node, wanted);
      Fills(created, NewProtocols(created), protocol, excludedTags) <==> Brings(t, wanted, protocol)
  {
    var created := RowSync.NewRows(t.inbounds, node, wanted);
    NewProtocolsMembers(created, protocol);
    if x :| x in wanted && x.protocol == protocol && RowFor(t.inbounds, x.tag).None? {
      RowSyncProperties.NewMembers(t.inbounds, node, wanted, RowSync.NewRow(x, node));
      TagsOfMembers(created, protocol, x.tag);
      assert x.tag in TagsOf(created, protocol);
    }
    if row :| row in created && row.content.protocol == protocol {
      RowSyncProperties.NewMembers(t.inbounds, node, wanted, row);
    }
  }

  // A stored row of another node is no new one, and the template holds it exactly as stored.
  lemma SharedRow(rows: seq<ConfigRow>, node: NodeId, wanted: seq<Item>, other: NodeId, row: ConfigRow)
    requires SoundRows(rows) && RowSync.DistinctTags(wanted) && RowSync.FirstConflict(rows, node, wanted).None?
    requires row in rows && other in row.nodes && other != node
    ensures row.tag in ItemTags(wanted, row.content.protocol) <==> RowSync.Find(wanted, row.tag).Some?
    ensures row.tag !in TagsOf(RowSync.NewRows(rows, node, wanted), row.content.protocol)
    ensures row.tag !in RowSync.DeletedTags(rows, node, wanted)
  {
    var i :| 0 <= i < |rows| && rows[i] == row;
    ItemTagsMembers(wanted, row.content.protocol, row.tag);
    RowSync.FindFinds(wanted, row.tag);
    if RowSync.Find(wanted, row.tag).Some? {
      RowSyncProperties.WantedRow(rows, node, wanted, i);
    }
    NoNewRow(rows, node, wanted, i);
    DeletedMembers(rows, node, wanted, row.tag);
  }

  lemma NoNewRow(rows: seq<ConfigRow>, node: NodeId, wanted: seq<Item>, i: nat)
    requires UniqueTags(rows) && i < |rows|
    ensures rows[i].tag !in TagsOf(RowSync.NewRows(rows, node, wanted), rows[i].content.protocol)
  {
    TagsOfMembers(RowSync.NewRows(rows, node, wanted), rows[i].content.protocol, rows[i].tag);
    RowForUnique(rows, i);
    forall r | r in RowSync.NewRows(rows, node, wanted) ensures r.tag != rows[i].tag {
      RowSyncProperties.NewMembers(rows, node, wanted, r);
    }
  }

  // The row is still there after the sync.
  lemma RowSurvives(rows: seq<ConfigRow>, node: NodeId, wanted: seq<Item>, other: NodeId, v: RowView)
    requires SoundRows(rows) && RowSync.FirstConflict(rows, node, wanted).None? && other != node
    requires v in NodeRows(rows, other)
    ensures exists row :: row in RowSync.SyncedRows(rows, node, wanted) && row.tag == v.tag
  {
    RowSyncProperties.OtherNodesKeepTheirRows(rows, node, wanted, other);
    NodeRowsMembers(RowSync.SyncedRows(rows, node, wanted), other);
  }

  lemma ClientAfter(
      t: Tables, node: NodeId, wanted: seq<Item>, excludedTags: set<string>, settings: NewSettings, other: NodeId,
      i: nat, v: RowView)
    requires SoundRows(t.inbounds) && RowSync.DistinctTags(wanted) && other != node && i < |t.users|
    requires RowSync.FirstConflict(t.inbounds, node, wanted).None?
    requires forall x :: x in wanted ==> Usable(x.tag, excludedTags)
    requires v in NodeRows(t.inbounds, other)
    ensures
      var users' := SyncedInbounds(t, node, wanted, excludedTags, settings).users;
      && |users'| == |t.users|
      && ClientOn(users'[i], v, excludedTags)
         == if Gains(t, wanted, other, excludedTags, i, v) then Some(settings(t.users[i].id, v.content.protocol))
            else ClientOn(t.users[i], v, excludedTags)
  {
    var rows := RowSync.SyncedRows(t.inbounds, node, wanted);
    var created := RowSync.NewRows(t.inbounds, node, wanted);
    var kept := UsersKept(t.users, RowSync.DeletedTags(t.inbounds, node, wanted));
    var protocol := v.content.protocol;
    NodeRowsMembers(t.inbounds, other);
    var row :| row in t.inbounds && other in row.nodes && v == RowView(row.tag, row.content, row.enabled);
    SharedRow(t.inbounds, node, wanted, other, row);
    RowSurvives(t.inbounds, node, wanted, other, v);
    EnsuredAccount(kept, rows, created, wanted, NewProtocols(created), excludedTags, settings, i, protocol);
    if protocol in ACCOUNT_PROTOCOLS {
      CreatedTags(t, node, wanted, protocol, excludedTags);
    }
  }

  // Isolation of clients: after a successful sync of one node every user has the same clients on another
  // node's inbounds exactly when nobody gains an account there. Whoever does gain one is put on that
  // node's list although the node is neither marked nor called.
  lemma SyncKeepsClientsExactlyWhen(
      t: Tables, node: NodeId, wanted: seq<Item>, excludedTags: set<string>, settings: NewSettings, other: NodeId)
    requires SoundRows(t.inbounds) && RowSync.DistinctTags(wanted) && other != node
    requires RowSync.FirstConflict(t.inbounds, node, wanted).None?
    requires forall x :: x in wanted ==> Usable(x.tag, excludedTags)
    ensures SameClients(t, SyncedInbounds(t, node, wanted, excludedTags, settings), other, excludedTags)
       <==> forall i: nat, v :: !Gains(t, wanted, other, excludedTags, i, v)
  {
    var t' := SyncedInbounds(t, node, wanted, excludedTags, settings);
    RowSyncProperties.OtherNodesKeepTheirRows(t.inbounds, node, wanted, other);
    EnsuredLength(t, node, wanted, excludedTags, settings);
    forall i: nat, v | i < |t.users| && v in NodeRows(t.inbounds, other)
      ensures Differs(t, t', excludedTags, i, v) <==> Gains(t, wanted, other, excludedTags, i, v)
    {
      ClientAfter(t, node, wanted, excludedTags, settings, other, i, v);
    }
    SameExactlyWhen(t, t', other, excludedTags);
  }

  ghost predicate Differs(t: Tables, t': Tables, excludedTags: set<string>, i: nat, v: RowView)
    requires i < |t.users| && |t'.users| == |t.users|
  {
    ClientOn(t'.users[i], v, excludedTags) != ClientOn(t.users[i], v, excludedTags)
  }

  lemma SameExactlyWhen(t: Tables, t': Tables, node: NodeId, excludedTags: set<string>)
    requires NodeRows(t'.inbounds, node) == NodeRows(t.inbounds, node) && |t'.users| == |t.users|
    ensures SameClients(t, t', node, excludedTags) <==>
      forall i: nat, v :: i < |t.users| && v in NodeRows(t.inbounds, node) ==> !Differs(t, t', excludedTags, i, v)
  {
    if SameClients(t, t', node, excludedTags) {
      forall i: nat, v | i < |t.users| && v in NodeRows(t.inbounds, node) ensures !Differs(t, t', excludedTags, i, v) {
      }
    } else {
      var i, v :| 0 <= i < |t.users| && v in NodeRows(t.inbounds, node)
        && ClientOn(t'.users[i], v, excludedTags) != ClientOn(t.users[i], v, excludedTags);
      assert Differs(t, t', excludedTags, i, v);
    }
  }

  lemma EnsuredLength(t: Tables, node: NodeId, wanted: seq<Item>, excludedTags: set<string>, settings: NewSettings)
    ensures |SyncedInbounds(t, node, wanted, excludedTags, settings).users| == |t.users|
  {
    var created := RowSync.NewRows(t.inbounds, node, wanted);
    UsersLength(UsersKept(t.users, RowSync.DeletedTags(t.inbounds, node, wanted)),
                RowSync.SyncedRows(t.inbounds, node, wanted), created, wanted, NewProtocols(created), excludedTags, settings);
  }

  lemma {:induction false} UsersLength(
      users: seq<User>, rows: seq<ConfigRow>, created: seq<ConfigRow>, wanted: seq<Item>, protocols: seq<string>,
      excludedTags: set<string>, settings: NewSettings)
    ensures |UsersEnsured(users, rows, created, wanted, protocols, excludedTags, settings)| == |users|
  {
    if protocols != [] {
      UsersLength(users, rows, created, wanted, protocols[..|protocols| - 1], excludedTags, settings);
    }
  }

  // The same for the sync of a whole template; its outbounds and rules touch nobody's accounts.
  lemma TemplateKeepsClientsExactlyWhen(
      t: Tables, node: NodeId, template: Template, excludedTags: set<string>, settings: NewSettings, other: NodeId)
    requires Sound(t) && Normalized(template) && other != node
    requires Synced(t, node, template, excludedTags, settings).Ok?
    ensures
      var wanted := RowSync.TemplateInboundContents(template, excludedTags);
      SameClients(t, Synced(t, node, template, excludedTags, settings).value, other, excludedTags)
      <==> forall i: nat, v :: !Gains(t, wanted, other, excludedTags, i, v)
  {
    var wanted := RowSync.TemplateInboundContents(template, excludedTags);
    TemplateProperties.ContentsDistinct(template, excludedTags);
    forall x | x in wanted ensures Usable(x.tag, excludedTags) {
      TemplateProperties.InboundContentsMembers(template, excludedTags, x);
    }
    SyncKeepsClientsExactlyWhen(t, node, wanted, excludedTags, settings, other);
  }

  // ---- an account that reaches another node -------------------------------------------------

  const OTHERS := ConfigRow("b", Item("b", "vless", map[]), true, false, {2})
  const NEW_ITEM := Item("a", "vless", map[])

  // Node 2 serves "b", and one user has no account. The template of node 1 brings "a", and with it the
  // user gets a client on "b".
  lemma AccountReachesOtherNode(nodes: map<NodeId, NodeRow>, settings: NewSettings)
    ensures
      var t := Tables(nodes, [OTHERS], [], [], 0, [], [User(0, map[])]);
      var t', v := SyncedInbounds(t, 1, [NEW_ITEM], {}, settings), RowView("b", OTHERS.content, true);
      && RowSync.FirstConflict(t.inbounds, 1, [NEW_ITEM]).None? && v in NodeRows(t.inbounds, 2)
      && |t'.users| == 1 && ClientOn(t.users[0], v, {}) == None
      && ClientOn(t'.users[0], v, {}) == Some(settings(0, "vless"))
      && !SameClients(t, t', 2, {})
  {
    var t := Tables(nodes, [OTHERS], [], [], 0, [], [User(0, map[])]);
    var v := RowView("b", OTHERS.content, true);
    assert NEW_ITEM.tag[0] != OTHERS.tag[0];
    assert [OTHERS][..0] == [] && [NEW_ITEM][..0] == [];
    assert v in NodeRows(t.inbounds, 2);
    assert NEW_ITEM in [NEW_ITEM] && RowFor(t.inbounds, "a").None?;
    assert Gains(t, [NEW_ITEM], 2, {}, 0, v);
    ClientAfter(t, 1, [NEW_ITEM], {}, settings, 2, 0, v);
    SyncKeepsClientsExactlyWhen(t, 1, [NEW_ITEM], {}, settings, 2);
  }
}
