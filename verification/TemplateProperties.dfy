// What the template sync promises for whole databases: isolation, recomposition, idempotence.

module TemplateProperties {
  import opened Wrappers
  import opened Seqs
  import opened NodeTables
  import opened Protocols
  import opened RoutingRules
  import opened NodeConfig
  import opened NodeConfigProperties
  import opened ConfigTemplate
  import opened TemplateSync
  import opened SortOrder
  import opened Sorting
  import RowSync
  import RowSyncProperties
  import RuleSync
  import RuleIsolation
  import RuleRecompose
  import RuleFixpoint

  function RuleTableOf(t: Tables): RuleSync.RuleTable {
    RuleSync.RuleTable(t.rules, t.nextRuleId)
  }

  lemma ContentsDistinct(template: Template, excludedTags: set<string>)
    ensures RowSync.DistinctTags(RowSync.TemplateInboundContents(template, excludedTags))
    ensures RowSync.DistinctTags(RowSync.TemplateOutboundContents(template))
  {
    RowSync.DictionaryKeepsLast(RowSync.SupportedInbounds(template.inbounds, excludedTags), "");
    RowSync.DictionaryKeepsLast(RowSync.TaggedOutbounds(template.outbounds), "");
  }

  // Every successful sync keeps the tables' invariants.
  lemma SyncKeepsSound(t: Tables, node: NodeId, template: Template, excludedTags: set<string>, settings: NewSettings)
    requires Sound(t) && Normalized(template)
    requires Synced(t, node, template, excludedTags, settings).Ok?
    ensures Sound(Synced(t, node, template, excludedTags, settings).value)
  {
    var inbounds := RowSync.TemplateInboundContents(template, excludedTags);
    var outbounds := RowSync.TemplateOutboundContents(template);
    ContentsDistinct(template, excludedTags);
    NormalizeAllNormal(template.rules);
    forall x | x in inbounds ensures x.tag != "" && ',' !in x.tag {
      InboundContentsMembers(template, excludedTags, x);
    }
    OutboundContents(template);
    RowSyncProperties.SyncKeepsRowsSound(t.inbounds, node, inbounds);
    RowSyncProperties.SyncKeepsRowsSound(t.outbounds, node, outbounds);
    RuleRecompose.SyncKeepsRulesSound(RuleTableOf(t), node, template.rules);
    forall rule | rule in template.rules ensures rule.ruleTag != "" {
      NormalizedRule(rule, None);
    }
    RuleRecompose.SyncKeepsNamed(RuleTableOf(t), node, template.rules);
  }

  // Every outbound of a normalized template is managed.
  lemma OutboundContents(template: Template)
    requires Normalized(template)
    ensures RowSync.TemplateOutboundContents(template) == template.outbounds
  {
    TaggedAll(template.outbounds);
    RowSync.DictionaryOfDistinct(template.outbounds);
  }

  // A caller can check this before the sync: no other node's rules change their order.
  ghost predicate KeepsOtherOrders(t: Tables, node: NodeId, template: Template) {
    forall other :: other != node ==> RuleIsolation.KeepsOrder(t.rules, node, template.rules, other)
  }

  // Isolation: after a successful sync of one node every other node is assigned the same inbound
  // and outbound rows with the same contents, sees the same rules up to planned positions, and
  // lists them in the same order exactly when the planned positions compare as the old ones.
  lemma SyncLeavesOthersAlone(
      t: Tables, node: NodeId, template: Template, excludedTags: set<string>, settings: NewSettings, other: NodeId)
    requires Sound(t) && Normalized(template) && other != node
    requires Synced(t, node, template, excludedTags, settings).Ok?
    ensures var t' := Synced(t, node, template, excludedTags, settings).value;
      && t'.nodes == t.nodes
      && NodeRows(t'.inbounds, other) == NodeRows(t.inbounds, other)
      && NodeRows(t'.outbounds, other) == NodeRows(t.outbounds, other)
      && (RuleIsolation.RuleOrder(t'.rules, other) == RuleIsolation.RuleOrder(t.rules, other)
          <==> RuleIsolation.KeepsOrder(t.rules, node, template.rules, other))
      && (RuleIsolation.KeepsOrder(t.rules, node, template.rules, other) ==>
            MergedRules(NodeRules(t'.rules, other)) == MergedRules(NodeRules(t.rules, other)))
  {
    NormalizeAllNormal(template.rules);
    RowSyncProperties.OtherNodesKeepTheirRows(
      t.inbounds, node, RowSync.TemplateInboundContents(template, excludedTags), other);
    RowSyncProperties.OtherNodesKeepTheirRows(t.outbounds, node, RowSync.TemplateOutboundContents(template), other);
    RuleIsolation.OrderKeptExactlyWhen(RuleTableOf(t), node, template.rules, other);
    if RuleIsolation.KeepsOrder(t.rules, node, template.rules, other) {
      RuleIsolation.GeneratedRulesKept(RuleTableOf(t), node, template.rules, other);
    }
  }

  // ---- decompose, then recompose ------------------------------------------------------------

  lemma {:induction false} SupportedMembers(items: seq<Item>, excludedTags: set<string>, x: Item)
    ensures x in RowSync.SupportedInbounds(items, excludedTags) <==>
      x in items && x.tag != "" && x.protocol in INBOUND_PROTOCOLS && x.tag !in excludedTags
  {
    if items != [] {
      var n := |items| - 1;
      assert items == items[..n] + [items[n]];
      SupportedMembers(items[..n], excludedTags, x);
    }
  }

  lemma {:induction false} TaggedAll(items: seq<Item>)
    requires GoodOutbounds(items)
    ensures RowSync.TaggedOutbounds(items) == items
  {
    if items != [] {
      TaggedAll(items[..|items| - 1]);
      assert items[|items| - 1] in items;
    }
  }

  // The dictionary of template inbounds holds exactly the supported entries.
  lemma InboundContentsMembers(template: Template, excludedTags: set<string>, x: Item)
    requires Normalized(template)
    ensures x in RowSync.TemplateInboundContents(template, excludedTags) <==>
      x in template.inbounds && x.protocol in INBOUND_PROTOCOLS && x.tag !in excludedTags
  {
    var supported := RowSync.SupportedInbounds(template.inbounds, excludedTags);
    SupportedMembers(template.inbounds, excludedTags, x);
    SupportedDistinct(template.inbounds, excludedTags);
    RowSync.DictionaryOfDistinct(supported);
  }

  lemma {:induction false} SupportedDistinct(items: seq<Item>, excludedTags: set<string>)
    requires RowSync.DistinctTags(items)
    ensures RowSync.DistinctTags(RowSync.SupportedInbounds(items, excludedTags))
  {
    if items != [] {
      var n := |items| - 1;
      SupportedDistinct(items[..n], excludedTags);
      var earlier := RowSync.SupportedInbounds(items[..n], excludedTags);
      forall i | 0 <= i < |earlier| ensures earlier[i].tag != items[n].tag {
        SupportedMembers(items[..n], excludedTags, earlier[i]);
      }
    }
  }

  // The enabled editable rows of a node, which the template knows nothing about.
  function EditableItems(rows: seq<ConfigRow>, node: NodeId): seq<Item> {
    if rows == [] then []
    else
      var row := rows[|rows| - 1];
      if !row.readonly && row.enabled && node in row.nodes
      then EditableItems(rows[..|rows| - 1], node) + [row.content] else EditableItems(rows[..|rows| - 1], node)
  }

  // No editable row of the node uses a tag of the template.
  ghost predicate EditableApart(rows: seq<ConfigRow>, node: NodeId, items: seq<Item>) {
    forall row, x :: row in rows && !row.readonly && node in row.nodes && x in items ==> row.tag != x.tag
  }

  lemma {:induction false} EditableMembers(rows: seq<ConfigRow>, node: NodeId, x: Item)
    ensures x in EditableItems(rows, node) <==>
      exists row :: row in rows && !row.readonly && row.enabled && node in row.nodes && row.content == x
  {
    if rows != [] {
      var n := |rows| - 1;
      assert rows == rows[..n] + [rows[n]];
      EditableMembers(rows[..n], node, x);
    }
  }

  lemma {:induction false} EditableDistinct(rows: seq<ConfigRow>, node: NodeId)
    requires SoundRows(rows)
    ensures RowSync.DistinctTags(EditableItems(rows, node))
  {
    if rows != [] {
      var n := |rows| - 1;
      assert rows == rows[..n] + [rows[n]];
      EditableDistinct(rows[..n], node);
      forall x | x in EditableItems(rows[..n], node) ensures x.tag != rows[n].content.tag {
        EditableMembers(rows[..n], node, x);
        var row :| row in rows[..n] && row.content == x;
        assert row in rows && rows[n] in rows;
      }
    }
  }

  // The shape both kinds of entries share: `wanted` are the template's managed entries; the others
  // are excluded, or have a tag that no managed entry has.
  ghost predicate Managed(items: seq<Item>, wanted: seq<Item>, excluded: set<string>) {
    && RowSync.DistinctTags(items) && RowSync.DistinctTags(wanted)
    && (forall x :: x in wanted ==> x in items && x.tag !in excluded)
    && (forall x :: x in items && x !in wanted ==> x.tag in excluded || RowSync.Find(wanted, x.tag).None?)
  }

  lemma MergedMembers(rows: seq<ConfigRow>, node: NodeId, items: seq<Item>, wanted: seq<Item>, excluded: set<string>, x: Item)
    requires SoundRows(rows) && Managed(items, wanted, excluded)
    requires RowSync.FirstConflict(rows, node, wanted).None?
    requires EditableApart(rows, node, items)
    ensures x in MergedItems(items, NodeRows(RowSync.SyncedRows(rows, node, wanted), node), excluded)
       <==> x in items || x in EditableItems(rows, node)
  {
    var synced := RowSync.SyncedRows(rows, node, wanted);
    var views := NodeRows(synced, node);
    NodeRowsMembers(synced, node);
    UnmanagedMembers(items, ManagedTags(views), excluded, x);
    EnabledMembers(views, x);
    EditableMembers(rows, node, x);
    if x in EnabledItems(views) {
      var v :| v in views && v.enabled && x == v.content.(tag := v.tag);
      var row :| row in synced && node in row.nodes && v == RowView(row.tag, row.content, row.enabled);
      RowSyncProperties.NodeOwnsExactlyTheTemplate(rows, node, wanted, row);
    }
    if x in wanted {
      WantedIsMerged(rows, node, wanted, x);
    } else if x in items && x.tag !in excluded {
      forall row | row in synced && node in row.nodes ensures row.tag != x.tag {
        RowSyncProperties.NodeOwnsExactlyTheTemplate(rows, node, wanted, row);
        RowSync.FindFinds(wanted, x.tag);
      }
    }
    if x in EditableItems(rows, node) {
      EditableIsMerged(rows, node, wanted, x);
    }
  }

  lemma WantedIsMerged(rows: seq<ConfigRow>, node: NodeId, wanted: seq<Item>, x: Item)
    requires SoundRows(rows) && RowSync.DistinctTags(wanted) && x in wanted
    requires RowSync.FirstConflict(rows, node, wanted).None?
    ensures x in EnabledItems(NodeRows(RowSync.SyncedRows(rows, node, wanted), node))
  {
    var synced := RowSync.SyncedRows(rows, node, wanted);
    NodeRowsMembers(synced, node);
    EnabledMembers(NodeRows(synced, node), x);
    RowSyncProperties.EveryEntryHasItsRow(rows, node, wanted, x);
    var row :| row in synced && RowSyncProperties.Owns(row, node, x);
    assert RowView(row.tag, row.content, row.enabled) in NodeRows(synced, node);
  }

  lemma EditableIsMerged(rows: seq<ConfigRow>, node: NodeId, wanted: seq<Item>, x: Item)
    requires SoundRows(rows) && RowSync.DistinctTags(wanted) && x in EditableItems(rows, node)
    requires RowSync.FirstConflict(rows, node, wanted).None?
    ensures x in EnabledItems(NodeRows(RowSync.SyncedRows(rows, node, wanted), node))
  {
    var synced := RowSync.SyncedRows(rows, node, wanted);
    NodeRowsMembers(synced, node);
    EnabledMembers(NodeRows(synced, node), x);
    EditableMembers(rows, node, x);
    var row :| row in rows && !row.readonly && row.enabled && node in row.nodes && row.content == x;
    RowSyncProperties.NodeOwnsExactlyTheTemplate(rows, node, wanted, row);
    assert RowView(row.tag, row.content, row.enabled) in NodeRows(synced, node);
  }

  lemma {:induction false} NodeRowsDistinct(rows: seq<ConfigRow>, node: NodeId)
    requires SoundRows(rows)
    ensures WellTagged(NodeRows(rows, node))
  {
    if rows != [] {
      var n := |rows| - 1;
      assert rows == rows[..n] + [rows[n]];
      NodeRowsDistinct(rows[..n], node);
      NodeRowsMembers(rows[..n], node);
      var earlier := NodeRows(rows[..n], node);
      forall i | 0 <= i < |earlier| ensures earlier[i].tag != rows[n].tag {
        assert earlier[i] in earlier;
        var row :| row in rows[..n] && row.tag == earlier[i].tag;
      }
    }
  }

  lemma NoClash(rows: seq<ConfigRow>, node: NodeId, items: seq<Item>, wanted: seq<Item>, excluded: set<string>)
    requires SoundRows(rows) && Managed(items, wanted, excluded)
    requires RowSync.FirstConflict(rows, node, wanted).None?
    requires EditableApart(rows, node, items)
    ensures !Clashes(items, NodeRows(RowSync.SyncedRows(rows, node, wanted), node), excluded)
  {
    var synced := RowSync.SyncedRows(rows, node, wanted);
    NodeRowsMembers(synced, node);
    forall v, x | v in NodeRows(synced, node) && v.tag in excluded && x in items ensures x.tag != v.tag {
      var row :| row in synced && node in row.nodes && v == RowView(row.tag, row.content, row.enabled);
      RowSyncProperties.NodeOwnsExactlyTheTemplate(rows, node, wanted, row);
    }
  }

  // Managed entries come back from the rows and the others from the template: together they are a
  // permutation of the template's entries and the node's enabled editable rows.
  lemma ItemsRecomposed(rows: seq<ConfigRow>, node: NodeId, items: seq<Item>, wanted: seq<Item>, excluded: set<string>)
    requires SoundRows(rows) && Managed(items, wanted, excluded) && GoodOutbounds(items)
    requires RowSync.FirstConflict(rows, node, wanted).None?
    requires forall x :: x in wanted ==> x.tag != ""
    requires EditableApart(rows, node, items)
    ensures multiset(MergedItems(items, NodeRows(RowSync.SyncedRows(rows, node, wanted), node), excluded))
         == multiset(items) + multiset(EditableItems(rows, node))
  {
    var merged := MergedItems(items, NodeRows(RowSync.SyncedRows(rows, node, wanted), node), excluded);
    var both := items + EditableItems(rows, node);
    MergedDistinct(rows, node, items, wanted, excluded);
    BothDistinct(rows, node, items);
    forall x ensures x in merged <==> x in both {
      MergedMembers(rows, node, items, wanted, excluded, x);
    }
    SameElementsSameMultiset(merged, both);
  }

  lemma MergedDistinct(rows: seq<ConfigRow>, node: NodeId, items: seq<Item>, wanted: seq<Item>, excluded: set<string>)
    requires SoundRows(rows) && Managed(items, wanted, excluded) && GoodOutbounds(items)
    requires RowSync.FirstConflict(rows, node, wanted).None?
    requires forall x :: x in wanted ==> x.tag != ""
    requires EditableApart(rows, node, items)
    ensures NoDuplicates(MergedItems(items, NodeRows(RowSync.SyncedRows(rows, node, wanted), node), excluded))
  {
    var synced := RowSync.SyncedRows(rows, node, wanted);
    RowSyncProperties.SyncKeepsRowsSound(rows, node, wanted);
    NodeRowsDistinct(synced, node);
    NoClash(rows, node, items, wanted, excluded);
    MergedTagsDistinct(items, NodeRows(synced, node), excluded);
  }

  lemma BothDistinct(rows: seq<ConfigRow>, node: NodeId, items: seq<Item>)
    requires SoundRows(rows) && GoodOutbounds(items) && EditableApart(rows, node, items)
    ensures NoDuplicates(items + EditableItems(rows, node))
  {
    EditableDistinct(rows, node);
    forall x, y | x in items && y in EditableItems(rows, node) ensures x.tag != y.tag {
      EditableMembers(rows, node, y);
    }
  }

  lemma TemplateManaged(template: Template, excludedTags: set<string>)
    requires Normalized(template)
    ensures Managed(template.inbounds, RowSync.TemplateInboundContents(template, excludedTags), excludedTags)
    ensures Managed(template.outbounds, RowSync.TemplateOutboundContents(template), {})
  {
    var wanted := RowSync.TemplateInboundContents(template, excludedTags);
    ContentsDistinct(template, excludedTags);
    OutboundContents(template);
    forall x ensures x in wanted ==> x in template.inbounds && x.tag !in excludedTags {
      InboundContentsMembers(template, excludedTags, x);
    }
    forall x | x in template.inbounds && x !in wanted && x.tag !in excludedTags
      ensures RowSync.Find(wanted, x.tag).None?
    {
      InboundContentsMembers(template, excludedTags, x);
      RowSync.FindFinds(wanted, x.tag);
      forall y | y in wanted ensures y.tag != x.tag {
        InboundContentsMembers(template, excludedTags, y);
      }
    }
  }

  // No enabled editable rule is assigned to the node.
  ghost predicate OnlyReadonlyRules(rules: seq<RuleRow>, node: NodeId) {
    forall row :: row in rules && node in row.nodes && row.enabled ==> row.readonly
  }

  lemma {:induction false} EnabledAreReadonly(views: seq<RuleView>)
    requires forall i :: 0 <= i < |views| ==> (views[i].enabled <==> views[i].readonly)
    ensures EnabledRules(views) == Map(Filter(views, RuleRecompose.IsReadonlyView), RuleRecompose.ContentOf)
  {
    if views != [] {
      var n := |views| - 1;
      EnabledAreReadonly(views[..n]);
      var kept := Filter(views[..n], RuleRecompose.IsReadonlyView);
      assert (kept + [views[n]])[..|kept|] == kept;
    }
  }

  lemma ReadonlyMerge(rules: seq<RuleRow>, nextId: nat, node: NodeId)
    requires SoundRules(rules, nextId) && OnlyReadonlyRules(rules, node)
    ensures MergedRules(NodeRules(rules, node)) == Map(RuleRecompose.ReadonlyOrder(rules, node), RuleRecompose.ContentOf)
  {
    var views := NodeRules(rules, node);
    var sorted := SortBy(views, ViewPosition);
    forall i | 0 <= i < |sorted| ensures sorted[i].enabled <==> sorted[i].readonly {
      SortMembers(views, ViewPosition, sorted[i]);
      NodeRulesMembers(rules, node, sorted[i]);
      var row :| row in rules && node in row.nodes && sorted[i] == ViewOf(row);
    }
    EnabledAreReadonly(sorted);
  }

  // Decompose, then recompose. After a successful sync the node's generated inbounds and outbounds
  // are permutations of the template's and the node's own enabled editable rows; the read-only
  // rules come back exactly and in order, provided that (and only if) the node had no two read-only
  // rules under one name of the template.
  lemma DecomposeRecompose(t: Tables, node: NodeId, template: Template, excludedTags: set<string>, settings: NewSettings)
    requires Sound(t) && Normalized(template)
    requires Synced(t, node, template, excludedTags, settings).Ok?
    requires EditableApart(t.inbounds, node, template.inbounds)
    requires EditableApart(t.outbounds, node, template.outbounds)
    ensures
      var t' := Synced(t, node, template, excludedTags, settings).value;
      && multiset(MergedItems(template.inbounds, NodeRows(t'.inbounds, node), excludedTags))
         == multiset(template.inbounds) + multiset(EditableItems(t.inbounds, node))
      && multiset(MergedItems(template.outbounds, NodeRows(t'.outbounds, node), {}))
         == multiset(template.outbounds) + multiset(EditableItems(t.outbounds, node))
      && (Map(RuleRecompose.ReadonlyOrder(t'.rules, node), RuleRecompose.ContentOf) == template.rules
          <==> RuleRecompose.NoHomonyms(t.rules, node, template.rules))
      && (OnlyReadonlyRules(t'.rules, node) ==>
            (MergedRules(NodeRules(t'.rules, node)) == template.rules
             <==> RuleRecompose.NoHomonyms(t.rules, node, template.rules)))
  {
    var t' := Synced(t, node, template, excludedTags, settings).value;
    var inbounds := RowSync.TemplateInboundContents(template, excludedTags);
    NormalizeAllNormal(template.rules);
    TemplateManaged(template, excludedTags);
    OutboundContents(template);
    ItemsRecomposed(t.inbounds, node, template.inbounds, inbounds, excludedTags);
    ItemsRecomposed(t.outbounds, node, template.outbounds, template.outbounds, {});
    RuleRecompose.RulesRecomposedExactlyWhen(RuleTableOf(t), node, template.rules);
    SyncKeepsSound(t, node, template, excludedTags, settings);
    if OnlyReadonlyRules(t'.rules, node) {
      ReadonlyMerge(t'.rules, t'.nextRuleId, node);
    }
  }

  // ---- idempotence --------------------------------------------------------------------------

  // The database already agrees with the template; a reader of the tables can check it.
  ghost predicate Settled(t: Tables, node: NodeId, template: Template, excludedTags: set<string>) {
    && RowSyncProperties.SettledRows(t.inbounds, node, RowSync.TemplateInboundContents(template, excludedTags))
    && RowSyncProperties.SettledRows(t.outbounds, node, RowSync.TemplateOutboundContents(template))
    && RuleFixpoint.SettledRules(t.rules, node, template.rules)
  }

  lemma {:induction false} NothingDeleted(rows: seq<ConfigRow>, node: NodeId, wanted: seq<Item>)
    requires forall i :: 0 <= i < |rows| ==> RowSync.KeptRow(rows[i], node, wanted) != []
    ensures RowSync.DeletedTags(rows, node, wanted) == []
  {
    if rows != [] {
      NothingDeleted(rows[..|rows| - 1], node, wanted);
    }
  }

  lemma {:induction false} HostsUntouched(hosts: seq<Host>)
    ensures HostsKept(hosts, []) == hosts
  {
    if hosts != [] {
      HostsUntouched(hosts[..|hosts| - 1]);
    }
  }

  // Settled inbounds leave the hosts and the users' accounts alone too.
  lemma SettledInbounds(t: Tables, node: NodeId, wanted: seq<Item>, excludedTags: set<string>, settings: NewSettings)
    requires SoundRows(t.inbounds) && RowSync.DistinctTags(wanted)
    requires RowSyncProperties.SettledRows(t.inbounds, node, wanted)
    ensures SyncedInbounds(t, node, wanted, excludedTags, settings) == t
  {
    RowSyncProperties.SettledIsFixed(t.inbounds, node, wanted);
    forall i | 0 <= i < |t.inbounds| ensures RowSync.KeptRow(t.inbounds[i], node, wanted) == [t.inbounds[i]] {
      RowSyncProperties.SettledKeepsRow(t.inbounds, node, wanted, i);
    }
    NothingDeleted(t.inbounds, node, wanted);
    RowSyncProperties.KeptPrefix(t.inbounds, node, wanted);
    assert |RowSync.NewRows(t.inbounds, node, wanted)| == 0;
    HostsUntouched(t.hosts);
    UsersUntouched(t.users);
  }

  lemma UsersUntouched(users: seq<User>)
    ensures UsersKept(users, []) == users
  {
    forall i | 0 <= i < |users| ensures UserKept(users[i], []) == users[i] {
      var user := users[i];
      forall p | p in user.proxies ensures UserKept(user, []).proxies[p] == user.proxies[p] {
        var none: seq<string> := [];
        assert user.proxies[p].excluded - (set tag | tag in none) == user.proxies[p].excluded;
      }
      assert UserKept(user, []).proxies == user.proxies;
    }
  }

  // A sync changes nothing (no row, position, host or account) exactly when the database was
  // settled.
  lemma SyncChangesNothingExactlyWhenSettled(
      t: Tables, node: NodeId, template: Template, excludedTags: set<string>, settings: NewSettings)
    requires Sound(t) && Normalized(template)
    ensures Synced(t, node, template, excludedTags, settings) == Ok(t) <==> Settled(t, node, template, excludedTags)
  {
    var inbounds := RowSync.TemplateInboundContents(template, excludedTags);
    var outbounds := RowSync.TemplateOutboundContents(template);
    ContentsDistinct(template, excludedTags);
    NormalizeAllNormal(template.rules);
    RowSyncProperties.FixedExactlyWhenSettled(t.inbounds, node, inbounds);
    RowSyncProperties.FixedExactlyWhenSettled(t.outbounds, node, outbounds);
    RuleFixpoint.FixedExactlyWhenSettled(RuleTableOf(t), node, template.rules);
    if Settled(t, node, template, excludedTags) {
      SettledInbounds(t, node, inbounds, excludedTags, settings);
    }
  }

  // So a second sync with the same template changes nothing, unless homonyms were about.
  lemma SyncIsIdempotent(
      t: Tables, node: NodeId, template: Template, excludedTags: set<string>, settings: NewSettings, again: NewSettings)
    requires Sound(t) && Normalized(template)
    requires Synced(t, node, template, excludedTags, settings).Ok?
    requires RuleRecompose.NoHomonyms(t.rules, node, template.rules)
    ensures var t' := Synced(t, node, template, excludedTags, settings).value;
      Synced(t', node, template, excludedTags, again) == Ok(t')
  {
    var t' := Synced(t, node, template, excludedTags, settings).value;
    ContentsDistinct(template, excludedTags);
    NormalizeAllNormal(template.rules);
    SyncKeepsSound(t, node, template, excludedTags, settings);
    RowSyncProperties.SyncSettlesRows(t.inbounds, node, RowSync.TemplateInboundContents(template, excludedTags));
    RowSyncProperties.SyncSettlesRows(t.outbounds, node, RowSync.TemplateOutboundContents(template));
    RuleFixpoint.SyncSettlesRules(RuleTableOf(t), node, template.rules);
    SyncChangesNothingExactlyWhenSettled(t', node, template, excludedTags, again);
  }
}
