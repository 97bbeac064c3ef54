// Reachable states in which a node's config cannot be generated, one for each way it can fail.

module RunLimits {
  import opened Wrappers
  import opened NodeTables
  import opened Protocols
  import opened NodeConfig
  import opened NodeConfigProperties
  import opened ConfigTemplate
  import opened TemplateSync
  import opened ControlPlane
  import opened DirtyBits
  import DirtyBitLimits
  import RowSync
  import RuleSync
  import TemplateProperties

  // An inbound of a protocol that no row may have stays in its template.
  const IN := Item("in", "socks", map[])
  const X := Item("X", "freedom", map[])
  const Y := Item("Y", "freedom", map[])

  const EMPTY := Panel(Tables(map[], [], [], [], 0, [], []), {}, map[], map[])

  function Plain(outbound: Item): NodeRow {
    NodeRow(Template([IN], [outbound], [], NO_SECTIONS), 62051, false, false)
  }

  lemma PlainIsNormal(outbound: Item)
    requires outbound in {X, Y}
    ensures NormalizedTemplate(Plain(outbound).template) == Ok(Plain(outbound).template)
  {
    NormalizationMeans(Plain(outbound).template);
  }

  // ---- the sync of such templates -----------------------------------------------------------

  lemma OneWanted(rows: seq<ConfigRow>, node: NodeId, x: Item)
    ensures RowSync.FirstConflict(rows, node, [x]) == RowSync.RowConflict(rows, node, x)
    ensures RowSync.NewRows(rows, node, [x]) == if RowFor(rows, x.tag).None? then [RowSync.NewRow(x, node)] else []
    ensures RowSync.Find([x], x.tag) == Some(x)
  {
    assert [x][..0] == [];
  }

  lemma OneKept(row: ConfigRow, node: NodeId, wanted: seq<Item>)
    ensures RowSync.KeptRows([row], node, wanted) == RowSync.KeptRow(row, node, wanted)
    ensures RowFor([row], row.tag) == Some(row)
  {
    assert [row][..0] == [];
  }

  lemma PlainContents(outbound: Item, excludedTags: set<string>)
    requires outbound in {X, Y}
    ensures RowSync.TemplateInboundContents(Plain(outbound).template, excludedTags) == []
    ensures RowSync.TemplateOutboundContents(Plain(outbound).template) == [outbound]
  {
    assert [IN][..0] == [] && [outbound][..0] == [];
    assert IN.protocol !in INBOUND_PROTOCOLS;
    assert RowSync.SupportedInbounds([IN], excludedTags) == [];
    assert RowSync.TaggedOutbounds([outbound]) == [outbound];
    RowSync.DictionaryOfDistinct([outbound]);
  }

  // It comes down to the outbound row.
  lemma PlainSync(t: Tables, node: NodeId, outbound: Item, env: Env)
    requires Sound(t) && t.rules == [] && t.inbounds == [] && outbound in {X, Y}
    requires RowSync.RowConflict(t.outbounds, node, outbound).None?
    ensures Synced(t, node, Plain(outbound).template, env.excludedTags, env.newSettings)
         == Ok(t.(outbounds := RowSync.SyncedRows(t.outbounds, node, [outbound])))
  {
    PlainContents(outbound, env.excludedTags);
    TemplateProperties.SettledInbounds(t, node, [], env.excludedTags, env.newSettings);
    OneWanted(t.outbounds, node, outbound);
    assert RuleSync.SyncedRules(RuleSync.RuleTable([], t.nextRuleId), node, []) == RuleSync.RuleTable([], t.nextRuleId);
  }

  // ---- the stages of the runs ---------------------------------------------------------------

  function RowX(nodes: set<NodeId>): ConfigRow {
    ConfigRow("X", X, true, true, nodes)
  }

  // Node 1 with the outbound X, and perhaps node 2 with another one.
  function Stage(second: Option<Item>, outbounds: seq<ConfigRow>): Tables {
    var nodes := map[1 := Plain(X)];
    Tables(if second.Some? then nodes[2 := Plain(second.value)] else nodes, [], outbounds, [], 0, [], [])
  }

  function At(second: Option<Item>, outbounds: seq<ConfigRow>, pending: set<NodeId>): Panel {
    Panel(Stage(second, outbounds), pending, map[], map[])
  }

  lemma Adds(p: Panel, node: NodeId, outbound: Item, t: Tables, env: Env)
    requires Sound(t) && t.rules == [] && t.inbounds == [] && outbound in {X, Y}
    requires RowSync.RowConflict(t.outbounds, node, outbound).None?
    requires node !in p.tables.nodes && t == p.tables.(nodes := p.tables.nodes[node := Plain(outbound)])
    ensures Apply(p, OnNode(AddNode(node, Plain(outbound))), env)
         == p.(tables := t.(outbounds := RowSync.SyncedRows(t.outbounds, node, [outbound])))
  {
    PlainIsNormal(outbound);
    PlainSync(t, node, outbound, env);
    assert Plain(outbound).(template := Plain(outbound).template) == Plain(outbound);
  }

  lemma FirstNode(env: Env)
    ensures IsRun([EMPTY, At(None, [RowX({1})], {})], [OnNode(AddNode(1, Plain(X)))], env)
  {
    OneWanted([], 1, X);
    Adds(EMPTY, 1, X, EMPTY.tables.(nodes := map[1 := Plain(X)]), env);
    DirtyBitLimits.OneStep(EMPTY, OnNode(AddNode(1, Plain(X))), At(None, [RowX({1})], {}), env);
  }

  lemma SharedRow()
    ensures RowSync.RowConflict([RowX({1})], 2, X).None?
    ensures RowSync.SyncedRows([RowX({1})], 2, [X]) == [RowX({1, 2})]
  {
    OneKept(RowX({1}), 2, [X]);
    OneWanted([RowX({1})], 2, X);
    assert {1} + {2} == {1, 2};
  }

  lemma SecondNode(env: Env)
    ensures IsRun([At(None, [RowX({1})], {}), At(Some(X), [RowX({1, 2})], {})], [OnNode(AddNode(2, Plain(X)))], env)
  {
    SharedRow();
    Adds(At(None, [RowX({1})], {}), 2, X, Stage(Some(X), [RowX({1})]), env);
    DirtyBitLimits.OneStep(
      At(None, [RowX({1})], {}), OnNode(AddNode(2, Plain(X))), At(Some(X), [RowX({1, 2})], {}), env);
  }

  const MOVE := OnOutbounds(ModifyOutbound("X", RowEdit(None, None, Some({2}))))

  lemma MoveToSecond(env: Env)
    ensures IsRun([At(Some(X), [RowX({1, 2})], {}), At(Some(X), [RowX({2})], {1, 2})], [MOVE], env)
  {
    var rows := [RowX({1, 2})];
    assert rows[..0] == [] && rows[0 := RowX({2})] == [RowX({2})];
    assert RowIndex(rows, "X") == Some(0);
    DirtyBitLimits.OneStep(At(Some(X), rows, {}), MOVE, At(Some(X), [RowX({2})], {1, 2}), env);
  }

  lemma DroppedRow()
    ensures RowSync.RowConflict([RowX({2})], 2, Y).None?
    ensures RowSync.SyncedRows([RowX({2})], 2, [Y]) == [RowSync.NewRow(Y, 2)]
  {
    assert X.tag[0] != Y.tag[0];
    OneKept(RowX({2}), 2, [Y]);
    OneWanted([RowX({2})], 2, Y);
    assert [RowX({2})][..0] == [] && [Y][..0] == [];
    assert RowSync.Find([Y], "X").None? && RowFor([RowX({2})], "Y").None?;
  }

  lemma SecondDrops(env: Env)
    ensures IsRun([At(Some(X), [RowX({2})], {1, 2}), At(Some(Y), [RowSync.NewRow(Y, 2)], {1, 2})],
                  [OnNode(ChangeTemplate(2, Plain(Y).template))], env)
  {
    PlainIsNormal(Y);
    DroppedRow();
    PlainSync(Stage(Some(Y), [RowX({2})]), 2, Y, env);
    assert Stage(Some(X), [RowX({2})]).nodes[2 := Plain(Y)] == Stage(Some(Y), [RowX({2})]).nodes;
    assert {1, 2} + {2} == {1, 2};
    DirtyBitLimits.OneStep(
      At(Some(X), [RowX({2})], {1, 2}), OnNode(ChangeTemplate(2, Plain(Y).template)),
      At(Some(Y), [RowSync.NewRow(Y, 2)], {1, 2}), env);
  }

  const HIDDEN_X := ConfigRow("X", X, false, false, {1})
  const HIDE := OnOutbounds(CreateOutbound("X", X, false, {1}))

  lemma HideFirst(env: Env)
    ensures IsRun([At(Some(Y), [RowSync.NewRow(Y, 2)], {1, 2}), At(Some(Y), [RowSync.NewRow(Y, 2), HIDDEN_X], {1, 2})],
                  [HIDE], env)
  {
    assert [RowSync.NewRow(Y, 2)][..0] == [];
    assert {1, 2} + {1} == {1, 2};
    DirtyBitLimits.OneStep(
      At(Some(Y), [RowSync.NewRow(Y, 2)], {1, 2}), HIDE, At(Some(Y), [RowSync.NewRow(Y, 2), HIDDEN_X], {1, 2}), env);
  }

  // ---- outbounds that are all shadowed ------------------------------------------------------

  // Two nodes with the outbound "X" in their templates; its row goes to the second, whose template then
  // drops it; and a disabled row "X" for the first node leaves that without outbounds. Nothing was
  // rejected on the way.
  lemma OutboundsGetShadowed(env: Env) returns (states: seq<Panel>, actions: seq<Action>)
    ensures IsRun(states, actions, env) && |actions| == 5 && states[0] == EMPTY
    ensures 1 in states[5].tables.nodes
    ensures
      var view := ViewFor(states[5].tables, 1);
      && Shadowed(view.node.template.outbounds, view.outbounds, {})
      && Generate(view, env.excludedTags) == Err(NoOutbounds)
  {
    FirstNode(env);
    SecondNode(env);
    MoveToSecond(env);
    SecondDrops(env);
    HideFirst(env);
    states, actions := DirtyBitLimits.FourSteps(
      EMPTY, OnNode(AddNode(1, Plain(X))), At(None, [RowX({1})], {}),
      OnNode(AddNode(2, Plain(X))), At(Some(X), [RowX({1, 2})], {}), MOVE, At(Some(X), [RowX({2})], {1, 2}),
      OnNode(ChangeTemplate(2, Plain(Y).template)), At(Some(Y), [RowSync.NewRow(Y, 2)], {1, 2}), env);
    var before, last := At(Some(Y), [RowSync.NewRow(Y, 2)], {1, 2}), At(Some(Y), [RowSync.NewRow(Y, 2), HIDDEN_X], {1, 2});
    DirtyBitLimits.RunsJoin(states, actions, [before, last], [HIDE], env);
    states, actions := states + [before, last][1..], actions + [HIDE];
    ShadowedEnd(env);
  }

  lemma ShadowedEnd(env: Env)
    ensures
      var view := ViewFor(Stage(Some(Y), [RowSync.NewRow(Y, 2), HIDDEN_X]), 1);
      && Shadowed(view.node.template.outbounds, view.outbounds, {})
      && Generate(view, env.excludedTags) == Err(NoOutbounds)
  {
    var rows := [RowSync.NewRow(Y, 2), HIDDEN_X];
    var view := ViewFor(Stage(Some(Y), rows), 1);
    assert rows == [rows[0]] + [rows[1]];
    DirtyBitLimits.OneRow(rows[0], 1);
    DirtyBitLimits.OneRow(rows[1], 1);
    NodeRowsConcat([rows[0]], [rows[1]], 1);
    OnlyHidden(view, env.excludedTags);
  }

  lemma OnlyHidden(view: NodeView, excluded: set<string>)
    requires view.node == Plain(X) && view.inbounds == [] && view.outbounds == [RowView("X", X, false)]
    ensures Shadowed(view.node.template.outbounds, view.outbounds, {})
    ensures Generate(view, excluded) == Err(NoOutbounds)
  {
    assert view.outbounds[0] in view.outbounds && IN in [IN];
    assert forall v :: v in view.outbounds ==> v == view.outbounds[0];
    MergedEmptyExactlyWhen([IN], view.inbounds, excluded);
    MergedEmptyExactlyWhen([X], view.outbounds, {});
  }

  // ---- an excluded entry that a row doubles -------------------------------------------------

  const TUN := Item("in", "tun", map[])
  const TUN_ROW := ConfigRow("in", TUN, true, false, {1})
  const DOUBLE := OnInbounds(CreateInbound("in", TUN, true, {1}, false))

  // An inbound row may be created under an excluded tag that the node's template uses.
  lemma ExcludedTagClashes(env: Env) returns (states: seq<Panel>, actions: seq<Action>)
    requires "in" in env.excludedTags
    ensures IsRun(states, actions, env) && |actions| == 2 && states[0] == EMPTY
    ensures 1 in states[2].tables.nodes
    ensures
      var view := ViewFor(states[2].tables, 1);
      && Clashes(view.node.template.inbounds, view.inbounds, env.excludedTags)
      && Generate(view, env.excludedTags) == Err(DuplicateInboundTag)
  {
    var add, p1 := OnNode(AddNode(1, Plain(X))), At(None, [RowX({1})], {});
    var p2 := p1.(tables := p1.tables.(inbounds := [TUN_ROW]), pending := {1});
    FirstNode(env);
    CreateExcluded(env);
    states, actions := DirtyBitLimits.TwoSteps(EMPTY, add, p1, DOUBLE, p2, env);
    ClashEnd(p2.tables, env);
  }

  lemma CreateExcluded(env: Env)
    ensures
      var p := At(None, [RowX({1})], {});
      IsRun([p, p.(tables := p.tables.(inbounds := [TUN_ROW]), pending := {1})], [DOUBLE], env)
  {
    var p := At(None, [RowX({1})], {});
    assert {} + {1} == {1};
    DirtyBitLimits.OneStep(p, DOUBLE, p.(tables := p.tables.(inbounds := [TUN_ROW]), pending := {1}), env);
  }

  lemma ClashEnd(t: Tables, env: Env)
    requires "in" in env.excludedTags && 1 in t.nodes && t.nodes[1] == Plain(X)
    requires t.inbounds == [TUN_ROW] && t.outbounds == [RowX({1})]
    ensures Clashes([IN], NodeRows(t.inbounds, 1), env.excludedTags)
    ensures Generate(ViewFor(t, 1), env.excludedTags) == Err(DuplicateInboundTag)
  {
    var ins, outs := NodeRows(t.inbounds, 1), NodeRows(t.outbounds, 1);
    DirtyBitLimits.OneRow(t.inbounds[0], 1);
    DirtyBitLimits.OneRow(t.outbounds[0], 1);
    assert ins[0] in ins && IN in [IN];
    DoubledEntry(ins, env.excludedTags);
    DoubledTag();
    MergedEmptyExactlyWhen([X], outs, {});
    assert outs[0] in outs;
  }

  lemma DoubledEntry(views: seq<RowView>, excluded: set<string>)
    requires views == [RowView("in", TUN, true)] && "in" in excluded
    ensures MergedItems([IN], views, excluded) == [IN, TUN]
  {
    assert views[..0] == [] && [IN][..0] == [];
    assert UnmanagedItems([IN], ManagedTags(views), excluded) == [IN];
    assert EnabledItems(views) == [TUN];
  }

  lemma DoubledTag()
    ensures CheckInboundTags([IN, TUN]) == Some(DuplicateInboundTag)
  {
    assert [IN, TUN][..1] == [IN];
    InboundCheckMeans([IN]);
    assert IN in [IN];
  }
}
