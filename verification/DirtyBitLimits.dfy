// Concrete runs that leave a node stale, one for each condition of the dirty-bit theorem.

module DirtyBitLimits {
  import opened Wrappers
  import opened NodeTables
  import opened NodeConfig
  import opened NodeConfigProperties
  import opened ConfigTemplate
  import opened RoutingRules
  import opened ControlPlane
  import opened DirtyBits
  import opened DirtyBitConditions
  import Registry
  import RowSync
  import RuleSync
  import RuleSyncProperties
  import RuleIsolation
  import Sorting

  const INBOUND := Item("in", "vless", map[])
  const DIRECT := Item("DIRECT", "freedom", map[])
  const EXTRA := Item("X", "freedom", map[])
  const TEMPLATE := Template([INBOUND], [DIRECT], [], NO_SECTIONS)
  const WIDER := Template([INBOUND], [DIRECT, EXTRA], [], NO_SECTIONS)

  // Node 1 with a plain template, and one editable outbound "X" that no node uses.
  const TABLES := Tables(
    map[1 := NodeRow(TEMPLATE, 62051, false, false)], [], [ConfigRow("X", EXTRA, true, false, {})], [], 0, [], [])

  // Node 1 has been started.
  function Demo(env: Env): Panel {
    var loaded := Loaded(Panel(TABLES, {}, map[], map[]), 0, 1, true, env);
    Finished(Delivered(loaded, 0), 0)
  }

  // Without assigned rows the config is the template plus the API entries.
  lemma PlainConfig(view: NodeView, env: Env)
    requires view.inbounds == [] && view.outbounds == [] && view.rules == []
    requires Normalized(view.node.template) && view.node.template.inbounds != []
    ensures Generate(view, env.excludedTags).Ok?
    ensures MergedInbounds(view, env.excludedTags) == view.node.template.inbounds
    ensures Generate(view, env.excludedTags).value.outbounds == view.node.template.outbounds
  {
    var template := view.node.template;
    InboundCheckMeans(template.inbounds);
    OutboundCheckMeans(template.outbounds);
    NothingManaged(template.inbounds, env.excludedTags);
    NothingManaged(template.outbounds, {});
  }

  lemma {:induction false} NothingManaged(items: seq<Item>, excluded: set<string>)
    ensures MergedItems(items, [], excluded) == items
  {
    if items != [] {
      NothingManaged(items[..|items| - 1], excluded);
    }
  }

  lemma DemoIsSound(env: Env)
    ensures Sound(Demo(env).tables) && DirtyBitsSound(Demo(env), env)
    ensures Demo(env).tables == TABLES && Demo(env).pending == {} && Demo(env).running.Keys == {1}
    ensures Demo(env).tasks == map[]
  {
    PlainConfig(ViewFor(TABLES, 1), env);
  }

  // A template that the sync rejects is stored all the same, and nobody is marked.
  lemma RejectedTemplateGoesUnnoticed(env: Env)
    ensures !DirtyBitsSound(Apply(Demo(env), OnNode(ChangeTemplate(1, WIDER)), env), env)
  {
    DemoIsSound(env);
    WiderGoesUnnoticed(Demo(env), env);
  }

  lemma WiderGoesUnnoticed(p: Panel, env: Env)
    requires p.tables == TABLES && p.pending == {} && p.running.Keys == {1}
    requires Sound(p.tables) && DirtyBitsSound(p, env)
    ensures !DirtyBitsSound(ApplyNode(p, ChangeTemplate(1, WIDER), env), env)
  {
    WiderIsRejected(env);
    WiderDiffers(env);
    RejectedTemplateSoundExactlyWhen(p, 1, WIDER, env);
  }

  lemma WiderDiffers(env: Env)
    ensures !SameTemplateParts(ViewFor(TABLES, 1), WIDER, env.excludedTags)
  {
    assert TABLES.outbounds[..0] == [];
    assert NodeRows(TABLES.outbounds, 1) == [];
    NothingManaged([DIRECT], {});
    NothingManaged([DIRECT, EXTRA], {});
  }

  lemma WiderIsRejected(env: Env)
    ensures NormalizedTemplate(WIDER) == Ok(WIDER) && !Accepts(TABLES, 1, WIDER, env)
  {
    NormalizationMeans(WIDER);
    assert WIDER.outbounds[..1] == [DIRECT] && [DIRECT][..0] == [];
    assert RowSync.TaggedOutbounds([DIRECT]) == [DIRECT];
    assert RowSync.TaggedOutbounds(WIDER.outbounds) == WIDER.outbounds;
    RowSync.DictionaryOfDistinct(WIDER.outbounds);
    assert RowSync.TemplateOutboundContents(WIDER)[1] == EXTRA;
    assert RowSync.RowConflict(TABLES.outbounds, 1, EXTRA).Some?;
  }

  // A config loaded before an edit, delivered and finished after it: the edit's mark is cleared unserved.
  lemma EditBetweenLoadAndClear(env: Env) returns (states: seq<Panel>, actions: seq<Action>)
    ensures actions == [OnNode(Load(0, 1, true)), EDIT, OnNode(Deliver(0)), OnNode(Finish(0))]
    ensures IsRun(states, actions, env) && states[0] == Demo(env)
    ensures DirtyBitsSound(states[3], env) && 1 in states[3].pending && !DirtyBitsSound(states[4], env)
  {
    var loaded, edited := Loaded(Demo(env), 0, 1, true, env), EditedDemo(env);
    var delivered := Delivered(edited, 0);
    EditDemo(env);
    NodeSteps(Demo(env), 1, edited, env);
    LateAfterEdit(env);
    states, actions := FourSteps(
      Demo(env), OnNode(Load(0, 1, true)), loaded, EDIT, edited, OnNode(Deliver(0)), delivered,
      OnNode(Finish(0)), Finished(delivered, 0), env);
  }

  lemma NodeSteps(p: Panel, node: NodeId, q: Panel, env: Env)
    ensures IsRun([p, Loaded(p, 0, node, true, env)], [OnNode(Load(0, node, true))], env)
    ensures IsRun([q, Delivered(q, 0)], [OnNode(Deliver(0))], env)
    ensures IsRun([Delivered(q, 0), Finished(Delivered(q, 0), 0)], [OnNode(Finish(0))], env)
  {
    OneStep(p, OnNode(Load(0, node, true)), Loaded(p, 0, node, true, env), env);
    OneStep(q, OnNode(Deliver(0)), Delivered(q, 0), env);
    OneStep(Delivered(q, 0), OnNode(Finish(0)), Finished(Delivered(q, 0), 0), env);
  }

  lemma OneStep(p: Panel, a: Action, q: Panel, env: Env)
    requires q == Apply(p, a, env)
    ensures IsRun([p, q], [a], env)
  {
    assert forall i :: 0 <= i < |[a]| ==> Step([p, q], [a], i, env);
  }

  // A run that starts where another one ends goes on with it.
  lemma RunsJoin(states: seq<Panel>, actions: seq<Action>, states': seq<Panel>, actions': seq<Action>, env: Env)
    requires IsRun(states, actions, env) && IsRun(states', actions', env) && states'[0] == states[|actions|]
    ensures IsRun(states + states'[1..], actions + actions', env)
  {
    var all, done := states + states'[1..], actions + actions';
    forall i | 0 <= i < |done| ensures Step(all, done, i, env) {
      if i < |actions| {
        assert Step(states, actions, i, env);
      } else {
        assert Step(states', actions', i - |actions|, env);
      }
    }
  }

  // Four steps make a run.
  lemma FourSteps(p0: Panel, a0: Action, p1: Panel, a1: Action, p2: Panel, a2: Action, p3: Panel, a3: Action,
                  p4: Panel, env: Env) returns (states: seq<Panel>, actions: seq<Action>)
    requires IsRun([p0, p1], [a0], env) && IsRun([p1, p2], [a1], env)
    requires IsRun([p2, p3], [a2], env) && IsRun([p3, p4], [a3], env)
    ensures states == [p0, p1, p2, p3, p4] && actions == [a0, a1, a2, a3] && IsRun(states, actions, env)
  {
    states, actions := TwoSteps(p0, a0, p1, a1, p2, env);
    var states', actions' := TwoSteps(p2, a2, p3, a3, p4, env);
    RunsJoin(states, actions, states', actions', env);
    states, actions := states + states'[1..], actions + actions';
  }

  lemma TwoSteps(p0: Panel, a0: Action, p1: Panel, a1: Action, p2: Panel, env: Env)
    returns (states: seq<Panel>, actions: seq<Action>)
    requires IsRun([p0, p1], [a0], env) && IsRun([p1, p2], [a1], env)
    ensures states == [p0, p1, p2] && actions == [a0, a1] && IsRun(states, actions, env)
  {
    RunsJoin([p0, p1], [a0], [p1, p2], [a1], env);
    assert [p0, p1] + [p1, p2][1..] == [p0, p1, p2] && [a0] + [a1] == [a0, a1];
    states, actions := [p0, p1, p2], [a0, a1];
  }

  lemma LateAfterEdit(env: Env)
    ensures
      var delivered := Delivered(EditedDemo(env), 0);
      && DirtyBitsSound(delivered, env) && 1 in delivered.pending
      && !DirtyBitsSound(Finished(delivered, 0), env)
  {
    DemoIsSound(env);
    PlainConfig(ViewFor(TABLES, 1), env);
    LateAfter(EditedDemo(env), env);
  }

  // With a config loaded before the edit.
  lemma LateAfter(p: Panel, env: Env)
    requires p.tables == TABLES.(outbounds := [EDITED_ROW]) && p.pending == {1} && p.running.Keys == {1}
    requires 0 in p.tasks && p.tasks[0].node == 1 && !p.tasks[0].delivered
    requires Generate(ViewFor(TABLES, 1), env.excludedTags) == Ok(p.tasks[0].config)
    ensures
      var delivered := Delivered(p, 0);
      && DirtyBitsSound(delivered, env) && 1 in delivered.pending
      && !DirtyBitsSound(Finished(delivered, 0), env)
  {
    LateDeliverySoundExactlyWhen(p, 0, ViewFor(TABLES, 1), env);
    LateClear(Delivered(p, 0), env);
  }

  lemma LateClear(p: Panel, env: Env)
    requires p.tables == TABLES.(outbounds := [EDITED_ROW]) && p.pending == {1} && DirtyBitsSound(p, env)
    requires 0 in p.tasks && p.tasks[0].node == 1 && p.tasks[0].delivered
    requires Generate(ViewFor(TABLES, 1), env.excludedTags) == Ok(p.tasks[0].config)
    requires 1 in p.running && p.running[1] == p.tasks[0].config
    ensures !DirtyBitsSound(Finished(p, 0), env)
  {
    EditedDiffers(p.tables, env);
    LateApplySoundExactlyWhen(p, 0, ViewFor(TABLES, 1), env);
  }

  const EDIT := OnOutbounds(ModifyOutbound("X", RowEdit(None, None, Some({1}))))

  const EDITED_ROW := TABLES.outbounds[0].(nodes := {1})

  // The demo with a loaded config and after the edit.
  function EditedDemo(env: Env): Panel {
    Loaded(Demo(env), 0, 1, true, env).(tables := TABLES.(outbounds := [EDITED_ROW]), pending := {1})
  }

  lemma EditDemo(env: Env)
    ensures IsRun([Loaded(Demo(env), 0, 1, true, env), EditedDemo(env)], [EDIT], env)
  {
    DemoIsSound(env);
    PlainConfig(ViewFor(TABLES, 1), env);
    assert TABLES.outbounds[..0] == [];
    assert TABLES.outbounds[0 := EDITED_ROW] == [EDITED_ROW];
    OneStep(Loaded(Demo(env), 0, 1, true, env), EDIT, EditedDemo(env), env);
  }

  lemma EditedDiffers(t: Tables, env: Env)
    requires t == TABLES.(outbounds := [EDITED_ROW])
    ensures !SameParts(ViewFor(TABLES, 1), ViewFor(t, 1), env.excludedTags)
  {
    var before, after := NodeRows(TABLES.outbounds, 1), NodeRows([EDITED_ROW], 1);
    OneRow(TABLES.outbounds[0], 1);
    OneRow(EDITED_ROW, 1);
    assert before == [] && after == [RowView("X", EXTRA, true)];
    EnabledMembers(after, EXTRA);
    NothingManaged([DIRECT], {});
    assert EXTRA in MergedItems([DIRECT], after, {}) && EXTRA !in MergedItems([DIRECT], before, {});
  }

  // Rule "a" is read-only and shared by nodes 1 and 2; "b" is node 2's own. Putting two rules in
  // front of "a" in node 1's template moves it behind "b" on node 2.
  function PlainRule(tag: string): Rule { Rule(tag, "field", "DIRECT", "", "") }

  const SHARED := RuleSync.RuleTable([
    RuleRow(0, "a", PlainRule("a"), true, true, 0, {1, 2}),
    RuleRow(1, "b", PlainRule("b"), true, false, 1, {2})], 2)

  const LONGER := [PlainRule("c"), PlainRule("d"), PlainRule("a")]

  lemma SharedLookup()
    ensures RuleSync.RulesByName(SHARED.rules, 1) == map["a" := 0]
    ensures RuleIsolation.AssignedRules(SHARED.rules, 2) == SHARED.rules
  {
    var a := SHARED.rules[0];
    assert SHARED.rules[..1] == [a] && [a][..0] == [];
    assert RuleSync.ReadonlyRules([a], 1) == [a];
    assert RuleSync.ReadonlyRules(SHARED.rules, 1) == [a];
    assert Sorting.SortBy([a], RuleSync.RulePosition) == [a];
    assert RuleSync.NameMap([a]) == map["a" := 0];
    assert RuleIsolation.AssignedRules([a], 2) == [a];
  }

  lemma SharedPlan()
    ensures DistinctNames(LONGER) && SoundRules(SHARED.rules, SHARED.nextId)
    ensures
      var planned := RuleIsolation.Planned(1, map["a" := 0], LONGER);
      planned(SHARED.rules[0]) == 2 && planned(SHARED.rules[1]) == 1
  {
    assert LONGER[0].ruleTag == "c" && LONGER[1].ruleTag == "d" && LONGER[2].ruleTag == "a";
    RuleSyncProperties.NameIndexUnique(LONGER, 2);
  }

  lemma SharedRuleMoves()
    ensures RuleIsolation.RuleOrder(RuleSync.SyncedRules(SHARED, 1, LONGER).rules, 2)
         != RuleIsolation.RuleOrder(SHARED.rules, 2)
  {
    SharedLookup();
    SharedPlan();
    var rows := SHARED.rules;
    assert RuleSync.RulePosition(rows[0]) == 0 && RuleSync.RulePosition(rows[1]) == 1;
    assert !RuleIsolation.KeepsOrder(SHARED.rules, 1, LONGER, 2);
    RuleIsolation.OrderKeptExactlyWhen(SHARED, 1, LONGER, 2);
  }

  // ---- accounts filled in too late ----------------------------------------------------------

  const OTHER := Item("other", "vless", map[])

  // Node 1's template has an inbound "in", node 2's has not.
  const TWO := Tables(
    map[1 := NodeRow(TEMPLATE, 62051, false, false),
        2 := NodeRow(Template([OTHER], [DIRECT], [], NO_SECTIONS), 62051, false, false)], [], [], [], 0, [], [])

  const CREATE := OnInbounds(CreateInbound("in", INBOUND, true, {2}, true))

  const NEW_ROW := ConfigRow("in", INBOUND, true, false, {2})

  // "in" is left to templates. Node 2 is started, and then given an inbound row "in": the row is stored,
  // filling in accounts fails, and the node is stale and unmarked.
  lemma FillingFailsAfterCommit(env: Env) returns (states: seq<Panel>, actions: seq<Action>)
    requires "in" in env.excludedTags
    ensures actions == [OnNode(Load(0, 2, true)), OnNode(Deliver(0)), OnNode(Finish(0)), CREATE]
    ensures IsRun(states, actions, env) && states[0] == Panel(TWO, {}, map[], map[])
    ensures DirtyBitsSound(states[3], env) && states[4].tables.inbounds == [NEW_ROW]
    ensures 2 in states[4].running && 2 !in states[4].pending && !DirtyBitsSound(states[4], env)
  {
    var start := Panel(TWO, {}, map[], map[]);
    var loaded := Loaded(start, 0, 2, true, env);
    TwoStarted(env);
    NodeSteps(start, 2, loaded, env);
    var delivered := Delivered(loaded, 0);
    var started := Finished(delivered, 0);
    var created := CreateFails(started, env);
    states, actions := FourSteps(
      start, OnNode(Load(0, 2, true)), loaded, OnNode(Deliver(0)), delivered, OnNode(Finish(0)), started,
      CREATE, created, env);
  }

  lemma TwoStarted(env: Env)
    ensures
      var started := Finished(Delivered(Loaded(Panel(TWO, {}, map[], map[]), 0, 2, true, env), 0), 0);
      && Sound(started.tables) && DirtyBitsSound(started, env)
      && started.tables == TWO && started.pending == {} && started.running.Keys == {2}
  {
    PlainConfig(ViewFor(TWO, 2), env);
  }

  lemma CreateFails(p: Panel, env: Env) returns (p': Panel)
    requires "in" in env.excludedTags && p.tables == TWO && p.pending == {} && p.running.Keys == {2}
    requires DirtyBitsSound(p, env)
    ensures IsRun([p, p'], [CREATE], env)
    ensures p'.tables == TWO.(inbounds := [NEW_ROW]) && p'.pending == {} && p'.running == p.running
    ensures !DirtyBitsSound(p', env)
  {
    p' := Apply(p, CREATE, env);
    OneStep(p, CREATE, p', env);
    var op := CREATE.inboundOp;
    var t' := TWO.(inbounds := [NEW_ROW]);
    RegistryBroken(env);
    CreateStores(env);
    NewRowSeen(env);
    FillingSoundExactlyWhen(p, op, env);
  }

  lemma CreateStores(env: Env)
    requires "in" in env.excludedTags
    ensures InboundResult(TWO, CREATE.inboundOp, env) == Some(TWO.(inbounds := [NEW_ROW]))
    ensures FillingFails(TWO, CREATE.inboundOp, env)
  {
    RegistryBroken(env);
    assert [] + [CreatedRow("in", INBOUND, true, {2})] == [NEW_ROW];
    assert TWO.nodes.Keys == {1, 2};
  }

  lemma RegistryBroken(env: Env)
    requires "in" in env.excludedTags
    ensures !Registry.RegistryBuilds(TWO.nodes, [NEW_ROW], env.excludedTags)
  {
    assert TEMPLATE in Registry.Templates(TWO.nodes) by {
      assert TWO.nodes[1].template == TEMPLATE;
    }
    assert INBOUND in TEMPLATE.inbounds && INBOUND.tag in Registry.SupportTags(Registry.Templates(TWO.nodes), env.excludedTags);
    assert NEW_ROW in [NEW_ROW];
  }

  lemma NewRowSeen(env: Env)
    ensures !SameParts(ViewFor(TWO, 2), ViewFor(TWO.(inbounds := [NEW_ROW]), 2), env.excludedTags)
  {
    var views := NodeRows([NEW_ROW], 2);
    OneRow(NEW_ROW, 2);
    assert views[..0] == [];
    assert EnabledItems(views) == [INBOUND];
    assert [OTHER][..0] == [];
    assert OTHER.tag !in ManagedTags(views) by {
      assert |OTHER.tag| != |"in"|;
    }
    assert UnmanagedItems([OTHER], ManagedTags(views), env.excludedTags) == [OTHER];
    NothingManaged([OTHER], env.excludedTags);
  }

  lemma OneRow(row: ConfigRow, node: NodeId)
    ensures NodeRows([row], node) == if node in row.nodes then [RowView(row.tag, row.content, row.enabled)] else []
  {
    assert [row][..0] == [];
  }
}
