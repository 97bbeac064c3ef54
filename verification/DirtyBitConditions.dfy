// Steps that leave a node unmarked although its config may have changed: for each, exactly when the
// dirty bits stay sound all the same.

module DirtyBitConditions {
  import opened Wrappers
  import opened NodeTables
  import opened NodeConfig
  import opened NodeConfigProperties
  import opened ConfigTemplate
  import opened ControlPlane
  import opened DirtyBits

  // The rules that a node of sound tables sees carry tags.
  lemma SoundViewsNamed(t: Tables, node: NodeId)
    requires Sound(t)
    ensures NamedViews(NodeRules(t.rules, node))
  {
    forall v | v in NodeRules(t.rules, node) ensures v.content.ruleTag != "" {
      NodeRulesMembers(t.rules, node, v);
    }
  }

  // ---- a disturbed start --------------------------------------------------------------------

  // Whatever came in between: clearing the mark after delivering a config that was loaded from the
  // view `loaded` is sound exactly when the view differs only in what the generator fills in or
  // overwrites, or the connection is gone.
  lemma LateApplySoundExactlyWhen(p: Panel, task: TaskId, loaded: NodeView, env: Env)
    requires Sound(p.tables) && NamedViews(loaded.rules)
    requires DirtyBitsSound(p, env) && task in p.tasks && p.tasks[task].delivered
    requires Generate(loaded, env.excludedTags) == Ok(p.tasks[task].config)
    requires p.tasks[task].node in p.running ==> p.running[p.tasks[task].node] == p.tasks[task].config
    ensures
      var node := p.tasks[task].node;
      DirtyBitsSound(Finished(p, task), env) <==>
        || node !in p.running
        || (node in p.tables.nodes && SameParts(loaded, ViewFor(p.tables, node), env.excludedTags))
  {
    var node, p' := p.tasks[task].node, Finished(p, task);
    if node in p.tables.nodes {
      SoundViewsNamed(p.tables, node);
      SameConfigExactlyWhen(loaded, ViewFor(p.tables, node), env.excludedTags);
    }
    if DirtyBitsSound(p', env) && node in p.running {
      assert UpToDate(p', node, env);
    }
    forall other | other != node && other in p'.running && other !in p'.pending ensures UpToDate(p', other, env) {
      assert UpToDate(p, other, env);
    }
  }

  // Delivering it is sound exactly when, besides that, the node may stay marked.
  lemma LateDeliverySoundExactlyWhen(p: Panel, task: TaskId, loaded: NodeView, env: Env)
    requires Sound(p.tables) && NamedViews(loaded.rules)
    requires DirtyBitsSound(p, env) && task in p.tasks
    requires Generate(loaded, env.excludedTags) == Ok(p.tasks[task].config)
    ensures
      var node := p.tasks[task].node;
      DirtyBitsSound(Delivered(p, task), env) <==>
        || node in p.pending
        || (node in p.tables.nodes && SameParts(loaded, ViewFor(p.tables, node), env.excludedTags))
  {
    var node, p' := p.tasks[task].node, Delivered(p, task);
    if node in p.tables.nodes {
      SoundViewsNamed(p.tables, node);
      SameConfigExactlyWhen(loaded, ViewFor(p.tables, node), env.excludedTags);
    }
    if DirtyBitsSound(p', env) && node !in p.pending {
      assert UpToDate(p', node, env);
    }
    forall other | other != node && other in p'.running && other !in p'.pending ensures UpToDate(p', other, env) {
      assert UpToDate(p, other, env);
    }
  }

  // ---- a rejected template ------------------------------------------------------------------

  // The node's config takes the same from both templates, but for what is filled in or overwritten.
  ghost predicate SameTemplateParts(view: NodeView, template: Template, excluded: set<string>) {
    var current, managed := view.node.template, ManagedTags(view.inbounds);
    && SameEntries(PreparedItems(UnmanagedItems(current.inbounds, managed, excluded), excluded),
                   PreparedItems(UnmanagedItems(template.inbounds, managed, excluded), excluded))
    && UnmanagedItems(template.outbounds, ManagedTags(view.outbounds), {})
       == UnmanagedItems(current.outbounds, ManagedTags(view.outbounds), {})
    && SameSections(current.sections, template.sections, HasApi(MergedInbounds(view, excluded)))
  }

  // A rejected template leaves its node unmarked: sound exactly when that node is stopped or already
  // marked, or the new template differs from the old one only in its rules, in entries that rows of the
  // node manage, and in what the generator fills in or overwrites.
  lemma RejectedTemplateSoundExactlyWhen(p: Panel, node: NodeId, template: Template, env: Env)
    requires Sound(p.tables) && DirtyBitsSound(p, env) && node in p.tables.nodes
    requires NormalizedTemplate(template).Ok? && !Accepts(p.tables, node, NormalizedTemplate(template).value, env)
    ensures
      DirtyBitsSound(ApplyNode(p, ChangeTemplate(node, template), env), env)
      <==> || node !in p.running || node in p.pending
           || SameTemplateParts(ViewFor(p.tables, node), template, env.excludedTags)
  {
    var normal := NormalizedTemplate(template).value;
    var t1 := p.tables.(nodes := p.tables.nodes[node := p.tables.nodes[node].(template := normal)]);
    NormalizationMeans(template);
    AcceptsExactly(t1, node, normal, env);
    assert ApplyNode(p, ChangeTemplate(node, template), env) == p.(tables := t1);
    NewNodeRow(p, node, t1, env);
    if node in p.running && node !in p.pending {
      assert UpToDate(p, node, env);
      SoundViewsNamed(p.tables, node);
      NewTemplateSameExactlyWhen(ViewFor(p.tables, node), ViewFor(t1, node), env.excludedTags);
    }
  }

  lemma NewTemplateSameExactlyWhen(v: NodeView, v': NodeView, excluded: set<string>)
    requires v' == v.(node := v.node.(template := v'.node.template))
    requires Generate(v, excluded).Ok? && NamedViews(v.rules)
    ensures Generate(v', excluded) == Generate(v, excluded) <==> SameTemplateParts(v, v'.node.template, excluded)
  {
    SameConfigExactlyWhen(v, v', excluded);
    SameStarts(UnmanagedItems(v.node.template.inbounds, ManagedTags(v.inbounds), excluded),
               UnmanagedItems(v'.node.template.inbounds, ManagedTags(v.inbounds), excluded),
               EnabledItems(v.inbounds), excluded);
    SameHeads(UnmanagedItems(v.node.template.outbounds, ManagedTags(v.outbounds), {}),
              UnmanagedItems(v'.node.template.outbounds, ManagedTags(v.outbounds), {}), EnabledItems(v.outbounds));
  }

  lemma SameStarts(a: seq<Item>, b: seq<Item>, tail: seq<Item>, excluded: set<string>)
    ensures SameEntries(PreparedItems(a + tail, excluded), PreparedItems(b + tail, excluded))
       <==> SameEntries(PreparedItems(a, excluded), PreparedItems(b, excluded))
  {
    var x, y := PreparedItems(a + tail, excluded), PreparedItems(b + tail, excluded);
    var x', y' := PreparedItems(a, excluded), PreparedItems(b, excluded);
    if |a| == |b| {
      assert forall i :: 0 <= i < |a| ==> x[i] == x'[i] && y[i] == y'[i];
      assert forall i :: |a| <= i < |x| ==> x[i] == y[i];
    }
  }

  lemma SameHeads(a: seq<Item>, b: seq<Item>, tail: seq<Item>)
    ensures a + tail == b + tail <==> a == b
  {
    if a + tail == b + tail {
      assert a == (a + tail)[..|a|] && b == (b + tail)[..|b|];
    }
  }

  // A silent change of one node's own row is sound exactly when it cannot be noticed.
  lemma NewNodeRow(p: Panel, node: NodeId, t1: Tables, env: Env)
    requires DirtyBitsSound(p, env) && node in p.tables.nodes
    requires node in t1.nodes && t1 == p.tables.(nodes := p.tables.nodes[node := t1.nodes[node]])
    ensures DirtyBitsSound(p.(tables := t1), env)
       <==> || node !in p.running || node in p.pending
            || Generate(ViewFor(t1, node), env.excludedTags) == Generate(ViewFor(p.tables, node), env.excludedTags)
  {
    var p' := p.(tables := t1);
    if node in p.running && node !in p.pending {
      assert UpToDate(p, node, env);
      assert DirtyBitsSound(p', env) ==> UpToDate(p', node, env);
    }
    forall other | other != node && other in p'.running && other !in p'.pending ensures UpToDate(p', other, env) {
      assert UpToDate(p, other, env);
      SameConfigGenerates(p.tables, t1, other, env);
    }
  }

  // ---- accounts filled in from a broken registry --------------------------------------------

  // An inbound row that is committed although filling in accounts fails marks nobody: sound exactly when
  // the registry could be built after all, or each node the row was or is assigned to is stopped, marked,
  // or sees nothing new but what the generator fills in or overwrites.
  lemma FillingSoundExactlyWhen(p: Panel, op: InboundOp, env: Env)
    requires Sound(p.tables) && DirtyBitsSound(p, env) && InboundResult(p.tables, op, env).Some?
    ensures
      var t' := InboundResult(p.tables, op, env).value;
      DirtyBitsSound(Apply(p, OnInbounds(op), env), env)
      <==> || !FillingFails(p.tables, op, env)
           || forall node :: node in InboundNodes(p.tables, op) && node in p.running && node !in p.pending ==>
                node in p.tables.nodes && SameParts(ViewFor(p.tables, node), ViewFor(t', node), env.excludedTags)
  {
    var t, t', p' := p.tables, InboundResult(p.tables, op, env).value, Apply(p, OnInbounds(op), env);
    if !FillingFails(t, op, env) {
      StepKeepsDirtyBits(p, OnInbounds(op), env);
    } else {
      InboundOpSound(t, op, env);
      assert p' == p.(tables := t') && t'.nodes == t.nodes;
      forall node | node in p.running && node !in p.pending
        ensures node in t.nodes
        ensures UpToDate(p', node, env)
           <==> node !in InboundNodes(t, op) || SameParts(ViewFor(t, node), ViewFor(t', node), env.excludedTags)
      {
        assert UpToDate(p, node, env);
        UnmarkedRow(p, op, node, env);
      }
    }
  }

  // What an unmarked node runs is what it would be given after the change, exactly when it sees the same.
  lemma UnmarkedRow(p: Panel, op: InboundOp, node: NodeId, env: Env)
    requires Sound(p.tables) && UpToDate(p, node, env) && InboundResult(p.tables, op, env).Some?
    ensures
      var t' := InboundResult(p.tables, op, env).value;
      && t'.nodes == p.tables.nodes
      && (UpToDate(p.(tables := t'), node, env)
          <==> || node !in InboundNodes(p.tables, op)
               || SameParts(ViewFor(p.tables, node), ViewFor(t', node), env.excludedTags))
  {
    var t, t' := p.tables, InboundResult(p.tables, op, env).value;
    InboundOpSound(t, op, env);
    SoundViewsNamed(t, node);
    SoundViewsNamed(t', node);
    SameConfigExactlyWhen(ViewFor(t, node), ViewFor(t', node), env.excludedTags);
    if node !in InboundNodes(t, op) {
      InboundOpFramed(t, op, env, node);
      SameConfigGenerates(t, t', node, env);
    }
  }
}
