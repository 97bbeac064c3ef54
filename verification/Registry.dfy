// Whether the registry of enabled inbounds can be built, and what the validation of new contents checks
// besides them (app/utils/xray_config_registry.py).

module Registry {
  import opened Wrappers
  import Json
  import opened NodeTables
  import opened Protocols
  import opened NodeConfig
  import opened NodeConfigProperties

  function Templates(nodes: map<NodeId, NodeRow>): set<Template> {
    set node | node in nodes :: nodes[node].template
  }

  // The entries that templates keep to themselves.
  function SupportTags(templates: set<Template>, excluded: set<string>): set<string> {
    set template, x | template in templates && x in template.inbounds && x.tag in excluded :: x.tag
  }

  // No enabled row uses a tag that some template keeps to itself.
  predicate RegistryBuilds(nodes: map<NodeId, NodeRow>, rows: seq<ConfigRow>, excluded: set<string>) {
    forall row :: row in rows && row.enabled ==> row.tag !in SupportTags(Templates(nodes), excluded)
  }

  // No row at all does, but for those that are being replaced.
  predicate RowsFit(nodes: map<NodeId, NodeRow>, rows: seq<ConfigRow>, replaced: set<string>, excluded: set<string>) {
    forall row :: row in rows && row.tag !in replaced ==> row.tag !in SupportTags(Templates(nodes), excluded)
  }

  // ---- _template_support_inbounds -----------------------------------------------------------

  ghost predicate IsSupport(support: seq<Item>, templates: set<Template>, excluded: set<string>) {
    && (forall i, j :: 0 <= i < j < |support| ==> support[i].tag != support[j].tag)
    && (set x | x in support :: x.tag) == SupportTags(templates, excluded)
    && (forall x :: x in support ==> exists template :: template in templates && x in template.inbounds)
  }

  // The first entry under each tag, by node id.
  method TemplateSupportInbounds(nodes: seq<NodeRow>, excluded: set<string>) returns (support: seq<Item>)
    ensures IsSupport(support, set node | node in nodes :: node.template, excluded)
  {
    support := [];
    for i := 0 to |nodes|
      invariant IsSupport(support, set node | node in nodes[..i] :: node.template, excluded)
    {
      support := AddSupport(support, set node | node in nodes[..i] :: node.template, nodes[i].template, excluded);
      assert (set node | node in nodes[..i + 1] :: node.template)
          == (set node | node in nodes[..i] :: node.template) + {nodes[i].template};
    }
    assert nodes[..|nodes|] == nodes;
  }

  method AddSupport(earlier: seq<Item>, ghost templates: set<Template>, template: Template, excluded: set<string>)
    returns (support: seq<Item>)
    requires IsSupport(earlier, templates, excluded)
    ensures IsSupport(support, templates + {template}, excluded)
  {
    support := earlier;
    ghost var tags := SupportTags(templates, excluded);
    for i := 0 to |template.inbounds|
      invariant forall k, j :: 0 <= k < j < |support| ==> support[k].tag != support[j].tag
      invariant (set x | x in support :: x.tag)
             == tags + (set x | x in template.inbounds[..i] && x.tag in excluded :: x.tag)
      invariant forall x :: x in support ==> x in earlier || x in template.inbounds
    {
      var x := template.inbounds[i];
      ghost var before := set y | y in support :: y.tag;
      assert template.inbounds[..i + 1] == template.inbounds[..i] + [x];
      if x.tag in excluded && !Taken(support, x.tag) {
        support := support + [x];
        assert (set y | y in support :: y.tag) == before + {x.tag};
      } else if x.tag in excluded {
        var y :| y in support && y.tag == x.tag;
        assert x.tag in before;
      }
    }
    assert template.inbounds[..|template.inbounds|] == template.inbounds;
    assert SupportTags(templates + {template}, excluded)
        == tags + (set x | x in template.inbounds && x.tag in excluded :: x.tag);
  }

  // ---- the two checks, exactly --------------------------------------------------------------

  function Contents(rows: seq<ConfigRow>, keep: ConfigRow -> bool): seq<Item> {
    if rows == [] then []
    else
      var row := rows[|rows| - 1];
      Contents(rows[..|rows| - 1], keep) + if keep(row) then [row.content.(tag := row.tag)] else []
  }

  lemma {:induction false} ContentTags(rows: seq<ConfigRow>, keep: ConfigRow -> bool, tag: string)
    ensures Taken(Contents(rows, keep), tag) <==> exists row :: row in rows && keep(row) && row.tag == tag
  {
    if rows != [] {
      var n := |rows| - 1;
      assert rows == rows[..n] + [rows[n]];
      ContentTags(rows[..n], keep, tag);
      var earlier, last := Contents(rows[..n], keep), if keep(rows[n]) then [rows[n].content.(tag := rows[n].tag)] else [];
      TakenEither(earlier, last, tag);
      assert Taken(last, tag) <==> keep(rows[n]) && rows[n].tag == tag by {
        assert keep(rows[n]) ==> last[0] in last;
      }
    }
  }

  lemma TakenEither(a: seq<Item>, b: seq<Item>, tag: string)
    ensures Taken(a + b, tag) <==> Taken(a, tag) || Taken(b, tag)
  {
    forall x ensures x in a + b <==> x in a || x in b {
    }
  }

  lemma {:induction false} ContentsDistinct(rows: seq<ConfigRow>, keep: ConfigRow -> bool)
    requires SoundRows(rows)
    ensures GoodOutbounds(Contents(rows, keep))
  {
    if rows != [] {
      var n := |rows| - 1;
      assert rows == rows[..n] + [rows[n]];
      ContentsDistinct(rows[..n], keep);
      ContentTags(rows[..n], keep, rows[n].tag);
    }
  }

  lemma ContentsComma(rows: seq<ConfigRow>, keep: ConfigRow -> bool, x: Item)
    requires CommaFree(rows) && x in Contents(rows, keep)
    ensures ',' !in x.tag
  {
    ContentTags(rows, keep, x.tag);
  }

  // Lists that are good on their own are good together exactly when they share no tag.
  lemma JoinedGood(a: seq<Item>, b: seq<Item>)
    requires GoodInbounds(a) && GoodInbounds(b)
    ensures GoodInbounds(a + b) <==> forall x :: x in a ==> !Taken(b, x.tag)
  {
    if x :| x in a && Taken(b, x.tag) {
      var y :| y in b && y.tag == x.tag;
      var i :| 0 <= i < |a| && a[i] == x;
      var j :| 0 <= j < |b| && b[j] == y;
      assert (a + b)[i] == x && (a + b)[|a| + j] == y;
    }
  }

  ghost predicate GoodTemplates(nodes: map<NodeId, NodeRow>) {
    forall node :: node in nodes ==> GoodInbounds(nodes[node].template.inbounds)
  }

  lemma SupportGood(support: seq<Item>, nodes: map<NodeId, NodeRow>, excluded: set<string>)
    requires IsSupport(support, Templates(nodes), excluded) && GoodTemplates(nodes)
    ensures GoodInbounds(support)
    ensures forall tag :: tag in SupportTags(Templates(nodes), excluded) <==> Taken(support, tag)
  {
    forall x | x in support ensures x.tag != "" && ',' !in x.tag {
      var template :| template in Templates(nodes) && x in template.inbounds;
    }
    forall tag ensures tag in SupportTags(Templates(nodes), excluded) <==> Taken(support, tag) {
      assert tag in SupportTags(Templates(nodes), excluded) <==> tag in set x | x in support :: x.tag;
    }
  }

  // What a list of rows brings to the check.
  lemma RowsJoinSupport(
      support: seq<Item>, nodes: map<NodeId, NodeRow>, rows: seq<ConfigRow>, keep: ConfigRow -> bool, excluded: set<string>)
    requires IsSupport(support, Templates(nodes), excluded) && GoodTemplates(nodes)
    requires SoundRows(rows) && CommaFree(rows)
    ensures GoodInbounds(support + Contents(rows, keep))
       <==> forall row :: row in rows && keep(row) ==> row.tag !in SupportTags(Templates(nodes), excluded)
  {
    var contents := Contents(rows, keep);
    SupportGood(support, nodes, excluded);
    ContentsDistinct(rows, keep);
    forall x | x in contents ensures ',' !in x.tag {
      ContentsComma(rows, keep, x);
    }
    JoinedGood(support, contents);
    forall tag ensures Taken(contents, tag) <==> exists row :: row in rows && keep(row) && row.tag == tag {
      ContentTags(rows, keep, tag);
    }
  }

  const DUMMY_OUTBOUND := Item("__MARZBAN_DUMMY_OUTBOUND__", "freedom", map[])

  function OrDummy(outbounds: seq<Item>): seq<Item> {
    if outbounds == [] then [DUMMY_OUTBOUND] else outbounds
  }

  lemma OrDummyGood(outbounds: seq<ConfigRow>, keep: ConfigRow -> bool)
    requires SoundRows(outbounds)
    ensures OrDummy(Contents(outbounds, keep)) != [] && GoodOutbounds(OrDummy(Contents(outbounds, keep)))
  {
    ContentsDistinct(outbounds, keep);
  }

  predicate Enabled(row: ConfigRow) { row.enabled }

  predicate Any(row: ConfigRow) { true }

  function Outside(tags: set<string>): ConfigRow -> bool {
    (row: ConfigRow) => row.tag !in tags
  }

  // The config that get_enabled_inbound_registry builds passes its checks exactly when the registry is
  // said to build. Without an enabled row no config is built.
  lemma RegistryBuildsExactlyWhen(
      support: seq<Item>, nodes: map<NodeId, NodeRow>, rows: seq<ConfigRow>, outbounds: seq<ConfigRow>, excluded: set<string>)
    requires IsSupport(support, Templates(nodes), excluded) && GoodTemplates(nodes)
    requires SoundRows(rows) && CommaFree(rows) && SoundRows(outbounds)
    ensures RegistryBuilds(nodes, rows, excluded)
       <==> || Contents(rows, Enabled) == []
            || Validate(support + Contents(rows, Enabled), OrDummy(Contents(outbounds, Enabled)), false).None?
  {
    RowsJoinSupport(support, nodes, rows, Enabled, excluded);
    InboundCheckMeans(support + Contents(rows, Enabled));
    OrDummyGood(outbounds, Enabled);
    OutboundCheckMeans(OrDummy(Contents(outbounds, Enabled)));
    if Contents(rows, Enabled) == [] {
      forall row | row in rows && row.enabled ensures false {
        ContentTags(rows, Enabled, row.tag);
      }
    }
  }

  predicate Supported(x: Item, excluded: set<string>) {
    x.protocol in INBOUND_PROTOCOLS && x.tag !in excluded
  }

  // get_enabled_inbound_registry, `ids` being the nodes in order. The registry lists the supported
  // contents of the enabled rows.
  method GetEnabledInboundRegistry(
      nodes: map<NodeId, NodeRow>, ids: seq<NodeId>, rows: seq<ConfigRow>, outbounds: seq<ConfigRow>, excluded: set<string>)
    returns (r: Result<seq<Item>, ConfigError>)
    requires (set id | id in ids) == nodes.Keys && GoodTemplates(nodes)
    requires SoundRows(rows) && CommaFree(rows) && SoundRows(outbounds)
    ensures r.Ok? <==> RegistryBuilds(nodes, rows, excluded)
    ensures r.Ok? ==> forall x :: x in r.value <==> x in Contents(rows, Enabled) && Supported(x, excluded)
  {
    var support := SupportOf(nodes, ids, excluded);
    RegistryBuildsExactlyWhen(support, nodes, rows, outbounds, excluded);
    var enabled := Contents(rows, Enabled);
    if enabled == [] {
      return Ok([]);
    }
    var problem := Validate(support + enabled, OrDummy(Contents(outbounds, Enabled)), false);
    if problem.Some? {
      return Err(problem.value);
    }
    var listed := ListSupported(support + enabled, excluded);
    SupportIsExcluded(support, Templates(nodes), excluded);
    r := Ok(listed);
  }

  method SupportOf(nodes: map<NodeId, NodeRow>, ids: seq<NodeId>, excluded: set<string>) returns (support: seq<Item>)
    requires (set id | id in ids) == nodes.Keys
    ensures IsSupport(support, Templates(nodes), excluded)
  {
    assert forall id :: id in ids ==> id in (set k | k in ids);
    var nodeRows := seq(|ids|, i requires 0 <= i < |ids| => nodes[ids[i]]);
    support := TemplateSupportInbounds(nodeRows, excluded);
    SameTemplates(nodes, ids, nodeRows);
  }

  lemma SupportIsExcluded(support: seq<Item>, templates: set<Template>, excluded: set<string>)
    requires IsSupport(support, templates, excluded)
    ensures forall x :: x in support ==> !Supported(x, excluded)
  {
    forall x | x in support ensures x.tag in excluded {
      var tags := set y | y in support :: y.tag;
      assert x.tag in tags && tags == SupportTags(templates, excluded);
    }
  }

  method ListSupported(items: seq<Item>, excluded: set<string>) returns (listed: seq<Item>)
    ensures forall x :: x in listed <==> x in items && Supported(x, excluded)
  {
    listed := [];
    for i := 0 to |items|
      invariant forall x :: x in listed <==> x in items[..i] && Supported(x, excluded)
    {
      assert items[..i + 1] == items[..i] + [items[i]];
      if Supported(items[i], excluded) {
        listed := listed + [items[i]];
      }
    }
    assert items[..|items|] == items;
  }

  lemma SameTemplates(nodes: map<NodeId, NodeRow>, ids: seq<NodeId>, nodeRows: seq<NodeRow>)
    requires (set id | id in ids) == nodes.Keys && |nodeRows| == |ids|
    requires forall i :: 0 <= i < |ids| ==> ids[i] in nodes && nodeRows[i] == nodes[ids[i]]
    ensures (set row | row in nodeRows :: row.template) == Templates(nodes)
  {
    forall node | node in nodes ensures exists i :: 0 <= i < |ids| && ids[i] == node {
      assert node in (set id | id in ids);
    }
    forall i | 0 <= i < |ids| ensures nodeRows[i] in nodeRows && ids[i] in ids {
    }
  }

  // The check of new content passes exactly when its tag is fit for use and no other stored row, enabled
  // or not, uses a tag that some template keeps to itself.
  lemma InboundFitsExactlyWhen(
      support: seq<Item>, nodes: map<NodeId, NodeRow>, rows: seq<ConfigRow>, outbounds: seq<ConfigRow>, x: Item,
      excluded: set<string>)
    requires IsSupport(support, Templates(nodes), excluded) && GoodTemplates(nodes)
    requires SoundRows(rows) && CommaFree(rows) && SoundRows(outbounds)
    ensures
      var replaced := {x.tag, API_TAG};
      var others := UnmanagedItems(support, replaced, {}) + Contents(rows, Outside(replaced));
      Validate(others + [x], OrDummy(Contents(outbounds, Any)), false).None?
      <==> x.tag != "" && ',' !in x.tag && RowsFit(nodes, rows, replaced, excluded)
  {
    var replaced := {x.tag, API_TAG};
    var keep := Outside(replaced);
    var kept, contents := UnmanagedItems(support, replaced, {}), Contents(rows, keep);
    OrDummyGood(outbounds, Any);
    OutboundCheckMeans(OrDummy(Contents(outbounds, Any)));
    InboundCheckMeans(kept + contents + [x]);
    OthersGood(support, nodes, rows, replaced, excluded);
    NotTaken(support, rows, x.tag, replaced);
    OneMore(kept + contents, x);
  }

  lemma OneMore(a: seq<Item>, x: Item)
    requires !Taken(a, x.tag)
    ensures GoodInbounds(a + [x]) <==> GoodInbounds(a) && x.tag != "" && ',' !in x.tag
  {
    assert (a + [x])[|a|] == x;
    forall y | y in a ensures y in a + [x] {
    }
    forall i | 0 <= i < |a| ensures (a + [x])[i] == a[i] && a[i] in a {
    }
  }

  lemma KeptTags(items: seq<Item>, replaced: set<string>, tag: string)
    ensures Taken(UnmanagedItems(items, replaced, {}), tag) <==> Taken(items, tag) && tag !in replaced
  {
    var kept := UnmanagedItems(items, replaced, {});
    forall x | x in items || x in kept ensures x in kept <==> x in items && x.tag !in replaced {
      UnmanagedMembers(items, replaced, {}, x);
    }
  }

  lemma NotTaken(support: seq<Item>, rows: seq<ConfigRow>, tag: string, replaced: set<string>)
    requires tag in replaced
    ensures !Taken(UnmanagedItems(support, replaced, {}) + Contents(rows, Outside(replaced)), tag)
  {
    var keep := Outside(replaced);
    KeptTags(support, replaced, tag);
    ContentTags(rows, keep, tag);
    TakenEither(UnmanagedItems(support, replaced, {}), Contents(rows, keep), tag);
  }

  lemma OthersGood(
      support: seq<Item>, nodes: map<NodeId, NodeRow>, rows: seq<ConfigRow>, replaced: set<string>, excluded: set<string>)
    requires IsSupport(support, Templates(nodes), excluded) && GoodTemplates(nodes)
    requires SoundRows(rows) && CommaFree(rows)
    ensures GoodInbounds(
              UnmanagedItems(support, replaced, {}) + Contents(rows, Outside(replaced)))
       <==> RowsFit(nodes, rows, replaced, excluded)
  {
    var keep := Outside(replaced);
    var kept, contents := UnmanagedItems(support, replaced, {}), Contents(rows, keep);
    SupportGood(support, nodes, excluded);
    UnmanagedDistinct(support, replaced, {});
    forall x | x in kept ensures ',' !in x.tag {
      UnmanagedMembers(support, replaced, {}, x);
    }
    ContentsDistinct(rows, keep);
    forall x | x in contents ensures ',' !in x.tag {
      ContentsComma(rows, keep, x);
    }
    JoinedGood(kept, contents);
    forall tag
      ensures Taken(kept, tag) <==> tag in SupportTags(Templates(nodes), excluded) && tag !in replaced
      ensures Taken(contents, tag) <==> tag !in replaced && exists row :: row in rows && row.tag == tag
    {
      KeptTags(support, replaced, tag);
      ContentTags(rows, keep, tag);
    }
    SharedTags(kept, contents, rows, SupportTags(Templates(nodes), excluded), replaced);
  }

  lemma SharedTags(a: seq<Item>, b: seq<Item>, rows: seq<ConfigRow>, tags: set<string>, replaced: set<string>)
    requires forall tag :: Taken(a, tag) <==> tag in tags && tag !in replaced
    requires forall tag :: Taken(b, tag) <==> tag !in replaced && exists row :: row in rows && row.tag == tag
    ensures (forall x :: x in a ==> !Taken(b, x.tag))
       <==> forall row :: row in rows && row.tag !in replaced ==> row.tag !in tags
  {
    if x :| x in a && Taken(b, x.tag) {
      assert Taken(a, x.tag);
      var row :| row in rows && row.tag == x.tag;
    }
    if row :| row in rows && row.tag !in replaced && row.tag in tags {
      assert Taken(a, row.tag) && Taken(b, row.tag);
      var x :| x in a && x.tag == row.tag;
    }
  }

  const DUMMY_INBOUND := Item("__MARZBAN_DUMMY_INBOUND__", "dokodemo-door", map[
    "listen" := Json.String("127.0.0.1"), "port" := Json.Number(1.0),
    "settings" := Json.Object(map["address" := Json.String("127.0.0.1")])])

  lemma OutboundFitsExactlyWhen(
      support: seq<Item>, nodes: map<NodeId, NodeRow>, rows: seq<ConfigRow>, outbounds: seq<ConfigRow>, x: Item,
      excluded: set<string>)
    requires IsSupport(support, Templates(nodes), excluded) && GoodTemplates(nodes)
    requires SoundRows(rows) && CommaFree(rows) && SoundRows(outbounds)
    ensures
      var inbounds := support + Contents(rows, Any);
      var others := Contents(outbounds, Outside({x.tag}));
      Validate(if inbounds == [] then [DUMMY_INBOUND] else inbounds, others + [x], false).None?
      <==> x.tag != "" && RowsFit(nodes, rows, {}, excluded)
  {
    var inbounds, others := support + Contents(rows, Any), Contents(outbounds, Outside({x.tag}));
    RowsJoinSupport(support, nodes, rows, Any, excluded);
    InboundCheckMeans(if inbounds == [] then [DUMMY_INBOUND] else inbounds);
    ContentsDistinct(outbounds, Outside({x.tag}));
    ContentTags(outbounds, Outside({x.tag}), x.tag);
    OneMoreOutbound(others, x);
    OutboundCheckMeans(others + [x]);
  }

  lemma OneMoreOutbound(a: seq<Item>, x: Item)
    requires GoodOutbounds(a) && !Taken(a, x.tag)
    ensures GoodOutbounds(a + [x]) <==> x.tag != ""
  {
    assert (a + [x])[|a|] == x;
  }
}
