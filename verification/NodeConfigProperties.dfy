// When a generated config passes the tag checks.

module NodeConfigProperties {
  import opened Seqs
  import opened Json
  import opened NodeTables
  import opened NodeConfig
  import opened Sorting

  ghost predicate GoodInbounds(items: seq<Item>) {
    && (forall x :: x in items ==> x.tag != "" && ',' !in x.tag)
    && (forall i, j :: 0 <= i < j < |items| ==> items[i].tag != items[j].tag)
  }

  ghost predicate GoodOutbounds(items: seq<Item>) {
    && (forall x :: x in items ==> x.tag != "")
    && (forall i, j :: 0 <= i < j < |items| ==> items[i].tag != items[j].tag)
  }

  lemma {:induction false} InboundCheckMeans(items: seq<Item>)
    ensures CheckInboundTags(items).None? <==> GoodInbounds(items)
  {
    if items != [] {
      var n := |items| - 1;
      InboundCheckMeans(items[..n]);
      assert items == items[..n] + [items[n]];
    }
  }

  lemma {:induction false} OutboundCheckMeans(items: seq<Item>)
    ensures CheckOutboundTags(items).None? <==> GoodOutbounds(items)
  {
    if items != [] {
      var n := |items| - 1;
      OutboundCheckMeans(items[..n]);
      assert items == items[..n] + [items[n]];
    }
  }

  // What a table's unique index and the handlers' validation leave of one node's rows.
  ghost predicate WellTagged(views: seq<RowView>) {
    && (forall v :: v in views ==> v.tag != "")
    && (forall i, j :: 0 <= i < j < |views| ==> views[i].tag != views[j].tag)
  }

  lemma {:induction false} UnmanagedMembers(items: seq<Item>, managed: set<string>, excluded: set<string>, x: Item)
    ensures x in UnmanagedItems(items, managed, excluded) <==> x in items && (x.tag !in managed || x.tag in excluded)
  {
    if items != [] {
      var n := |items| - 1;
      assert items == items[..n] + [items[n]];
      UnmanagedMembers(items[..n], managed, excluded, x);
    }
  }

  lemma {:induction false} UnmanagedDistinct(items: seq<Item>, managed: set<string>, excluded: set<string>)
    requires GoodOutbounds(items)
    ensures GoodOutbounds(UnmanagedItems(items, managed, excluded))
  {
    if items != [] {
      var n := |items| - 1;
      assert items == items[..n] + [items[n]];
      UnmanagedDistinct(items[..n], managed, excluded);
      forall x | x in UnmanagedItems(items[..n], managed, excluded) ensures x.tag != items[n].tag {
        UnmanagedMembers(items[..n], managed, excluded, x);
      }
    }
  }

  lemma {:induction false} EnabledMembers(views: seq<RowView>, x: Item)
    ensures x in EnabledItems(views) <==> exists v :: v in views && v.enabled && x == v.content.(tag := v.tag)
  {
    if views != [] {
      var n := |views| - 1;
      assert views == views[..n] + [views[n]];
      EnabledMembers(views[..n], x);
    }
  }

  lemma {:induction false} EnabledDistinct(views: seq<RowView>)
    requires WellTagged(views)
    ensures GoodOutbounds(EnabledItems(views))
  {
    if views != [] {
      var n := |views| - 1;
      assert views == views[..n] + [views[n]];
      EnabledDistinct(views[..n]);
      forall x | x in EnabledItems(views) ensures x.tag != "" {
        EnabledMembers(views, x);
      }
      forall x | x in EnabledItems(views[..n]) ensures x.tag != views[n].tag {
        EnabledMembers(views[..n], x);
      }
    }
  }

  // An enabled row whose tag the template keeps to itself: both entries would be generated.
  ghost predicate Clashes(items: seq<Item>, views: seq<RowView>, excluded: set<string>) {
    exists v, x :: v in views && v.enabled && v.tag in excluded && x in items && x.tag == v.tag
  }

  // The merged entries have distinct non-empty tags exactly when no enabled row of the node uses
  // an excluded tag that its template uses too.
  lemma MergedTagsDistinct(items: seq<Item>, views: seq<RowView>, excluded: set<string>)
    requires GoodOutbounds(items) && WellTagged(views)
    ensures GoodOutbounds(MergedItems(items, views, excluded)) <==> !Clashes(items, views, excluded)
  {
    var managed := ManagedTags(views);
    var kept, stored := UnmanagedItems(items, managed, excluded), EnabledItems(views);
    UnmanagedDistinct(items, managed, excluded);
    EnabledDistinct(views);
    if Clashes(items, views, excluded) {
      var v, x :| v in views && v.enabled && v.tag in excluded && x in items && x.tag == v.tag;
      var y := v.content.(tag := v.tag);
      EnabledMembers(views, y);
      UnmanagedMembers(items, managed, excluded, x);
      var i :| 0 <= i < |kept| && kept[i] == x;
      var j :| 0 <= j < |stored| && stored[j] == y;
      assert (kept + stored)[i] == x && (kept + stored)[|kept| + j] == y;
    } else {
      forall x, y | x in kept && y in stored ensures x.tag != y.tag {
        UnmanagedMembers(items, managed, excluded, x);
        EnabledMembers(views, y);
      }
    }
  }

  lemma MergedCommas(items: seq<Item>, views: seq<RowView>, excluded: set<string>, x: Item)
    requires x in MergedItems(items, views, excluded)
    requires forall y :: y in items ==> ',' !in y.tag
    requires forall v :: v in views ==> ',' !in v.tag
    ensures ',' !in x.tag
  {
    UnmanagedMembers(items, ManagedTags(views), excluded, x);
    EnabledMembers(views, x);
  }

  // No row of the node is enabled, and every entry of the template is hidden behind a disabled one.
  ghost predicate Shadowed(items: seq<Item>, views: seq<RowView>, excluded: set<string>) {
    && (forall v :: v in views ==> !v.enabled)
    && (forall x :: x in items ==> x.tag !in excluded && exists v :: v in views && v.tag == x.tag)
  }

  // Nothing is left of the entries exactly when disabled rows shadow all the template has.
  lemma MergedEmptyExactlyWhen(items: seq<Item>, views: seq<RowView>, excluded: set<string>)
    ensures MergedItems(items, views, excluded) == [] <==> Shadowed(items, views, excluded)
  {
    var managed := ManagedTags(views);
    var merged := MergedItems(items, views, excluded);
    if Shadowed(items, views, excluded) {
      forall x ensures x !in merged {
        UnmanagedMembers(items, managed, excluded, x);
        EnabledMembers(views, x);
      }
      HeadIsMember(merged);
    } else if v :| v in views && v.enabled {
      EnabledMembers(views, v.content.(tag := v.tag));
    } else {
      var x :| x in items && (x.tag in excluded || !exists v :: v in views && v.tag == x.tag);
      UnmanagedMembers(items, managed, excluded, x);
    }
  }

  // A node's config generates exactly when neither its inbounds nor its outbounds are all shadowed by
  // disabled rows, and no enabled inbound row doubles an excluded entry of the template.
  lemma GeneratesExactlyWhen(view: NodeView, excluded: set<string>)
    requires GoodInbounds(view.node.template.inbounds) && GoodOutbounds(view.node.template.outbounds)
    requires WellTagged(view.inbounds) && WellTagged(view.outbounds)
    requires forall v :: v in view.inbounds ==> ',' !in v.tag
    ensures Generate(view, excluded).Ok?
       <==> && !Shadowed(view.node.template.inbounds, view.inbounds, excluded)
            && !Clashes(view.node.template.inbounds, view.inbounds, excluded)
            && !Shadowed(view.node.template.outbounds, view.outbounds, {})
  {
    var template := view.node.template;
    var payload := MergedPayload(template, view, excluded);
    InboundCheckMeans(payload.inbounds);
    OutboundCheckMeans(payload.outbounds);
    MergedTagsDistinct(template.inbounds, view.inbounds, excluded);
    MergedTagsDistinct(template.outbounds, view.outbounds, {});
    MergedEmptyExactlyWhen(template.inbounds, view.inbounds, excluded);
    MergedEmptyExactlyWhen(template.outbounds, view.outbounds, {});
    forall x | x in payload.inbounds ensures ',' !in x.tag {
      MergedCommas(template.inbounds, view.inbounds, excluded, x);
    }
  }

  // ---- when two views give the same config --------------------------------------------------

  // An own API inbound but for its address and port.
  ghost predicate SameApiEntry(x: Item, y: Item) {
    && x.tag == API_TAG && y.tag == API_TAG && x.protocol == y.protocol
    && x.body - {"listen", "port", "settings"} == y.body - {"listen", "port", "settings"}
    && SubObject(x.body, "settings") - {"address"} == SubObject(y.body, "settings") - {"address"}
  }

  ghost predicate SameEntries(a: seq<Item>, b: seq<Item>) {
    |a| == |b| && forall i :: 0 <= i < |a| ==> a[i] == b[i] || SameApiEntry(a[i], b[i])
  }

  ghost predicate SameLog(a: Fields, b: Fields) {
    a - {"access", "error"} == b - {"access", "error"}
  }

  // One list of services is the other with some of the services that would be added to it anyway.
  ghost predicate SameServices(a: seq<Json>, b: seq<Json>) {
    || a <= b <= WithServices(a, API_SERVICES)
    || b <= a <= WithServices(b, API_SERVICES)
  }

  ghost predicate SameApiSection(a: Fields, b: Fields) {
    && ApiName(a) == ApiName(b) && SameServices(Services(a), Services(b))
    && a - {"tag", "services"} == b - {"tag", "services"}
  }

  // Without an API inbound, statistics and the policies that are forced make no difference.
  ghost predicate SameCounting(a: Sections, b: Sections, own: bool) {
    if own then a.stats == b.stats && a.policy == b.policy
    else AgreeOff(PolicyFields(a), PolicyFields(b), FORCED_POLICIES)
  }

  ghost predicate SameSections(a: Sections, b: Sections, own: bool) {
    && a.routing == b.routing && a.other == b.other
    && SameLog(a.log, b.log) && SameApiSection(a.api, b.api) && SameCounting(a, b, own)
  }

  function MergedInbounds(v: NodeView, excluded: set<string>): seq<Item> {
    MergedItems(v.node.template.inbounds, v.inbounds, excluded)
  }

  // What is left of the two views when all that is filled in or overwritten is set aside.
  ghost predicate SameParts(v: NodeView, v': NodeView, excluded: set<string>) {
    && v'.node.apiPort == v.node.apiPort
    && v'.node.accessLog == v.node.accessLog && v'.node.errorLog == v.node.errorLog
    && SameEntries(PreparedItems(MergedInbounds(v, excluded), excluded), PreparedItems(MergedInbounds(v', excluded), excluded))
    && MergedItems(v'.node.template.outbounds, v'.outbounds, {})
       == MergedItems(v.node.template.outbounds, v.outbounds, {})
    && MergedRules(v'.rules) == MergedRules(v.rules)
    && SameSections(v.node.template.sections, v'.node.template.sections, HasApi(MergedInbounds(v, excluded)))
  }

  lemma ReaddressedSameExactlyWhen(x: Item, y: Item, port: int)
    ensures Readdressed(x, port) == Readdressed(y, port) <==> x == y || SameApiEntry(x, y)
  {
    var x', y' := Readdressed(x, port), Readdressed(y, port);
    if x' == y' && x.tag == API_TAG {
      var a, b := SubObject(x.body, "settings"), SubObject(y.body, "settings");
      assert x'.body["settings"] == WithAddress(a) && y'.body["settings"] == WithAddress(b);
      assert x.body - {"listen", "port", "settings"} == x'.body - {"listen", "port", "settings"};
      assert y.body - {"listen", "port", "settings"} == y'.body - {"listen", "port", "settings"};
      WithoutKey(a, "address", String(API_HOST));
      WithoutKey(b, "address", String(API_HOST));
    }
    if SameApiEntry(x, y) {
      SameApiBodies(x, y, port);
    }
  }

  lemma WithoutKey(fields: Fields, key: string, value: Json)
    ensures fields[key := value] - {key} == fields - {key}
    ensures fields[key := value] == (fields - {key})[key := value]
  {
  }

  lemma SameApiBodies(x: Item, y: Item, port: int)
    requires SameApiEntry(x, y)
    ensures Readdressed(x, port).body == Readdressed(y, port).body
  {
    var a, b := Readdressed(x, port).body, Readdressed(y, port).body;
    WithoutKey(SubObject(x.body, "settings"), "address", String(API_HOST));
    WithoutKey(SubObject(y.body, "settings"), "address", String(API_HOST));
    forall k ensures (k in a <==> k in b) && (k in a ==> a[k] == b[k]) {
      if k !in {"listen", "port", "settings"} {
        assert k in a <==> k in x.body - {"listen", "port", "settings"};
        assert k in b <==> k in y.body - {"listen", "port", "settings"};
      }
    }
  }

  lemma LogSameExactlyWhen(a: Sections, b: Sections, m: NodeRow, n: NodeRow)
    ensures Logged(a, m).log == Logged(b, n).log
       <==> m.accessLog == n.accessLog && m.errorLog == n.errorLog && SameLog(a.log, b.log)
  {
    var x, y := Logged(a, m).log, Logged(b, n).log;
    assert x - {"access", "error"} == a.log - {"access", "error"};
    assert y - {"access", "error"} == b.log - {"access", "error"};
    assert ("access" in x <==> m.accessLog) && ("access" in y <==> n.accessLog);
    assert ("error" in x <==> m.errorLog) && ("error" in y <==> n.errorLog);
    if m.accessLog == n.accessLog && m.errorLog == n.errorLog && SameLog(a.log, b.log) {
      forall k ensures (k in x <==> k in y) && (k in x ==> x[k] == y[k]) {
        if k !in {"access", "error"} {
          assert k in x <==> k in x - {"access", "error"};
          assert k in y <==> k in y - {"access", "error"};
        }
      }
    }
  }

  // ---- the API section ----------------------------------------------------------------------

  lemma {:induction false} ServicesPrefix(services: seq<Json>, needed: seq<string>)
    ensures services <= WithServices(services, needed)
    ensures forall s :: s in needed ==> String(s) in WithServices(services, needed)
  {
    if needed != [] {
      var n := |needed| - 1;
      assert needed == needed[..n] + [needed[n]];
      ServicesPrefix(services, needed[..n]);
    }
  }

  // Adding to a list that already starts the completed one comes to the same.
  lemma {:induction false} ServicesBetween(a: seq<Json>, b: seq<Json>, needed: seq<string>)
    requires a <= b <= WithServices(a, needed)
    ensures WithServices(b, needed) == WithServices(a, needed)
  {
    if needed == [] {
      assert a == b;
    } else {
      var n := |needed| - 1;
      var earlier := WithServices(a, needed[..n]);
      ServicesPrefix(a, needed[..n]);
      if b <= earlier {
        ServicesBetween(a, b, needed[..n]);
      } else {
        assert b == WithServices(a, needed);
        ServicesPrefix(a, needed);
        NothingToAdd(b, needed);
      }
    }
  }

  lemma {:induction false} NothingToAdd(services: seq<Json>, needed: seq<string>)
    requires forall s :: s in needed ==> String(s) in services
    ensures WithServices(services, needed) == services
  {
    if needed != [] {
      var n := |needed| - 1;
      NothingToAdd(services, needed[..n]);
    }
  }

  lemma ServicesSameExactlyWhen(a: seq<Json>, b: seq<Json>)
    ensures WithServices(a, API_SERVICES) == WithServices(b, API_SERVICES) <==> SameServices(a, b)
  {
    ServicesPrefix(a, API_SERVICES);
    ServicesPrefix(b, API_SERVICES);
    if a <= b <= WithServices(a, API_SERVICES) {
      ServicesBetween(a, b, API_SERVICES);
    } else if b <= a <= WithServices(b, API_SERVICES) {
      ServicesBetween(b, a, API_SERVICES);
    }
  }

  lemma ApiSameExactlyWhen(a: Fields, b: Fields)
    ensures WithApiServices(a) == WithApiServices(b) <==> SameApiSection(a, b)
  {
    var x, y := WithApiServices(a), WithApiServices(b);
    ServicesSameExactlyWhen(Services(a), Services(b));
    assert x - {"tag", "services"} == a - {"tag", "services"};
    assert y - {"tag", "services"} == b - {"tag", "services"};
    assert x["tag"] == ApiName(a) && x["services"] == List(WithServices(Services(a), API_SERVICES));
    assert y["tag"] == ApiName(b) && y["services"] == List(WithServices(Services(b), API_SERVICES));
    if SameApiSection(a, b) {
      forall k ensures (k in x <==> k in y) && (k in x ==> x[k] == y[k]) {
        if k !in {"tag", "services"} {
          assert k in x <==> k in x - {"tag", "services"};
          assert k in y <==> k in y - {"tag", "services"};
        }
      }
    }
  }

  // ---- the whole config ---------------------------------------------------------------------

  // The rules of a node carry tags; the rule for the API inbound carries none.
  ghost predicate NamedViews(views: seq<RuleView>) {
    forall v :: v in views ==> v.content.ruleTag != ""
  }

  lemma {:induction false} EnabledRulesNamed(views: seq<RuleView>)
    requires NamedViews(views)
    ensures forall rule :: rule in EnabledRules(views) ==> rule.ruleTag != ""
  {
    if views != [] {
      var n := |views| - 1;
      EnabledRulesNamed(views[..n]);
      assert views[n] in views;
    }
  }

  lemma MergedRulesNamed(views: seq<RuleView>)
    requires NamedViews(views)
    ensures forall rule :: rule in MergedRules(views) ==> rule.ruleTag != ""
  {
    forall v | v in SortBy(views, ViewPosition) ensures v in views {
      SortMembers(views, ViewPosition, v);
    }
    EnabledRulesNamed(SortBy(views, ViewPosition));
  }

  ghost predicate SameTags(a: seq<Item>, b: seq<Item>) {
    |a| == |b| && forall i :: 0 <= i < |a| ==> a[i].tag == b[i].tag
  }

  predicate Taken(items: seq<Item>, tag: string) {
    exists x :: x in items && x.tag == tag
  }

  lemma TagTaken(a: seq<Item>, b: seq<Item>, tag: string)
    requires SameTags(a, b)
    ensures Taken(a, tag) == Taken(b, tag)
  {
    forall i | 0 <= i < |a| ensures a[i] in a && b[i] in b {
    }
  }

  // The checks read tags only.
  lemma {:induction false} CheckReadsTags(a: seq<Item>, b: seq<Item>)
    requires SameTags(a, b)
    ensures CheckInboundTags(a) == CheckInboundTags(b)
  {
    if a != [] {
      var n := |a| - 1;
      CheckReadsTags(a[..n], b[..n]);
      TagTaken(a[..n], b[..n], a[n].tag);
      assert Taken(a[..n], a[n].tag) == Taken(b[..n], b[n].tag);
    }
  }

  lemma PreparedTags(items: seq<Item>, excluded: set<string>)
    ensures SameTags(items, PreparedItems(items, excluded))
    ensures HasApi(PreparedItems(items, excluded)) <==> HasApi(items)
  {
    SameTagsSameApi(items, PreparedItems(items, excluded));
  }

  lemma SameTagsSameApi(a: seq<Item>, b: seq<Item>)
    requires SameTags(a, b)
    ensures HasApi(a) <==> HasApi(b)
  {
    TagTaken(a, b, API_TAG);
  }

  // A config that could be generated comes out the same again exactly when the two views differ only in
  // what the generator fills in or overwrites.
  lemma SameConfigExactlyWhen(v: NodeView, v': NodeView, excluded: set<string>)
    requires Generate(v, excluded).Ok? && NamedViews(v.rules) && NamedViews(v'.rules)
    ensures Generate(v', excluded) == Generate(v, excluded) <==> SameParts(v, v', excluded)
  {
    if SameParts(v, v', excluded) {
      SamePartsGenerate(v, v', excluded);
    }
    if Generate(v', excluded).Ok? {
      SameBareExactlyWhen(v, v', excluded);
    }
  }

  lemma SamePartsGenerate(v: NodeView, v': NodeView, excluded: set<string>)
    requires Generate(v, excluded).Ok? && SameParts(v, v', excluded)
    ensures Generate(v', excluded).Ok?
  {
    PreparedTags(MergedInbounds(v, excluded), excluded);
    PreparedTags(MergedInbounds(v', excluded), excluded);
    CheckReadsTags(MergedInbounds(v, excluded), MergedInbounds(v', excluded));
  }

  lemma SameBareExactlyWhen(v: NodeView, v': NodeView, excluded: set<string>)
    requires NamedViews(v.rules) && NamedViews(v'.rules)
    ensures WithApi(BareConfig(v', excluded), v'.node.apiPort) == WithApi(BareConfig(v, excluded), v.node.apiPort)
       <==> SameParts(v, v', excluded)
  {
    var a, b := BareConfig(v, excluded), BareConfig(v', excluded);
    PreparedTags(MergedInbounds(v, excluded), excluded);
    MergedRulesNamed(v.rules);
    MergedRulesNamed(v'.rules);
    if WithApi(b, v'.node.apiPort) == WithApi(a, v.node.apiPort) {
      SameHasApi(a, b, v.node.apiPort, v'.node.apiPort);
    }
    if SameEntries(a.inbounds, b.inbounds) {
      SameTagsSameApi(a.inbounds, b.inbounds);
    }
    if HasApi(a.inbounds) == HasApi(b.inbounds) {
      WithApiSameExactlyWhen(a, b, v.node.apiPort, v'.node.apiPort);
      LogSameExactlyWhen(v.node.template.sections, v'.node.template.sections, v.node, v'.node);
    }
  }

  ghost predicate NamedRules(rules: seq<Rule>) {
    forall rule :: rule in rules ==> rule.ruleTag != ""
  }

  // Only one of them starts with the unnamed API rule otherwise.
  lemma SameHasApi(a: Config, b: Config, m: int, n: int)
    requires NamedRules(a.rules) && NamedRules(b.rules) && WithApi(a, m) == WithApi(b, n)
    ensures HasApi(a.inbounds) == HasApi(b.inbounds)
  {
    assert !HasApi(a.inbounds) ==> WithApi(a, m).rules[0] == API_RULE;
    assert !HasApi(b.inbounds) ==> WithApi(b, n).rules[0] == API_RULE;
  }

  lemma WithApiSameExactlyWhen(a: Config, b: Config, m: int, n: int)
    requires HasApi(a.inbounds) == HasApi(b.inbounds)
    ensures WithApi(a, m) == WithApi(b, n) <==>
      && m == n && SameEntries(a.inbounds, b.inbounds) && a.outbounds == b.outbounds && a.rules == b.rules
      && a.sections.log == b.sections.log && a.sections.routing == b.sections.routing
      && a.sections.other == b.sections.other && SameApiSection(a.sections.api, b.sections.api)
      && SameCounting(a.sections, b.sections, HasApi(a.inbounds))
  {
    ApiSameExactlyWhen(a.sections.api, b.sections.api);
    if HasApi(a.inbounds) {
      OwnApiSame(a.inbounds, b.inbounds, m, n);
    } else {
      MergedSameExactlyWhen(PolicyFields(a.sections), PolicyFields(b.sections), FORCED_POLICIES);
      AddedApiSame(a, b, m, n);
    }
  }

  lemma OwnApiSame(a: seq<Item>, b: seq<Item>, m: int, n: int)
    requires HasApi(a) && HasApi(b)
    ensures ReaddressedItems(a, m) == ReaddressedItems(b, n) <==> m == n && SameEntries(a, b)
  {
    var x, y := ReaddressedItems(a, m), ReaddressedItems(b, n);
    if x == y {
      var item :| item in a && item.tag == API_TAG;
      var i :| 0 <= i < |a| && a[i] == item;
      assert x[i].body["port"] == Number(m as real) && y[i].body["port"] == Number(n as real);
    }
    if m == n && |a| == |b| {
      forall i | 0 <= i < |a| ensures x[i] == y[i] <==> a[i] == b[i] || SameApiEntry(a[i], b[i]) {
        ReaddressedSameExactlyWhen(a[i], b[i], m);
      }
    }
  }

  lemma AddedApiSame(a: Config, b: Config, m: int, n: int)
    requires !HasApi(a.inbounds) && !HasApi(b.inbounds)
    ensures [ApiInbound(m)] + a.inbounds == [ApiInbound(n)] + b.inbounds <==> m == n && SameEntries(a.inbounds, b.inbounds)
    ensures [API_RULE] + a.rules == [API_RULE] + b.rules <==> a.rules == b.rules
  {
    var x, y := [ApiInbound(m)] + a.inbounds, [ApiInbound(n)] + b.inbounds;
    if x == y {
      assert x[0].body["port"] == Number(m as real) && y[0].body["port"] == Number(n as real);
      assert x[1..] == a.inbounds && y[1..] == b.inbounds;
    }
    if SameEntries(a.inbounds, b.inbounds) {
      forall i | 0 <= i < |a.inbounds| ensures a.inbounds[i] == b.inbounds[i] {
        assert a.inbounds[i] in a.inbounds;
      }
    }
    if [API_RULE] + a.rules == [API_RULE] + b.rules {
      assert a.rules == ([API_RULE] + a.rules)[1..] && b.rules == ([API_RULE] + b.rules)[1..];
    }
  }
}
