// The configuration that endpoints and balancers are added to, for sing-box and Clash
// (app/subscription/share.py, app/subscription/singbox.py, app/subscription/clash.py).

module SubscriptionEndpoints {
  import opened Wrappers
  import opened EndpointNames
  import opened EndpointOrder

  datatype Client = SingBox | Clash | ClashMeta

  datatype Balancer = Balancer(name: string, hosts: set<int>)

  datatype Group = Group(name: string, tags: seq<string>)

  // Which endpoints a client's format can express.
  predicate Supported(client: Client, e: Endpoint) {
    match client
    case SingBox =>
      e.network !in {"kcp", "splithttp", "xhttp"} && (e.network == "quic" ==> e.headerType == "none")
    case Clash =>
      e.network !in {"kcp", "splithttp", "xhttp"} && e.protocol in {"vmess", "trojan", "shadowsocks"}
    case ClashMeta =>
      && e.network !in {"kcp", "splithttp", "xhttp"} && (e.network == "quic" ==> e.headerType == "none")
      && e.protocol in {"hysteria", "vmess", "vless", "trojan", "shadowsocks"}
  }

  // ---- the names endpoints get --------------------------------------------------------------

  function Names(client: Client, records: seq<Endpoint>): seq<string> {
    if records == [] then []
    else
      var earlier, e := Names(client, records[..|records| - 1]), records[|records| - 1];
      if Supported(client, e) then earlier + [UniqueName(earlier, e.remark)] else earlier
  }

  // The tag of the i-th endpoint.
  function TagOf(client: Client, records: seq<Endpoint>, i: nat): Option<string>
    requires i < |records|
  {
    if Supported(client, records[i]) then Some(UniqueName(Names(client, records[..i]), records[i].remark)) else None
  }

  // endpoint_tags: a host's entry is that of its last endpoint.
  function HostTags(client: Client, records: seq<Endpoint>): map<int, Option<string>> {
    if records == [] then map[]
    else HostTags(client, records[..|records| - 1])[records[|records| - 1].host := TagOf(client, records, |records| - 1)]
  }

  // The tags of a balancer: those of the records it selects, in their order.
  function BalancerTags(records: seq<Endpoint>, hostTags: map<int, Option<string>>, b: Balancer): seq<string> {
    if records == [] then []
    else
      var earlier, e := BalancerTags(records[..|records| - 1], hostTags, b), records[|records| - 1];
      if e.host in b.hosts && e.host in hostTags && hostTags[e.host].Some? && hostTags[e.host].value != ""
      then earlier + [hostTags[e.host].value] else earlier
  }

  function Groups(records: seq<Endpoint>, hostTags: map<int, Option<string>>, balancers: seq<Balancer>): seq<Group> {
    if balancers == [] then []
    else
      var earlier, b := Groups(records, hostTags, balancers[..|balancers| - 1]), balancers[|balancers| - 1];
      var tags := BalancerTags(records, hostTags, b);
      if tags == [] then earlier else earlier + [Group(b.name, tags)]
  }

  function Assigned(groups: seq<Group>): set<string> {
    set g, tag | g in groups && tag in g.tags :: tag
  }

  function Unassigned(tags: seq<string>, taken: set<string>): seq<string> {
    if tags == [] then []
    else if tags[|tags| - 1] in taken then Unassigned(tags[..|tags| - 1], taken)
    else Unassigned(tags[..|tags| - 1], taken) + [tags[|tags| - 1]]
  }

  // ---- the configuration that is built ------------------------------------------------------

  class Configuration {
    const client: Client
    var proxyRemarks: seq<string>
    var defaultRemarks: seq<string>
    var endpoints: seq<string>   // the tags of the endpoints written
    var groups: seq<Group>

    constructor (client: Client)
      ensures this.client == client
      ensures proxyRemarks == defaultRemarks == endpoints == [] && groups == []
    {
      this.client := client;
      proxyRemarks, defaultRemarks, endpoints, groups := [], [], [], [];
    }

    method Add(e: Endpoint) returns (tag: Option<string>)
      modifies this
      ensures tag == if Supported(client, e) then Some(UniqueName(old(proxyRemarks), e.remark)) else None
      ensures proxyRemarks == if tag.Some? then old(proxyRemarks) + [tag.value] else old(proxyRemarks)
      ensures defaultRemarks == if tag.Some? then old(defaultRemarks) + [tag.value] else old(defaultRemarks)
      ensures endpoints == if tag.Some? then old(endpoints) + [tag.value] else old(endpoints)
      ensures groups == old(groups)
    {
      if !Supported(client, e) {
        return None;
      }
      var remark, _ := RemarkValidation(proxyRemarks, e.remark);
      proxyRemarks := proxyRemarks + [remark];
      endpoints := endpoints + [remark];
      defaultRemarks := defaultRemarks + [remark];
      tag := Some(remark);
    }

    method AddBalancer(name: string, tags: seq<string>)
      modifies this`groups
      ensures groups == old(groups) + [Group(name, tags)]
    {
      groups := groups + [Group(name, tags)];
    }

    method AddEndpoints(records: seq<Endpoint>) returns (hostTags: map<int, Option<string>>)
      requires proxyRemarks == defaultRemarks == endpoints == [] && groups == []
      modifies this
      ensures proxyRemarks == defaultRemarks == endpoints == Names(client, records) && groups == []
      ensures hostTags == HostTags(client, records)
    {
      hostTags := map[];
      for i := 0 to |records|
        invariant proxyRemarks == defaultRemarks == endpoints == Names(client, records[..i]) && groups == []
        invariant hostTags == HostTags(client, records[..i])
      {
        assert records[..i + 1][..i] == records[..i];
        var tag := Add(records[i]);
        hostTags := hostTags[records[i].host := tag];
      }
      assert records[..|records|] == records;
    }

    method SelectTags(records: seq<Endpoint>, hostTags: map<int, Option<string>>, b: Balancer) returns (tags: seq<string>)
      ensures tags == BalancerTags(records, hostTags, b)
    {
      tags := [];
      for i := 0 to |records|
        invariant tags == BalancerTags(records[..i], hostTags, b)
      {
        assert records[..i + 1][..i] == records[..i];
        var host := records[i].host;
        if host in b.hosts && host in hostTags && hostTags[host].Some? && hostTags[host].value != "" {
          tags := tags + [hostTags[host].value];
        }
      }
      assert records[..|records|] == records;
    }

    // balancers holds the enabled ones.
    method ProcessEndpoints(records: seq<Endpoint>, balancers: seq<Balancer>)
      requires proxyRemarks == defaultRemarks == endpoints == [] && groups == []
      modifies this
      ensures endpoints == Names(client, records)
      ensures groups == Groups(records, HostTags(client, records), balancers)
      ensures defaultRemarks == Unassigned(endpoints, Assigned(groups))
    {
      var hostTags := AddEndpoints(records);
      var taken: set<string> := {};
      for i := 0 to |balancers|
        invariant endpoints == defaultRemarks == Names(client, records)
        invariant groups == Groups(records, hostTags, balancers[..i]) && taken == Assigned(groups)
      {
        assert balancers[..i + 1][..i] == balancers[..i];
        var tags := SelectTags(records, hostTags, balancers[i]);
        if tags != [] {
          ghost var before := groups;
          AddBalancer(balancers[i].name, tags);
          taken := taken + set tag | tag in tags;
          assert Assigned(groups) == Assigned(before) + set tag | tag in tags;
        }
      }
      assert balancers[..|balancers|] == balancers;
      var kept := [];
      for i := 0 to |defaultRemarks|
        invariant kept == Unassigned(defaultRemarks[..i], taken)
      {
        assert defaultRemarks[..i + 1][..i] == defaultRemarks[..i];
        if defaultRemarks[i] !in taken {
          kept := kept + [defaultRemarks[i]];
        }
      }
      assert defaultRemarks[..|defaultRemarks|] == defaultRemarks;
      defaultRemarks := kept;
    }
  }
}
