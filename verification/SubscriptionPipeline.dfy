// From the stored hosts and a user's inbounds to the finished configuration: host lists per inbound,
// targets, their order, endpoints and balancers (app/subscription/share.py).

module SubscriptionPipeline {
  import opened Wrappers
  import opened Seqs
  import opened EndpointOrder
  import opened SubscriptionEndpoints
  import opened SubscriptionEndpointProperties

  // A stored host; what its endpoint looks like follows from the host and its inbound.
  datatype HostRow = HostRow(disabled: bool, inboundTag: string, position: Option<int>, endpoint: Endpoint)

  predicate Listed(row: HostRow) {
    !row.disabled && row.inboundTag != ""
  }

  function EntryOf(row: HostRow): HostEntry {
    HostEntry(Some(row.endpoint.host), row.position, row.endpoint)
  }

  function EntriesOf(hosts: map<string, seq<HostEntry>>, tag: string): seq<HostEntry> {
    if tag in hosts then hosts[tag] else []
  }

  function HostsByInbound(rows: seq<HostRow>): map<string, seq<HostEntry>> {
    if rows == [] then map[]
    else
      var earlier, row := HostsByInbound(rows[..|rows| - 1]), rows[|rows| - 1];
      if Listed(row) then earlier[row.inboundTag := EntriesOf(earlier, row.inboundTag) + [EntryOf(row)]] else earlier
  }

  method BuildSubscriptionHostsByInbound(rows: seq<HostRow>) returns (hosts: map<string, seq<HostEntry>>)
    ensures hosts == HostsByInbound(rows)
  {
    hosts := map[];
    for i := 0 to |rows|
      invariant hosts == HostsByInbound(rows[..i])
    {
      assert rows[..i + 1][..i] == rows[..i];
      if Listed(rows[i]) {
        hosts := hosts[rows[i].inboundTag := EntriesOf(hosts, rows[i].inboundTag) + [EntryOf(rows[i])]];
      }
    }
    assert rows[..|rows|] == rows;
  }

  // The primary key.
  ghost predicate UniqueIds(rows: seq<HostRow>) {
    forall i, j :: 0 <= i < j < |rows| ==> rows[i].endpoint.host != rows[j].endpoint.host
  }

  // The lists hold the listed hosts, each under its inbound.
  lemma {:induction false} ListsMembers(rows: seq<HostRow>, tag: string, entry: HostEntry)
    ensures entry in EntriesOf(HostsByInbound(rows), tag) <==>
      exists row :: row in rows && Listed(row) && row.inboundTag == tag && EntryOf(row) == entry
  {
    if rows != [] {
      var n := |rows| - 1;
      assert rows == rows[..n] + [rows[n]];
      ListsMembers(rows[..n], tag, entry);
    }
  }

  lemma NewEntryKeepsUnique(hosts: map<string, seq<HostEntry>>, tag: string, entry: HostEntry)
    requires UniqueHosts(hosts)
    requires forall u :: u in hosts ==> forall old_ :: old_ in hosts[u] ==> old_.endpoint.host != entry.endpoint.host
    ensures UniqueHosts(hosts[tag := EntriesOf(hosts, tag) + [entry]])
  {
    var hosts': map<string, seq<HostEntry>> := hosts[tag := EntriesOf(hosts, tag) + [entry]];
    forall u: string, v: string, j: nat, k: nat |
      u in hosts' && v in hosts' && j < |hosts'[u]| && k < |hosts'[v]| && (u != v || j != k)
      ensures hosts'[u][j].endpoint.host != hosts'[v][k].endpoint.host
    {
      if u in hosts && j < |hosts[u]| {
        assert hosts[u][j] in hosts[u];
      }
      if v in hosts && k < |hosts[v]| {
        assert hosts[v][k] in hosts[v];
      }
    }
  }

  lemma {:induction false} ListsAreUnique(rows: seq<HostRow>)
    requires UniqueIds(rows)
    ensures UniqueHosts(HostsByInbound(rows))
  {
    if rows != [] {
      var n := |rows| - 1;
      var earlier := HostsByInbound(rows[..n]);
      ListsAreUnique(rows[..n]);
      forall u: string, other: HostEntry | u in earlier && other in earlier[u] ensures other.endpoint.host != rows[n].endpoint.host {
        ListsMembers(rows[..n], u, other);
        var row :| row in rows[..n] && EntryOf(row) == other;
      }
      NewEntryKeepsUnique(earlier, rows[n].inboundTag, EntryOf(rows[n]));
    }
  }

  // ---- what a subscription shows ------------------------------------------------------------

  function Endpoints(targets: seq<Target>): (records: seq<Endpoint>)
    ensures |records| == |targets| && forall i :: 0 <= i < |targets| ==> records[i] == targets[i].endpoint
  {
    seq(|targets|, i requires 0 <= i < |targets| => targets[i].endpoint)
  }

  // The host is enabled, on a known inbound that the user has under a protocol with an account.
  predicate Shown(row: HostRow, inbounds: seq<Selection>, proxies: set<string>, registry: seq<string>) {
    Listed(row) && row.inboundTag in SelectedTags(inbounds, proxies) && TagIndex(registry, row.inboundTag).Some?
  }

  ghost predicate ShownAs(
      rows: seq<HostRow>, inbounds: seq<Selection>, proxies: set<string>, registry: seq<string>, e: Endpoint)
  {
    exists row :: row in rows && Shown(row, inbounds, proxies, registry) && row.endpoint == e
  }

  ghost predicate Targeted(targets: seq<Target>, e: Endpoint) {
    exists t :: t in targets && t.endpoint == e
  }

  lemma ShownIsTarget(
      rows: seq<HostRow>, inbounds: seq<Selection>, proxies: set<string>, registry: seq<string>, targets: seq<Target>,
      row: HostRow)
    requires Collected(targets, SelectedTags(inbounds, proxies), registry, HostsByInbound(rows))
    requires row in rows && Shown(row, inbounds, proxies, registry)
    ensures Targeted(targets, row.endpoint)
  {
    var hosts := HostsByInbound(rows);
    ListsMembers(rows, row.inboundTag, EntryOf(row));
    var k :| 0 <= k < |hosts[row.inboundTag]| && hosts[row.inboundTag][k] == EntryOf(row);
    assert Offered(SelectedTags(inbounds, proxies), registry, hosts, row.inboundTag, k);
    assert HasTarget(targets, registry, row.inboundTag, k, hosts[row.inboundTag][k]);
  }

  lemma TargetIsShown(
      rows: seq<HostRow>, inbounds: seq<Selection>, proxies: set<string>, registry: seq<string>, targets: seq<Target>,
      t: Target)
    requires Collected(targets, SelectedTags(inbounds, proxies), registry, HostsByInbound(rows)) && t in targets
    ensures ShownAs(rows, inbounds, proxies, registry, t.endpoint)
  {
    var hosts := HostsByInbound(rows);
    var tags := SelectedTags(inbounds, proxies);
    assert FromHost(tags, registry, hosts, t);
    var tag, k: nat :| Offered(tags, registry, hosts, tag, k) && Matches(t, registry, tag, k, hosts[tag][k]);
    ListsMembers(rows, tag, hosts[tag][k]);
    var row :| row in rows && Listed(row) && row.inboundTag == tag && EntryOf(row) == hosts[tag][k];
  }

  lemma RecordsAreTargets(targets: seq<Target>, e: Endpoint)
    requires forall t :: t in Sorted(targets) <==> t in targets
    ensures e in Endpoints(Sorted(targets)) <==> Targeted(targets, e)
  {
    var sorted := Sorted(targets);
    if t :| t in targets && t.endpoint == e {
      var i :| 0 <= i < |sorted| && sorted[i] == t;
      assert Endpoints(sorted)[i] == e;
    }
    if e in Endpoints(sorted) {
      var i :| 0 <= i < |sorted| && Endpoints(sorted)[i] == e;
      assert sorted[i] in sorted;
    }
  }

  // The records of a subscription: exactly the shown hosts, each once.
  lemma RecordsAreShown(
      rows: seq<HostRow>, inbounds: seq<Selection>, proxies: set<string>, registry: seq<string>, targets: seq<Target>)
    requires UniqueIds(rows) && NoDuplicates(SelectedTags(inbounds, proxies))
    requires Collected(targets, SelectedTags(inbounds, proxies), registry, HostsByInbound(rows))
    ensures DistinctHosts(Endpoints(Sorted(targets)))
    ensures forall e :: e in Endpoints(Sorted(targets)) <==> ShownAs(rows, inbounds, proxies, registry, e)
  {
    ListsAreUnique(rows);
    SortedKeepsHosts(targets);
    forall e ensures e in Endpoints(Sorted(targets)) <==> Targeted(targets, e) {
      RecordsAreTargets(targets, e);
    }
    forall e ensures Targeted(targets, e) <==> ShownAs(rows, inbounds, proxies, registry, e) {
      if t :| t in targets && t.endpoint == e {
        TargetIsShown(rows, inbounds, proxies, registry, targets, t);
      }
      if row :| row in rows && Shown(row, inbounds, proxies, registry) && row.endpoint == e {
        ShownIsTarget(rows, inbounds, proxies, registry, targets, row);
      }
    }
  }

  // An endpoint is in the default list exactly when no enabled balancer selects its host.
  ghost predicate WellAssigned(conf: Configuration, records: seq<Endpoint>, balancers: seq<Balancer>)
    reads conf
  {
    forall i :: 0 <= i < |records| ==>
      var tag := TagOf(conf.client, records, i);
      tag.Some? && tag.value != "" ==>
        (tag.value in conf.defaultRemarks <==> forall b :: b in balancers ==> records[i].host !in b.hosts)
  }

  // The whole way: the records are the shown hosts, each once, in the order of position and id; every
  // supported one gets a tag of its own; and it is in the default list exactly when no balancer selects it.
  method ProcessInboundsAndTags(
      client: Client, rows: seq<HostRow>, inbounds: seq<Selection>, proxies: set<string>, registry: seq<string>,
      balancers: seq<Balancer>) returns (conf: Configuration, records: seq<Endpoint>, ghost targets: seq<Target>)
    requires UniqueIds(rows) && NoDuplicates(SelectedTags(inbounds, proxies))
    ensures fresh(conf) && conf.client == client
    ensures Collected(targets, SelectedTags(inbounds, proxies), registry, HostsByInbound(rows))
    ensures records == Endpoints(Sorted(targets)) && DistinctHosts(records)
    ensures forall e :: e in records <==> ShownAs(rows, inbounds, proxies, registry, e)
    ensures conf.endpoints == Names(client, records) && NoDuplicates(conf.endpoints)
    ensures WellAssigned(conf, records, balancers)
    ensures conf.groups == Groups(records, HostTags(client, records), balancers)
  {
    var hosts := BuildSubscriptionHostsByInbound(rows);
    var collected := CollectTargets(inbounds, proxies, registry, hosts);
    targets := collected;
    RecordsAreShown(rows, inbounds, proxies, registry, targets);
    records := Endpoints(Sorted(collected));
    NamesDistinct(client, records);
    conf := new Configuration(client);
    conf.ProcessEndpoints(records, balancers);
    forall i | 0 <= i < |records| && TagOf(client, records, i).Some? && TagOf(client, records, i).value != ""
      ensures TagOf(client, records, i).value in conf.defaultRemarks <==>
        forall b :: b in balancers ==> records[i].host !in b.hosts
    {
      DefaultExactlyWhenFree(client, records, balancers, i);
    }
  }
}
