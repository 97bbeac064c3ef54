// Endpoint tags are distinct, and each is either in the default list or in some balancer.

module SubscriptionEndpointProperties {
  import opened Wrappers
  import opened Seqs
  import opened EndpointNames
  import opened EndpointOrder
  import opened SubscriptionEndpoints

  // ---- distinct tags ------------------------------------------------------------------------

  lemma {:induction false} NamesDistinct(client: Client, records: seq<Endpoint>)
    ensures NoDuplicates(Names(client, records))
  {
    if records != [] {
      var earlier, e := records[..|records| - 1], records[|records| - 1];
      NamesDistinct(client, earlier);
      UniqueNameIsNew(Names(client, earlier), e.remark);
    }
  }

  lemma {:induction false} NamesGrow(client: Client, records: seq<Endpoint>, i: nat)
    requires i <= |records|
    ensures Names(client, records[..i]) <= Names(client, records)
    decreases |records|
  {
    if i == |records| {
      assert records[..i] == records;
    } else {
      assert records[..|records| - 1][..i] == records[..i];
      NamesGrow(client, records[..|records| - 1], i);
    }
  }

  // The endpoints of a run have different tags, each of them among the names.
  lemma TagsDistinct(client: Client, records: seq<Endpoint>, i: nat, j: nat)
    requires i < j < |records| && TagOf(client, records, i).Some? && TagOf(client, records, j).Some?
    ensures TagOf(client, records, i) != TagOf(client, records, j)
  {
    assert records[..i + 1][..i] == records[..i];
    assert records[..j][..i + 1] == records[..i + 1];
    NamesGrow(client, records[..j], i + 1);
    UniqueNameIsNew(Names(client, records[..j]), records[j].remark);
    var tag := TagOf(client, records, i).value;
    assert Names(client, records[..i + 1]) == Names(client, records[..i]) + [tag];
    assert tag in Names(client, records[..i + 1]);
  }

  lemma TagIsName(client: Client, records: seq<Endpoint>, i: nat)
    requires i < |records| && TagOf(client, records, i).Some?
    ensures TagOf(client, records, i).value in Names(client, records)
  {
    assert records[..i + 1][..i] == records[..i];
    NamesGrow(client, records, i + 1);
    var tag := TagOf(client, records, i).value;
    assert Names(client, records[..i + 1]) == Names(client, records[..i]) + [tag];
    assert tag in Names(client, records[..i + 1]);
  }

  // ---- default list or balancer -------------------------------------------------------------

  lemma {:induction false} UnassignedMembers(tags: seq<string>, taken: set<string>, tag: string)
    ensures tag in Unassigned(tags, taken) <==> tag in tags && tag !in taken
  {
    if tags != [] {
      var n := |tags| - 1;
      assert tags == tags[..n] + [tags[n]];
      UnassignedMembers(tags[..n], taken, tag);
    }
  }

  ghost predicate Grouped(groups: seq<Group>, tag: string) {
    exists g :: g in groups && tag in g.tags
  }

  // Every endpoint's tag is in the default list or in some balancer, never in both.
  lemma DefaultOrBalanced(client: Client, records: seq<Endpoint>, balancers: seq<Balancer>, tag: string)
    requires tag in Names(client, records)
    ensures
      var groups := Groups(records, HostTags(client, records), balancers);
      tag in Unassigned(Names(client, records), Assigned(groups)) <==> !Grouped(groups, tag)
  {
    UnassignedMembers(Names(client, records), Assigned(Groups(records, HostTags(client, records), balancers)), tag);
  }

  ghost predicate DistinctHosts(records: seq<Endpoint>) {
    forall i, j :: 0 <= i < j < |records| ==> records[i].host != records[j].host
  }

  lemma {:induction false} HostTagOf(client: Client, records: seq<Endpoint>, i: nat)
    requires DistinctHosts(records) && i < |records|
    ensures records[i].host in HostTags(client, records)
    ensures HostTags(client, records)[records[i].host] == TagOf(client, records, i)
  {
    var n := |records| - 1;
    if i < n {
      HostTagOf(client, records[..n], i);
      assert records[..n][..i] == records[..i];
      assert records[i].host != records[n].host;
    }
  }

  lemma {:induction false} BalancerTagsMembers(
      records: seq<Endpoint>, hostTags: map<int, Option<string>>, b: Balancer, tag: string)
    ensures tag in BalancerTags(records, hostTags, b) <==>
      tag != "" && exists e :: e in records && e.host in b.hosts && e.host in hostTags && hostTags[e.host] == Some(tag)
  {
    if records != [] {
      var n := |records| - 1;
      assert records == records[..n] + [records[n]];
      BalancerTagsMembers(records[..n], hostTags, b, tag);
    }
  }

  // With one endpoint per host, a balancer holds exactly the tags of the hosts it selects.
  lemma BalancedExactlyWhenSelected(client: Client, records: seq<Endpoint>, b: Balancer, i: nat)
    requires DistinctHosts(records) && i < |records|
    requires TagOf(client, records, i).Some? && TagOf(client, records, i).value != ""
    ensures TagOf(client, records, i).value in BalancerTags(records, HostTags(client, records), b)
       <==> records[i].host in b.hosts
  {
    var hostTags := HostTags(client, records);
    var tag := TagOf(client, records, i).value;
    HostTagOf(client, records, i);
    BalancerTagsMembers(records, hostTags, b, tag);
    assert records[i] in records;
    if tag in BalancerTags(records, hostTags, b) {
      var e :| e in records && e.host in b.hosts && e.host in hostTags && hostTags[e.host] == Some(tag);
      var j :| 0 <= j < |records| && records[j] == e;
      HostTagOf(client, records, j);
      if i < j {
        TagsDistinct(client, records, i, j);
      } else if j < i {
        TagsDistinct(client, records, j, i);
      }
    }
  }

  lemma GroupedAppend(groups: seq<Group>, g: Group, tag: string)
    ensures Grouped(groups + [g], tag) <==> Grouped(groups, tag) || tag in g.tags
  {
    if Grouped(groups, tag) {
      var h :| h in groups && tag in h.tags;
      assert h in groups + [g];
    }
    if tag in g.tags {
      assert g in groups + [g];
    }
  }

  lemma {:induction false} GroupsMembers(
      records: seq<Endpoint>, hostTags: map<int, Option<string>>, balancers: seq<Balancer>, tag: string)
    ensures Grouped(Groups(records, hostTags, balancers), tag) <==>
            (exists b :: b in balancers && tag in BalancerTags(records, hostTags, b))
  {
    if balancers != [] {
      var n := |balancers| - 1;
      assert balancers == balancers[..n] + [balancers[n]];
      GroupsMembers(records, hostTags, balancers[..n], tag);
      var tags := BalancerTags(records, hostTags, balancers[n]);
      var groups := Groups(records, hostTags, balancers[..n]);
      GroupedAppend(groups, Group(balancers[n].name, tags), tag);
      assert Grouped(Groups(records, hostTags, balancers), tag) <==> Grouped(groups, tag) || tag in tags;
      if exists b :: b in balancers && tag in BalancerTags(records, hostTags, b) {
        var b :| b in balancers && tag in BalancerTags(records, hostTags, b);
        assert b in balancers[..n] || b == balancers[n];
      }
    }
  }

  // An endpoint stays in the default list exactly when no enabled balancer selects its host.
  lemma DefaultExactlyWhenFree(client: Client, records: seq<Endpoint>, balancers: seq<Balancer>, i: nat)
    requires DistinctHosts(records) && i < |records|
    requires TagOf(client, records, i).Some? && TagOf(client, records, i).value != ""
    ensures
      var tag := TagOf(client, records, i).value;
      var groups := Groups(records, HostTags(client, records), balancers);
      tag in Unassigned(Names(client, records), Assigned(groups)) <==>
        forall b :: b in balancers ==> records[i].host !in b.hosts
  {
    var tag := TagOf(client, records, i).value;
    TagIsName(client, records, i);
    DefaultOrBalanced(client, records, balancers, tag);
    GroupsMembers(records, HostTags(client, records), balancers, tag);
    forall b | b in balancers
      ensures tag in BalancerTags(records, HostTags(client, records), b) <==> records[i].host in b.hosts
    {
      BalancedExactlyWhenSelected(client, records, b, i);
    }
  }
}
