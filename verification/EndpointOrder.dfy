// The order in which subscription endpoints are emitted (app/subscription/share.py,
// process_inbounds_and_tags).

module EndpointOrder {
  import opened Wrappers
  import opened Seqs

  datatype Endpoint = Endpoint(host: int, remark: string, network: string, headerType: string, protocol: string)

  // A host of an inbound as it competes for its place; a missing number counts as infinite.
  datatype Target = Target(
    position: Option<int>, id: Option<int>, inbound: Option<nat>, hostIndex: nat, sequence: nat, endpoint: Endpoint)

  predicate Below(a: Option<int>, b: Option<int>) {
    a.Some? && (b.None? || a.value < b.value)
  }

  // The comparison of tuples.
  predicate Precedes(a: Target, b: Target) {
    || Below(a.position, b.position)
    || (a.position == b.position
        && (|| Below(a.id, b.id)
            || (a.id == b.id
                && (|| Below(a.inbound, b.inbound)
                    || (a.inbound == b.inbound
                        && (a.hostIndex < b.hostIndex || (a.hostIndex == b.hostIndex && a.sequence < b.sequence)))))))
  }

  function Insert(sorted: seq<Target>, x: Target): seq<Target> {
    if sorted == [] || Precedes(sorted[|sorted| - 1], x) then sorted + [x]
    else Insert(sorted[..|sorted| - 1], x) + [sorted[|sorted| - 1]]
  }

  function Sorted(targets: seq<Target>): seq<Target> {
    if targets == [] then [] else Insert(Sorted(targets[..|targets| - 1]), targets[|targets| - 1])
  }

  ghost predicate InOrder(targets: seq<Target>) {
    forall i, j :: 0 <= i < j < |targets| ==> Precedes(targets[i], targets[j])
  }

  ghost predicate Sequenced(targets: seq<Target>) {
    forall i, j :: 0 <= i < j < |targets| ==> targets[i].sequence != targets[j].sequence
  }

  lemma PrecedesTotal(a: Target, b: Target)
    requires a.sequence != b.sequence
    ensures Precedes(a, b) <==> !Precedes(b, a)
  {
  }

  lemma PrecedesTransitive(a: Target, b: Target, c: Target)
    requires Precedes(a, b) && Precedes(b, c)
    ensures Precedes(a, c)
  {
  }

  lemma {:induction false} InsertMembers(sorted: seq<Target>, x: Target)
    ensures multiset(Insert(sorted, x)) == multiset(sorted) + multiset{x}
    ensures forall y :: y in Insert(sorted, x) <==> y in sorted || y == x
  {
    if sorted != [] && !Precedes(sorted[|sorted| - 1], x) {
      var n := |sorted| - 1;
      InsertMembers(sorted[..n], x);
      assert sorted == sorted[..n] + [sorted[n]];
    }
  }

  lemma {:induction false} InsertInOrder(sorted: seq<Target>, x: Target)
    requires InOrder(sorted) && forall y :: y in sorted ==> y.sequence != x.sequence
    ensures InOrder(Insert(sorted, x))
  {
    if sorted != [] {
      var n := |sorted| - 1;
      if Precedes(sorted[n], x) {
        forall i | 0 <= i < n ensures Precedes(sorted[i], x) {
          PrecedesTransitive(sorted[i], sorted[n], x);
        }
      } else {
        InsertInOrder(sorted[..n], x);
        InsertMembers(sorted[..n], x);
        assert sorted[n] in sorted;
        PrecedesTotal(sorted[n], x);
        var inner := Insert(sorted[..n], x);
        forall i | 0 <= i < |inner| ensures Precedes(inner[i], sorted[n]) {
          assert inner[i] in inner;
        }
      }
    }
  }

  // sorted() of targets that differ in their sequence number: in order, and the same targets.
  lemma {:induction false} SortedMeans(targets: seq<Target>)
    requires Sequenced(targets)
    ensures InOrder(Sorted(targets)) && multiset(Sorted(targets)) == multiset(targets)
  {
    if targets != [] {
      var n := |targets| - 1;
      SortedMeans(targets[..n]);
      assert targets == targets[..n] + [targets[n]];
      forall y | y in Sorted(targets[..n]) ensures y.sequence != targets[n].sequence {
        assert y in multiset(targets[..n]);
        var i :| 0 <= i < n && targets[i] == y;
      }
      InsertInOrder(Sorted(targets[..n]), targets[n]);
      InsertMembers(Sorted(targets[..n]), targets[n]);
    }
  }

  // Endpoints are emitted by position, then by id, whatever missing numbers there are.
  lemma SortedByPositionAndId(targets: seq<Target>, i: nat, j: nat)
    requires Sequenced(targets) && i < j < |Sorted(targets)|
    ensures
      var a, b := Sorted(targets)[i], Sorted(targets)[j];
      !Below(b.position, a.position) && (a.position == b.position ==> !Below(b.id, a.id))
  {
    SortedMeans(targets);
    assert Precedes(Sorted(targets)[i], Sorted(targets)[j]);
  }

  datatype HostEntry = HostEntry(id: Option<int>, position: Option<int>, endpoint: Endpoint)

  function TagIndex(registry: seq<string>, tag: string): Option<nat> {
    if registry == [] then None
    else if registry[|registry| - 1] == tag then Some(|registry| - 1)
    else TagIndex(registry[..|registry| - 1], tag)
  }

  ghost predicate Matches(t: Target, registry: seq<string>, tag: string, k: nat, host: HostEntry) {
    && t.position == host.position && t.id == host.id && t.endpoint == host.endpoint
    && t.inbound == TagIndex(registry, tag) && t.hostIndex == k
  }

  ghost predicate HasTarget(targets: seq<Target>, registry: seq<string>, tag: string, k: nat, host: HostEntry) {
    exists t :: t in targets && Matches(t, registry, tag, k, host)
  }

  predicate Offered(tags: seq<string>, registry: seq<string>, hosts: map<string, seq<HostEntry>>, tag: string, k: nat) {
    tag in tags && TagIndex(registry, tag).Some? && tag in hosts && k < |hosts[tag]|
  }

  ghost predicate FromHost(tags: seq<string>, registry: seq<string>, hosts: map<string, seq<HostEntry>>, t: Target) {
    exists tag, k: nat :: Offered(tags, registry, hosts, tag, k) && Matches(t, registry, tag, k, hosts[tag][k])
  }

  // The targets of one inbound's hosts.
  method HostTargets(registry: seq<string>, tag: string, hosts: seq<HostEntry>, start: nat) returns (targets: seq<Target>)
    ensures OfTag(targets, start, tag, registry, hosts)
  {
    targets := [];
    for k := 0 to |hosts|
      invariant |targets| == k
      invariant forall j :: 0 <= j < k ==>
        targets[j].sequence == start + j && Matches(targets[j], registry, tag, j, hosts[j])
    {
      targets := targets
        + [Target(hosts[k].position, hosts[k].id, TagIndex(registry, tag), k, start + k, hosts[k].endpoint)];
    }
  }

  // The user's inbounds of one protocol.
  datatype Selection = Selection(protocol: string, tags: seq<string>)

  // Protocols without account settings are passed over.
  function SelectedTags(inbounds: seq<Selection>, proxies: set<string>): seq<string> {
    if inbounds == [] then []
    else
      var last := inbounds[|inbounds| - 1];
      SelectedTags(inbounds[..|inbounds| - 1], proxies) + if last.protocol in proxies then last.tags else []
  }

  // No host is listed twice.
  ghost predicate UniqueHosts(hosts: map<string, seq<HostEntry>>) {
    forall u, v, j: nat, k: nat :: u in hosts && v in hosts && j < |hosts[u]| && k < |hosts[v]| && (u != v || j != k) ==>
      hosts[u][j].endpoint.host != hosts[v][k].endpoint.host
  }

  ghost predicate DifferentHosts(targets: seq<Target>) {
    forall i, j :: 0 <= i < j < |targets| ==> targets[i].endpoint.host != targets[j].endpoint.host
  }

  // The targets are the hosts of the tags, numbered as they come; each once, if nothing is listed twice.
  ghost predicate Collected(
      targets: seq<Target>, tags: seq<string>, registry: seq<string>, hosts: map<string, seq<HostEntry>>)
  {
    && (forall i :: 0 <= i < |targets| ==> targets[i].sequence == i)
    && (forall tag, k: nat :: Offered(tags, registry, hosts, tag, k) ==>
          HasTarget(targets, registry, tag, k, hosts[tag][k]))
    && (forall t :: t in targets ==> FromHost(tags, registry, hosts, t))
    && (UniqueHosts(hosts) && NoDuplicates(tags) ==> DifferentHosts(targets))
  }

  lemma PassedOver(targets: seq<Target>, tags: seq<string>, tag: string, registry: seq<string>,
                   hosts: map<string, seq<HostEntry>>)
    requires Collected(targets, tags, registry, hosts) && (TagIndex(registry, tag).None? || tag !in hosts)
    ensures Collected(targets, tags + [tag], registry, hosts)
  {
    forall u, k: nat | Offered(tags + [tag], registry, hosts, u, k) ensures Offered(tags, registry, hosts, u, k) {
    }
    forall t | t in targets ensures FromHost(tags + [tag], registry, hosts, t) {
      StillFrom(tags, tag, registry, hosts, t);
    }
    if NoDuplicates(tags + [tag]) {
      FewerTags(tags, tag);
    }
  }

  lemma FewerTags(tags: seq<string>, tag: string)
    requires NoDuplicates(tags + [tag])
    ensures NoDuplicates(tags) && tag !in tags
  {
    forall i | 0 <= i < |tags| ensures tags[i] != tag {
      assert (tags + [tag])[i] == tags[i] && (tags + [tag])[|tags|] == tag;
    }
    forall i, j | 0 <= i < j < |tags| ensures tags[i] != tags[j] {
      assert (tags + [tag])[i] == tags[i] && (tags + [tag])[j] == tags[j];
    }
  }

  lemma StillFrom(tags: seq<string>, tag: string, registry: seq<string>, hosts: map<string, seq<HostEntry>>, t: Target)
    requires FromHost(tags, registry, hosts, t)
    ensures FromHost(tags + [tag], registry, hosts, t)
  {
    var u, k: nat :| Offered(tags, registry, hosts, u, k) && Matches(t, registry, u, k, hosts[u][k]);
    assert Offered(tags + [tag], registry, hosts, u, k);
  }

  // The targets of one tag's hosts, in their order.
  ghost predicate OfTag(more: seq<Target>, start: nat, tag: string, registry: seq<string>, entries: seq<HostEntry>) {
    |more| == |entries| && forall k :: 0 <= k < |more| ==>
      more[k].sequence == start + k && Matches(more[k], registry, tag, k, entries[k])
  }

  lemma OneMoreTag(targets: seq<Target>, tags: seq<string>, tag: string, more: seq<Target>, registry: seq<string>,
                   hosts: map<string, seq<HostEntry>>)
    requires Collected(targets, tags, registry, hosts) && TagIndex(registry, tag).Some? && tag in hosts
    requires OfTag(more, |targets|, tag, registry, hosts[tag])
    ensures Collected(targets + more, tags + [tag], registry, hosts)
  {
    forall t | t in targets + more ensures FromHost(tags + [tag], registry, hosts, t) {
      if t in targets {
        StillFrom(tags, tag, registry, hosts, t);
      } else {
        NewFrom(tags, tag, more, |targets|, registry, hosts, t);
      }
    }
    forall u, k: nat | Offered(tags + [tag], registry, hosts, u, k)
      ensures HasTarget(targets + more, registry, u, k, hosts[u][k])
    {
      StillHas(targets, tags, tag, more, registry, hosts, u, k);
    }
    if UniqueHosts(hosts) && NoDuplicates(tags + [tag]) {
      FewerTags(tags, tag);
      NewTagDiffers(targets, tags, tag, more, registry, hosts);
    }
  }

  lemma NewFrom(tags: seq<string>, tag: string, more: seq<Target>, start: nat, registry: seq<string>,
                hosts: map<string, seq<HostEntry>>, t: Target)
    requires TagIndex(registry, tag).Some? && tag in hosts && OfTag(more, start, tag, registry, hosts[tag]) && t in more
    ensures FromHost(tags + [tag], registry, hosts, t)
  {
    var k :| 0 <= k < |more| && more[k] == t;
    assert Offered(tags + [tag], registry, hosts, tag, k);
  }

  lemma StillHas(targets: seq<Target>, tags: seq<string>, tag: string, more: seq<Target>, registry: seq<string>,
                 hosts: map<string, seq<HostEntry>>, u: string, k: nat)
    requires Collected(targets, tags, registry, hosts) && tag in hosts
    requires OfTag(more, |targets|, tag, registry, hosts[tag]) && Offered(tags + [tag], registry, hosts, u, k)
    ensures HasTarget(targets + more, registry, u, k, hosts[u][k])
  {
    if u == tag {
      assert more[k] in targets + more && Matches(more[k], registry, tag, k, hosts[tag][k]);
    } else {
      assert Offered(tags, registry, hosts, u, k);
      var t :| t in targets && Matches(t, registry, u, k, hosts[u][k]);
      assert t in targets + more;
    }
  }

  lemma NewTagDiffers(targets: seq<Target>, tags: seq<string>, tag: string, more: seq<Target>, registry: seq<string>,
                      hosts: map<string, seq<HostEntry>>)
    requires DifferentHosts(targets) && UniqueHosts(hosts) && tag !in tags && tag in hosts
    requires forall t :: t in targets ==> FromHost(tags, registry, hosts, t)
    requires OfTag(more, |targets|, tag, registry, hosts[tag])
    ensures DifferentHosts(targets + more)
  {
    var all := targets + more;
    forall i, j | 0 <= i < j < |all| ensures all[i].endpoint.host != all[j].endpoint.host {
      if i < |targets| <= j {
        assert targets[i] in targets;
        var u, k: nat :| Offered(tags, registry, hosts, u, k) && Matches(targets[i], registry, u, k, hosts[u][k]);
      }
    }
  }

  method CollectTags(
      start: seq<Target>, ghost earlier: seq<string>, tags: seq<string>, registry: seq<string>,
      hosts: map<string, seq<HostEntry>>) returns (targets: seq<Target>)
    requires Collected(start, earlier, registry, hosts)
    ensures Collected(targets, earlier + tags, registry, hosts)
  {
    targets := start;
    assert earlier + tags[..0] == earlier;
    for k := 0 to |tags|
      invariant Collected(targets, earlier + tags[..k], registry, hosts)
    {
      assert earlier + tags[..k + 1] == earlier + tags[..k] + [tags[k]];
      if TagIndex(registry, tags[k]).Some? && tags[k] in hosts {
        var more := HostTargets(registry, tags[k], hosts[tags[k]], |targets|);
        OneMoreTag(targets, earlier + tags[..k], tags[k], more, registry, hosts);
        targets := targets + more;
      } else {
        PassedOver(targets, earlier + tags[..k], tags[k], registry, hosts);
      }
    }
    assert tags[..|tags|] == tags;
  }

  // The hosts of the user's inbounds become targets.
  method CollectTargets(
      inbounds: seq<Selection>, proxies: set<string>, registry: seq<string>, hosts: map<string, seq<HostEntry>>)
    returns (targets: seq<Target>)
    ensures Collected(targets, SelectedTags(inbounds, proxies), registry, hosts)
  {
    targets := [];
    for i := 0 to |inbounds|
      invariant Collected(targets, SelectedTags(inbounds[..i], proxies), registry, hosts)
    {
      assert inbounds[..i + 1][..i] == inbounds[..i];
      ghost var earlier := SelectedTags(inbounds[..i], proxies);
      if inbounds[i].protocol in proxies {
        targets := CollectTags(targets, earlier, inbounds[i].tags, registry, hosts);
      } else {
        assert SelectedTags(inbounds[..i + 1], proxies) == earlier;
      }
    }
    assert inbounds[..|inbounds|] == inbounds;
  }

  // Sorting keeps every host apart from the others.
  lemma SortedKeepsHosts(targets: seq<Target>)
    requires Sequenced(targets) && DifferentHosts(targets)
    ensures |Sorted(targets)| == |targets| && DifferentHosts(Sorted(targets))
    ensures forall t :: t in Sorted(targets) <==> t in targets
  {
    var sorted := Sorted(targets);
    SortedMeans(targets);
    assert |multiset(sorted)| == |multiset(targets)|;
    forall t ensures t in sorted <==> t in targets {
      assert t in multiset(sorted) <==> t in multiset(targets);
    }
    forall i, j | 0 <= i < j < |sorted| ensures sorted[i].endpoint.host != sorted[j].endpoint.host {
      assert Precedes(sorted[i], sorted[j]);
      assert sorted[i] in sorted && sorted[j] in sorted;
      var a :| 0 <= a < |targets| && targets[a] == sorted[i];
      var b :| 0 <= b < |targets| && targets[b] == sorted[j];
      NotBeforeItself(sorted[i]);
    }
  }

  lemma NotBeforeItself(t: Target)
    ensures !Precedes(t, t)
  {
  }
}
