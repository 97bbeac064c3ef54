// User accounts against the enabled inbounds. Users store the tags they leave out; the API speaks
// of the tags they selected (xray_config_registry.py, User.inbounds, proxy_inbounds.py).

module Accounts {
  import opened Wrappers
  import opened Seqs
  import opened NodeTables
  import opened SortOrder
  import opened Protocols
  import Registry

  // ---- the registry of enabled inbounds -----------------------------------------------------

  predicate Registered(row: ConfigRow, protocol: string, excludedTags: set<string>) {
    row.enabled && row.content.protocol == protocol && row.tag !in excludedTags
  }

  // inbounds_by_protocol[protocol], as tags in registry order.
  function ProtocolTags(rows: seq<ConfigRow>, protocol: string, excludedTags: set<string>): seq<string> {
    if rows == [] || protocol !in ACCOUNT_PROTOCOLS then []
    else
      var row := rows[|rows| - 1];
      var earlier := ProtocolTags(rows[..|rows| - 1], protocol, excludedTags);
      if Registered(row, protocol, excludedTags) then earlier + [row.tag] else earlier
  }

  lemma {:induction false} ProtocolTagsMembers(
      rows: seq<ConfigRow>, protocol: string, excludedTags: set<string>, tag: string)
    ensures tag in ProtocolTags(rows, protocol, excludedTags) <==>
      protocol in ACCOUNT_PROTOCOLS
      && exists row :: row in rows && Registered(row, protocol, excludedTags) && row.tag == tag
  {
    if rows != [] && protocol in ACCOUNT_PROTOCOLS {
      var n := |rows| - 1;
      assert rows == rows[..n] + [rows[n]];
      ProtocolTagsMembers(rows[..n], protocol, excludedTags, tag);
    }
  }

  lemma ProtocolTagsAppend(rows: seq<ConfigRow>, row: ConfigRow, protocol: string, excludedTags: set<string>)
    ensures ProtocolTags(rows + [row], protocol, excludedTags)
         == if protocol in ACCOUNT_PROTOCOLS && Registered(row, protocol, excludedTags)
            then ProtocolTags(rows, protocol, excludedTags) + [row.tag]
            else ProtocolTags(rows, protocol, excludedTags)
  {
    assert (rows + [row])[..|rows|] == rows;
  }

  // ---- selection and exclusion --------------------------------------------------------------

  function Without(tags: seq<string>, dropped: set<string>): seq<string> {
    if tags == [] then []
    else if tags[|tags| - 1] in dropped then Without(tags[..|tags| - 1], dropped)
    else Without(tags[..|tags| - 1], dropped) + [tags[|tags| - 1]]
  }

  lemma {:induction false} WithoutMembers(tags: seq<string>, dropped: set<string>, tag: string)
    ensures tag in Without(tags, dropped) <==> tag in tags && tag !in dropped
  {
    if tags != [] {
      var n := |tags| - 1;
      assert tags == tags[..n] + [tags[n]];
      WithoutMembers(tags[..n], dropped, tag);
    }
  }

  lemma {:induction false} WithoutAlike(tags: seq<string>, a: set<string>, b: set<string>)
    requires forall tag :: tag in tags ==> (tag in a <==> tag in b)
    ensures Without(tags, a) == Without(tags, b)
  {
    if tags != [] {
      WithoutAlike(tags[..|tags| - 1], a, b);
    }
  }

  // get_excluded_inbound_tags for one protocol.
  function ExcludedTags(registry: seq<string>, selected: seq<string>): seq<string> {
    Without(registry, ToSet(selected))
  }

  // User.inbounds for one protocol.
  function UserTags(user: User, rows: seq<ConfigRow>, protocol: string, excludedTags: set<string>): Option<seq<string>> {
    if protocol !in user.proxies then None
    else Some(Without(ProtocolTags(rows, protocol, excludedTags), user.proxies[protocol].excluded))
  }

  function Dedup(tags: seq<string>): seq<string> {
    if tags == [] then []
    else
      var earlier := Dedup(tags[..|tags| - 1]);
      if tags[|tags| - 1] in earlier then earlier else earlier + [tags[|tags| - 1]]
  }

  lemma {:induction false} DedupMembers(tags: seq<string>)
    ensures forall tag :: tag in Dedup(tags) <==> tag in tags
    ensures NoDuplicates(Dedup(tags))
  {
    if tags != [] {
      var n := |tags| - 1;
      assert tags == tags[..n] + [tags[n]];
      DedupMembers(tags[..n]);
    }
  }

  datatype SelectionError =
    | BrokenRegistry                // the registry of enabled inbounds cannot be built
    | DisabledProtocol(protocol: string)
    | UnknownInbound(tag: string)   // no enabled inbound has the tag
    | ForeignInbound(tag: string)   // it belongs to another protocol

  function UnusableInbound(rows: seq<ConfigRow>, excludedTags: set<string>, tag: string): SelectionError {
    if exists row :: row in rows && row.tag == tag && row.enabled && row.tag !in excludedTags
                     && row.content.protocol in INBOUND_PROTOCOLS
    then ForeignInbound(tag)
    else UnknownInbound(tag)
  }

  // The first selected tag that is no enabled inbound of the protocol.
  function FirstUnusable(tags: seq<string>, registry: seq<string>): Option<string> {
    if tags == [] then None
    else if FirstUnusable(tags[..|tags| - 1], registry).Some? then FirstUnusable(tags[..|tags| - 1], registry)
    else if tags[|tags| - 1] in registry then None
    else Some(tags[|tags| - 1])
  }

  // normalize_user_inbounds for one protocol; nothing is recorded for a protocol without a
  // selection unless missing ones are filled in.
  function NormalizedSelection(
      rows: seq<ConfigRow>, excludedTags: set<string>, protocol: string,
      provided: map<string, seq<string>>, fillMissing: bool): Result<Option<seq<string>>, SelectionError>
  {
    var registry := ProtocolTags(rows, protocol, excludedTags);
    if protocol !in provided && !fillMissing then Ok(None)
    else if registry == [] then Err(DisabledProtocol(protocol))
    else
      var tags := Dedup(if protocol in provided then provided[protocol] else registry);
      match FirstUnusable(tags, registry)
      case Some(tag) => Err(UnusableInbound(rows, excludedTags, tag))
      case None => Ok(Some(tags))
  }

  function NormalizedSelections(
      rows: seq<ConfigRow>, excludedTags: set<string>, protocols: seq<string>,
      provided: map<string, seq<string>>, fillMissing: bool): Result<map<string, seq<string>>, SelectionError>
  {
    if protocols == [] then Ok(map[])
    else
      var n := |protocols| - 1;
      match NormalizedSelections(rows, excludedTags, protocols[..n], provided, fillMissing)
      case Err(e) => Err(e)
      case Ok(earlier) =>
        match NormalizedSelection(rows, excludedTags, protocols[n], provided, fillMissing)
        case Err(e) => Err(e)
        case Ok(None) => Ok(earlier)
        case Ok(Some(tags)) => Ok(earlier[protocols[n] := tags])
  }

  lemma {:induction false} SelectionErrorStays(
      rows: seq<ConfigRow>, excludedTags: set<string>, protocols: seq<string>,
      provided: map<string, seq<string>>, fillMissing: bool, k: nat)
    requires k <= |protocols|
    requires NormalizedSelections(rows, excludedTags, protocols[..k], provided, fillMissing).Err?
    ensures NormalizedSelections(rows, excludedTags, protocols, provided, fillMissing)
         == NormalizedSelections(rows, excludedTags, protocols[..k], provided, fillMissing)
    decreases |protocols|
  {
    if k == |protocols| {
      assert protocols[..k] == protocols;
    } else {
      var n := |protocols| - 1;
      assert protocols[..n][..k] == protocols[..k];
      SelectionErrorStays(rows, excludedTags, protocols[..n], provided, fillMissing, k);
    }
  }

  lemma {:induction false} UnusableStays(tags: seq<string>, registry: seq<string>, k: nat)
    requires k <= |tags| && FirstUnusable(tags[..k], registry).Some?
    ensures FirstUnusable(tags, registry) == FirstUnusable(tags[..k], registry)
    decreases |tags|
  {
    if k == |tags| {
      assert tags[..k] == tags;
    } else {
      assert tags[..|tags| - 1][..k] == tags[..k];
      UnusableStays(tags[..|tags| - 1], registry, k);
    }
  }

  // normalize_user_inbounds.
  function NormalizedUserInbounds(
      nodes: map<NodeId, NodeRow>, rows: seq<ConfigRow>, excludedTags: set<string>, protocols: seq<string>,
      provided: map<string, seq<string>>, fillMissing: bool): Result<map<string, seq<string>>, SelectionError>
  {
    if !Registry.RegistryBuilds(nodes, rows, excludedTags) then Err(BrokenRegistry)
    else NormalizedSelections(rows, excludedTags, protocols, provided, fillMissing)
  }

  method NormalizeUserInbounds(
      nodes: map<NodeId, NodeRow>, rows: seq<ConfigRow>, excludedTags: set<string>, protocols: seq<string>,
      provided: map<string, seq<string>>, fillMissing: bool)
    returns (r: Result<map<string, seq<string>>, SelectionError>)
    ensures r == NormalizedUserInbounds(nodes, rows, excludedTags, protocols, provided, fillMissing)
  {
    if !Registry.RegistryBuilds(nodes, rows, excludedTags) {
      return Err(BrokenRegistry);
    }
    var normalized: map<string, seq<string>> := map[];
    for i := 0 to |protocols|
      invariant NormalizedSelections(rows, excludedTags, protocols[..i], provided, fillMissing) == Ok(normalized)
    {
      var protocol := protocols[i];
      assert protocols[..i + 1][..i] == protocols[..i];
      var selection := NormalizeSelection(rows, excludedTags, protocol, provided, fillMissing);
      match selection
      case Err(e) =>
        SelectionErrorStays(rows, excludedTags, protocols, provided, fillMissing, i + 1);
        return Err(e);
      case Ok(None) =>
      case Ok(Some(tags)) => normalized := normalized[protocol := tags];
    }
    assert protocols[..|protocols|] == protocols;
    r := Ok(normalized);
  }

  method NormalizeSelection(
      rows: seq<ConfigRow>, excludedTags: set<string>, protocol: string,
      provided: map<string, seq<string>>, fillMissing: bool)
    returns (r: Result<Option<seq<string>>, SelectionError>)
    ensures r == NormalizedSelection(rows, excludedTags, protocol, provided, fillMissing)
  {
    var registry := ProtocolTags(rows, protocol, excludedTags);
    var selected := registry;
    if protocol in provided {
      selected := provided[protocol];
    } else if !fillMissing {
      return Ok(None);
    }
    if registry == [] {
      return Err(DisabledProtocol(protocol));
    }
    var tags := Dedup(selected);
    for i := 0 to |tags|
      invariant FirstUnusable(tags[..i], registry).None?
    {
      assert tags[..i + 1][..i] == tags[..i];
      if tags[i] !in registry {
        UnusableStays(tags, registry, i + 1);
        return Err(UnusableInbound(rows, excludedTags, tags[i]));
      }
    }
    assert tags[..|tags|] == tags;
    r := Ok(Some(tags));
  }

  lemma {:induction false} UsableTags(tags: seq<string>, registry: seq<string>)
    ensures FirstUnusable(tags, registry).None? <==> forall tag :: tag in tags ==> tag in registry
    ensures FirstUnusable(tags, registry).Some? ==> FirstUnusable(tags, registry).value in tags
  {
    if tags != [] {
      var n := |tags| - 1;
      assert tags == tags[..n] + [tags[n]];
      UsableTags(tags[..n], registry);
    }
  }

  // Select, store the complement, read back: the selection returns, in registry order.
  lemma SelectionRoundTrip(
      rows: seq<ConfigRow>, excludedTags: set<string>, protocol: string,
      provided: map<string, seq<string>>, user: User)
    requires NormalizedSelection(rows, excludedTags, protocol, provided, true).Ok?
    requires protocol in user.proxies
    requires
      var selected := NormalizedSelection(rows, excludedTags, protocol, provided, true).value.value;
      user.proxies[protocol].excluded == ToSet(ExcludedTags(ProtocolTags(rows, protocol, excludedTags), selected))
    ensures
      var registry := ProtocolTags(rows, protocol, excludedTags);
      var chosen := if protocol in provided then ToSet(provided[protocol]) else ToSet(registry);
      && UserTags(user, rows, protocol, excludedTags) == Some(Filter(registry, (tag: string) => tag in chosen))
      && ToSet(UserTags(user, rows, protocol, excludedTags).value) == chosen
  {
    var registry := ProtocolTags(rows, protocol, excludedTags);
    var selected := NormalizedSelection(rows, excludedTags, protocol, provided, true).value.value;
    var chosen := if protocol in provided then ToSet(provided[protocol]) else ToSet(registry);
    var excluded := user.proxies[protocol].excluded;
    DedupMembers(if protocol in provided then provided[protocol] else registry);
    UsableTags(selected, registry);
    assert ToSet(selected) == chosen;
    forall tag | tag in registry ensures tag in excluded <==> tag !in chosen {
      WithoutMembers(registry, ToSet(selected), tag);
    }
    WithoutIsFilter(registry, excluded, chosen);
    forall tag ensures tag in Without(registry, excluded) <==> tag in chosen {
      WithoutMembers(registry, excluded, tag);
    }
  }

  lemma {:induction false} WithoutIsFilter(tags: seq<string>, dropped: set<string>, kept: set<string>)
    requires forall tag :: tag in tags ==> (tag in dropped <==> tag !in kept)
    ensures Without(tags, dropped) == Filter(tags, (tag: string) => tag in kept)
  {
    if tags != [] {
      WithoutIsFilter(tags[..|tags| - 1], dropped, kept);
    }
  }

  // ---- what a new inbound does to every user ------------------------------------------------

  predicate Usable(tag: string, excludedTags: set<string>) {
    tag != "" && tag !in excludedTags
  }

  // ensure_protocol_inbounds_for_users gives every user without the protocol an account that leaves
  // out the protocol's other tags. New settings are random, so they come in as a function.
  function EnsuredUser(user: User, protocol: string, excluded: set<string>, settings: (nat, string) -> string): User {
    if protocol in user.proxies then user
    else user.(proxies := user.proxies[protocol := Proxy(settings(user.id, protocol), excluded)])
  }

  function EnsuredUsers(
      users: seq<User>, protocol: string, excluded: set<string>, settings: (nat, string) -> string): (r: seq<User>)
    ensures |r| == |users|
    ensures forall i :: 0 <= i < |users| ==> r[i] == EnsuredUser(users[i], protocol, excluded, settings)
  {
    seq(|users|, i requires 0 <= i < |users| => EnsuredUser(users[i], protocol, excluded, settings))
  }

  method EnsureProtocolInboundsForUsers(
      users: seq<User>, rows: seq<ConfigRow>, protocol: string, includedTags: seq<string>,
      protocolTags: seq<string>, excludedTags: set<string>, settings: (nat, string) -> string)
    returns (updated: seq<User>)
    ensures updated ==
      if protocol !in ACCOUNT_PROTOCOLS || (forall tag :: tag in includedTags ==> !Usable(tag, excludedTags)) then users
      else EnsuredUsers(users, protocol, OtherTags(rows, includedTags, protocolTags, excludedTags), settings)
  {
    if protocol !in ACCOUNT_PROTOCOLS || !exists tag :: tag in includedTags && Usable(tag, excludedTags) {
      return users;
    }
    var excluded := OtherTags(rows, includedTags, protocolTags, excludedTags);
    updated := [];
    for i := 0 to |users|
      invariant |updated| == i
      invariant forall k :: 0 <= k < i ==> updated[k] == EnsuredUser(users[k], protocol, excluded, settings)
    {
      if protocol !in users[i].proxies {
        var proxy := Proxy(settings(users[i].id, protocol), excluded);
        updated := updated + [users[i].(proxies := users[i].proxies[protocol := proxy])];
      } else {
        updated := updated + [users[i]];
      }
    }
  }

  // The stored tags among the protocol's, the included ones left aside.
  function OtherTags(
      rows: seq<ConfigRow>, includedTags: seq<string>, protocolTags: seq<string>, excludedTags: set<string>): set<string>
  {
    set row | row in rows && row.tag in protocolTags && row.tag !in excludedTags
              && !(row.tag in includedTags && Usable(row.tag, excludedTags)) :: row.tag
  }

  // exclude_protocol_inbounds_for_users adds the tags to every account of the protocol.
  function ExcludingUser(user: User, protocol: string, tags: set<string>): User {
    if protocol !in user.proxies then user
    else
      var proxy := user.proxies[protocol];
      user.(proxies := user.proxies[protocol := proxy.(excluded := proxy.excluded + tags)])
  }

  method ExcludeProtocolInboundsForUsers(
      users: seq<User>, rows: seq<ConfigRow>, protocol: string, tags: seq<string>, excludedTags: set<string>)
    returns (updated: seq<User>)
    ensures |updated| == |users|
    ensures forall i :: 0 <= i < |users| ==>
      updated[i] == if protocol !in ACCOUNT_PROTOCOLS then users[i]
                    else ExcludingUser(users[i], protocol, StoredTags(rows, tags, excludedTags))
  {
    if protocol !in ACCOUNT_PROTOCOLS {
      return users;
    }
    var stored := StoredTags(rows, tags, excludedTags);
    updated := [];
    for i := 0 to |users|
      invariant |updated| == i
      invariant forall k :: 0 <= k < i ==> updated[k] == ExcludingUser(users[k], protocol, stored)
    {
      var user := users[i];
      if protocol in user.proxies {
        var proxy := user.proxies[protocol];
        user := user.(proxies := user.proxies[protocol := proxy.(excluded := proxy.excluded + stored)]);
      }
      updated := updated + [user];
    }
  }

  function StoredTags(rows: seq<ConfigRow>, tags: seq<string>, excludedTags: set<string>): set<string> {
    set row | row in rows && row.tag in tags && Usable(row.tag, excludedTags) :: row.tag
  }

  // No account leaves out a tag that is not stored: the association rows are foreign keys.
  ghost predicate ExclusionsStored(users: seq<User>, rows: seq<ConfigRow>) {
    forall user, protocol, tag :: user in users && protocol in user.proxies && tag in user.proxies[protocol].excluded ==>
      exists row :: row in rows && row.tag == tag
  }

  // A new enabled inbound with auto-assign: every user gains exactly that tag on its protocol.
  lemma AutoAssignAddsTheTag(
      rows: seq<ConfigRow>, row: ConfigRow, users: seq<User>, i: nat, protocol: string,
      excludedTags: set<string>, settings: (nat, string) -> string)
    requires ExclusionsStored(users, rows) && UniqueTags(rows + [row]) && i < |users|
    requires row.enabled && row.content.protocol in ACCOUNT_PROTOCOLS && Usable(row.tag, excludedTags)
    requires protocol in ACCOUNT_PROTOCOLS
    ensures
      var rows' := rows + [row];
      var own := row.content.protocol;
      var others := OtherTags(rows', [row.tag], ProtocolTags(rows', own, excludedTags), excludedTags);
      var user' := EnsuredUser(users[i], own, others, settings);
      var before, after := UserTags(users[i], rows, protocol, excludedTags), UserTags(user', rows', protocol, excludedTags);
      if protocol != own then after == before
      else after == Some((if before.Some? then before.value else []) + [row.tag])
  {
    var rows' := rows + [row];
    var own := row.content.protocol;
    var old_ := ProtocolTags(rows, own, excludedTags);
    var registry := ProtocolTags(rows', own, excludedTags);
    var others := OtherTags(rows', [row.tag], registry, excludedTags);
    ProtocolTagsAppend(rows, row, protocol, excludedTags);
    ProtocolTagsAppend(rows, row, own, excludedTags);
    NewTagUnknown(rows, row);
    assert registry == old_ + [row.tag] && registry[..|old_|] == old_;
    if protocol == own {
      if own in users[i].proxies {
        assert users[i] in users;
      } else {
        forall tag | tag in old_ ensures tag in others {
          ProtocolTagsMembers(rows, own, excludedTags, tag);
          var r :| r in rows && Registered(r, own, excludedTags) && r.tag == tag;
          assert r in rows';
        }
        DropsAll(old_, others);
      }
    }
  }

  lemma NewTagUnknown(rows: seq<ConfigRow>, row: ConfigRow)
    requires UniqueTags(rows + [row])
    ensures forall r :: r in rows ==> r.tag != row.tag
  {
    forall r | r in rows ensures r.tag != row.tag {
      var k :| 0 <= k < |rows| && rows[k] == r;
      assert (rows + [row])[k] == r && (rows + [row])[|rows|] == row;
    }
  }

  lemma {:induction false} DropsAll(tags: seq<string>, dropped: set<string>)
    requires forall tag :: tag in tags ==> tag in dropped
    ensures Without(tags, dropped) == []
  {
    if tags != [] {
      DropsAll(tags[..|tags| - 1], dropped);
    }
  }

  // Without auto-assign the new inbound changes no user's inbounds.
  lemma ManualInboundChangesNobody(
      rows: seq<ConfigRow>, row: ConfigRow, users: seq<User>, i: nat, protocol: string, excludedTags: set<string>)
    requires ExclusionsStored(users, rows) && UniqueTags(rows + [row]) && i < |users|
    requires row.content.protocol in ACCOUNT_PROTOCOLS && Usable(row.tag, excludedTags)
    ensures
      var rows' := rows + [row];
      var user' := ExcludingUser(users[i], row.content.protocol, StoredTags(rows', [row.tag], excludedTags));
      UserTags(user', rows', protocol, excludedTags) == UserTags(users[i], rows, protocol, excludedTags)
  {
    var rows' := rows + [row];
    var tags := StoredTags(rows', [row.tag], excludedTags);
    ProtocolTagsAppend(rows, row, protocol, excludedTags);
    NewTagUnknown(rows, row);
    assert row in rows';
    assert tags == {row.tag};
    if protocol in users[i].proxies {
      var excluded := users[i].proxies[protocol].excluded;
      var registry := ProtocolTags(rows, protocol, excludedTags);
      forall tag | tag in registry ensures tag != row.tag {
        ProtocolTagsMembers(rows, protocol, excludedTags, tag);
      }
      WithoutAlike(registry, excluded, excluded + tags);
      assert (registry + [row.tag])[..|registry|] == registry;
    }
  }
}
