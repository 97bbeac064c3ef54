// Traffic accounting (app/jobs/record_usages.py): what nodes report becomes increments of users, of
// their admins, of the system row and of the nodes' own rows.

module UsageRecords {
  import opened Wrappers
  import opened Seqs
  import opened Counters

  type UserId = nat
  type AdminId = nat
  type NodeId = int

  // One statistic of a node: the user's number and the bytes of one direction.
  datatype Stat = Stat(uid: UserId, value: nat)

  datatype Report = Report(coefficient: real, stats: seq<Stat>)

  datatype UserRow = UserRow(used: int, admin: Option<AdminId>, onlineAt: Option<real>)

  // ---- what a node reports ------------------------------------------------------------------

  function NodeUsers(stats: seq<Stat>): Counter {
    if stats == [] then []
    else
      var stat := stats[|stats| - 1];
      if stat.value == 0 then NodeUsers(stats[..|stats| - 1])
      else Bump(NodeUsers(stats[..|stats| - 1]), stat.uid, stat.value)
  }

  // The bytes that a node reports of a user.
  function Reported(stats: seq<Stat>, uid: UserId): nat {
    if stats == [] then 0
    else Reported(stats[..|stats| - 1], uid) + if stats[|stats| - 1].uid == uid then stats[|stats| - 1].value else 0
  }

  lemma {:induction false} NodeUsersMeans(stats: seq<Stat>, uid: UserId)
    ensures Amount(NodeUsers(stats), uid) == Reported(stats, uid)
    ensures NoDuplicates(Keys(NodeUsers(stats)))
    ensures uid in Keys(NodeUsers(stats)) <==> Reported(stats, uid) > 0
  {
    if stats != [] {
      var earlier, stat := stats[..|stats| - 1], stats[|stats| - 1];
      NodeUsersMeans(earlier, uid);
      if stat.value != 0 {
        BumpAmount(NodeUsers(earlier), stat.uid, stat.value, uid);
        BumpKeys(NodeUsers(earlier), stat.uid, stat.value);
        BumpDistinct(NodeUsers(earlier), stat.uid, stat.value);
      }
    }
  }

  // Every user with traffic has one entry, which holds all its bytes; nobody else has one.
  method GetUsersStats(stats: seq<Stat>) returns (usage: Counter)
    ensures usage == NodeUsers(stats)
    ensures NoDuplicates(Keys(usage)) && forall uid :: uid in Keys(usage) <==> Reported(stats, uid) > 0
    ensures forall i :: 0 <= i < |usage| ==> usage[i].value == Reported(stats, usage[i].key)
  {
    usage := [];
    for i := 0 to |stats|
      invariant usage == NodeUsers(stats[..i])
    {
      assert stats[..i + 1][..i] == stats[..i];
      if stats[i].value != 0 {
        usage := Bump(usage, stats[i].uid, stats[i].value);
      }
    }
    assert stats[..|stats|] == stats;
    NodeUsersMeans(stats, 0);
    forall uid ensures uid in Keys(usage) <==> Reported(stats, uid) > 0 {
      NodeUsersMeans(stats, uid);
    }
    forall i | 0 <= i < |usage| ensures usage[i].value == Reported(stats, usage[i].key) {
      NodeUsersMeans(stats, usage[i].key);
      EntryAmount(usage, i);
    }
  }

  // ---- users --------------------------------------------------------------------------------

  // int(value * coefficient)
  function Weighted(value: int, coefficient: real): int {
    (value as real * coefficient).Floor
  }

  lemma RoundedDown(v: nat, coefficient: real)
    ensures v as real * coefficient - 1.0 < Weighted(v, coefficient) as real <= v as real * coefficient
    ensures v == 0 ==> v as real * coefficient == 0.0 && Weighted(v, coefficient) == 0
  {
  }

  function WeightedBy(coefficient: real): int -> int {
    value => Weighted(value, coefficient)
  }

  function NodeAdded(c: Counter, params: Counter, weight: int -> int): Counter {
    if params == [] then c
    else
      var p := params[|params| - 1];
      Bump(NodeAdded(c, params[..|params| - 1], weight), p.key, weight(p.value))
  }

  function UsersUsage(reports: seq<Report>): Counter {
    if reports == [] then []
    else
      var r := reports[|reports| - 1];
      NodeAdded(UsersUsage(reports[..|reports| - 1]), NodeUsers(r.stats), WeightedBy(r.coefficient))
  }

  // What a user is charged: every node's report weighted and rounded down on its own.
  function Increment(reports: seq<Report>, uid: UserId): int {
    if reports == [] then 0
    else
      var r := reports[|reports| - 1];
      Increment(reports[..|reports| - 1], uid) + Weighted(Reported(r.stats, uid), r.coefficient)
  }

  lemma LastKeyIsNew(c: Counter)
    requires c != [] && NoDuplicates(Keys(c))
    ensures NoDuplicates(Keys(c[..|c| - 1])) && c[|c| - 1].key !in Keys(c[..|c| - 1])
  {
    assert Keys(c) == Keys(c[..|c| - 1]) + [c[|c| - 1].key];
  }

  lemma {:induction false} NodeAddedAmount(c: Counter, params: Counter, weight: int -> int, uid: UserId)
    requires NoDuplicates(Keys(params)) && weight(0) == 0
    ensures Amount(NodeAdded(c, params, weight), uid) == Amount(c, uid) + weight(Amount(params, uid))
  {
    if params != [] {
      var n := |params| - 1;
      LastKeyIsNew(params);
      NodeAddedAmount(c, params[..n], weight, uid);
      BumpAmount(NodeAdded(c, params[..n], weight), params[n].key, weight(params[n].value), uid);
      AbsentAmount(params[..n], params[n].key);
    }
  }

  // The accumulated entry of a user is the sum of the node-wise roundings.
  lemma {:induction false} UsersUsageMeans(reports: seq<Report>, uid: UserId)
    ensures Amount(UsersUsage(reports), uid) == Increment(reports, uid)
  {
    if reports != [] {
      var r := reports[|reports| - 1];
      UsersUsageMeans(reports[..|reports| - 1], uid);
      NodeUsersMeans(r.stats, uid);
      RoundedDown(0, r.coefficient);
      NodeAddedAmount(UsersUsage(reports[..|reports| - 1]), NodeUsers(r.stats), WeightedBy(r.coefficient), uid);
    }
  }

  // The exact weighted traffic, and how many nodes had some.
  function Exact(reports: seq<Report>, uid: UserId): real {
    if reports == [] then 0.0
    else
      var r := reports[|reports| - 1];
      Exact(reports[..|reports| - 1], uid) + Reported(r.stats, uid) as real * r.coefficient
  }

  function Reporters(reports: seq<Report>, uid: UserId): nat {
    if reports == [] then 0
    else Reporters(reports[..|reports| - 1], uid) + if Reported(reports[|reports| - 1].stats, uid) > 0 then 1 else 0
  }

  lemma RealSum(a: int, b: int)
    ensures (a + b) as real == a as real + b as real
  {
  }

  // With k reporting nodes, less than k bytes are lost to rounding, and none is invented.
  ghost predicate RoundedBelow(increment: int, k: nat, exact: real) {
    && increment as real <= exact
    && (if k == 0 then exact == 0.0 && increment == 0 else exact - k as real < increment as real)
  }

  lemma OneMoreReporter(increment: int, k: nat, exact: real, v: nat, coefficient: real)
    requires RoundedBelow(increment, k, exact)
    ensures RoundedBelow(increment + Weighted(v, coefficient), k + (if v > 0 then 1 else 0), exact + v as real * coefficient)
  {
    RoundedDown(v, coefficient);
    var w, x := Weighted(v, coefficient), v as real * coefficient;
    RealSum(increment, w);
    RealSum(k, 1);
  }

  lemma {:induction false} IncrementBounds(reports: seq<Report>, uid: UserId)
    ensures RoundedBelow(Increment(reports, uid), Reporters(reports, uid), Exact(reports, uid))
  {
    if reports != [] {
      var earlier, r := reports[..|reports| - 1], reports[|reports| - 1];
      IncrementBounds(earlier, uid);
      OneMoreReporter(Increment(earlier, uid), Reporters(earlier, uid), Exact(earlier, uid),
                      Reported(r.stats, uid), r.coefficient);
    }
  }

  // ---- admins -------------------------------------------------------------------------------

  function OwnerOf(users: map<UserId, UserRow>, uid: UserId): Option<AdminId> {
    if uid in users then users[uid].admin else None
  }

  // Owners numbered from 1; a user without one counts for nobody.
  function AdminUsage(usage: Counter, users: map<UserId, UserRow>): Counter {
    if usage == [] then []
    else
      var earlier, e := AdminUsage(usage[..|usage| - 1], users), usage[|usage| - 1];
      var owner := OwnerOf(users, e.key);
      if owner.Some? && owner.value != 0 then Bump(earlier, owner.value, e.value) else earlier
  }

  function OwnedSum(ids: seq<UserId>, usage: Counter, users: map<UserId, UserRow>, admin: AdminId): int {
    if ids == [] then 0
    else
      var id := ids[|ids| - 1];
      OwnedSum(ids[..|ids| - 1], usage, users, admin) + if OwnerOf(users, id) == Some(admin) then Amount(usage, id) else 0
  }

  lemma {:induction false} OwnedSumNothing(ids: seq<UserId>, users: map<UserId, UserRow>, admin: AdminId)
    ensures OwnedSum(ids, [], users, admin) == 0
  {
    if ids != [] {
      OwnedSumNothing(ids[..|ids| - 1], users, admin);
    }
  }

  lemma {:induction false} OwnedSumStep(
      ids: seq<UserId>, usage: Counter, e: Entry, users: map<UserId, UserRow>, admin: AdminId)
    requires NoDuplicates(ids)
    ensures OwnedSum(ids, usage + [e], users, admin)
         == OwnedSum(ids, usage, users, admin)
            + if e.key in ids && OwnerOf(users, e.key) == Some(admin) then e.value else 0
  {
    if ids != [] {
      var n := |ids| - 1;
      assert ids == ids[..n] + [ids[n]];
      OwnedSumStep(ids[..n], usage, e, users, admin);
      assert (usage + [e])[..|usage|] == usage;
    }
  }

  // An admin is charged exactly what the users it owns are charged together.
  lemma {:induction false} AdminUsageMeans(
      ids: seq<UserId>, usage: Counter, users: map<UserId, UserRow>, admin: AdminId)
    requires NoDuplicates(ids) && (forall id :: id in ids <==> id in users) && admin != 0
    ensures Amount(AdminUsage(usage, users), admin) == OwnedSum(ids, usage, users, admin)
  {
    if usage == [] {
      OwnedSumNothing(ids, users, admin);
    } else {
      var n := |usage| - 1;
      var e := usage[n];
      AdminUsageMeans(ids, usage[..n], users, admin);
      OwnedSumStep(ids, usage[..n], e, users, admin);
      assert usage == usage[..n] + [e];
      var owner := OwnerOf(users, e.key);
      if owner.Some? && owner.value != 0 {
        BumpAmount(AdminUsage(usage[..n], users), owner.value, e.value, admin);
      }
    }
  }

  // ---- record_user_usages -------------------------------------------------------------------

  function ChargedUser(row: UserRow, id: UserId, usage: Counter, now: real): UserRow {
    row.(used := row.used + Amount(usage, id), onlineAt := if id in Keys(usage) then Some(now) else row.onlineAt)
  }

  function ChargedUsers(users: map<UserId, UserRow>, usage: Counter, now: real): map<UserId, UserRow> {
    map id | id in users :: ChargedUser(users[id], id, usage, now)
  }

  function ChargedAdmins(admins: map<AdminId, int>, usage: Counter): map<AdminId, int> {
    map id | id in admins :: admins[id] + Amount(usage, id)
  }

  lemma ChargeOneUser(users: map<UserId, UserRow>, usage: Counter, e: Entry, now: real)
    ensures ChargedUsers(users, usage + [e], now)
         == if e.key in users
            then var row := ChargedUsers(users, usage, now)[e.key];
                 ChargedUsers(users, usage, now)[e.key := row.(used := row.used + e.value, onlineAt := Some(now))]
            else ChargedUsers(users, usage, now)
  {
    assert (usage + [e])[..|usage|] == usage;
    assert Keys(usage + [e]) == Keys(usage) + [e.key];
  }

  // The users that some node reports traffic of have an entry, even if it rounds to nothing.
  lemma {:induction false} UsersUsageKeys(reports: seq<Report>, uid: UserId)
    ensures uid in Keys(UsersUsage(reports)) <==> Reporters(reports, uid) > 0
  {
    if reports != [] {
      var r := reports[|reports| - 1];
      UsersUsageKeys(reports[..|reports| - 1], uid);
      NodeUsersMeans(r.stats, uid);
      NodeAddedKeys(UsersUsage(reports[..|reports| - 1]), NodeUsers(r.stats), WeightedBy(r.coefficient), uid);
    }
  }

  lemma {:induction false} NodeAddedKeys(c: Counter, params: Counter, weight: int -> int, uid: UserId)
    ensures uid in Keys(NodeAdded(c, params, weight)) <==> uid in Keys(c) || uid in Keys(params)
  {
    if params != [] {
      var n := |params| - 1;
      NodeAddedKeys(c, params[..n], weight, uid);
      BumpKeys(NodeAdded(c, params[..n], weight), params[n].key, weight(params[n].value));
      assert Keys(params) == Keys(params[..n]) + [params[n].key];
    }
  }

  method RecordUserUsages(reports: seq<Report>, users: map<UserId, UserRow>, admins: map<AdminId, int>, now: real)
    returns (users': map<UserId, UserRow>, admins': map<AdminId, int>)
    ensures users'.Keys == users.Keys && admins'.Keys == admins.Keys
    ensures forall id :: id in users ==>
      users'[id] == users[id].(
        used := users[id].used + Increment(reports, id),
        onlineAt := if Reporters(reports, id) > 0 then Some(now) else users[id].onlineAt)
    ensures forall id :: id in admins ==>
      admins'[id] == admins[id] + Amount(AdminUsage(UsersUsage(reports), users), id)
  {
    var usersUsage := SumUsers(reports);
    forall id
      ensures Amount(usersUsage, id) == Increment(reports, id)
      ensures id in Keys(usersUsage) <==> Reporters(reports, id) > 0
    {
      UsersUsageMeans(reports, id);
      UsersUsageKeys(reports, id);
    }
    var adminUsage := SumAdmins(usersUsage, users);
    users' := ChargeUsers(users, usersUsage, now);
    admins' := ChargeAdmins(admins, adminUsage);
  }

  method SumUsers(reports: seq<Report>) returns (usersUsage: Counter)
    ensures usersUsage == UsersUsage(reports)
  {
    usersUsage := [];
    for i := 0 to |reports|
      invariant usersUsage == UsersUsage(reports[..i])
    {
      assert reports[..i + 1][..i] == reports[..i];
      var params := GetUsersStats(reports[i].stats);
      ghost var before := usersUsage;
      for k := 0 to |params|
        invariant usersUsage == NodeAdded(before, params[..k], WeightedBy(reports[i].coefficient))
      {
        assert params[..k + 1][..k] == params[..k];
        usersUsage := Bump(usersUsage, params[k].key, Weighted(params[k].value, reports[i].coefficient));
      }
      assert params[..|params|] == params;
    }
    assert reports[..|reports|] == reports;
  }

  method SumAdmins(usage: Counter, users: map<UserId, UserRow>) returns (adminUsage: Counter)
    ensures adminUsage == AdminUsage(usage, users)
  {
    adminUsage := [];
    for i := 0 to |usage|
      invariant adminUsage == AdminUsage(usage[..i], users)
    {
      assert usage[..i + 1][..i] == usage[..i];
      var admin := OwnerOf(users, usage[i].key);
      if admin.Some? && admin.value != 0 {
        adminUsage := Bump(adminUsage, admin.value, usage[i].value);
      }
    }
    assert usage[..|usage|] == usage;
  }

  method ChargeUsers(users: map<UserId, UserRow>, usage: Counter, now: real) returns (charged: map<UserId, UserRow>)
    ensures charged == ChargedUsers(users, usage, now)
  {
    charged := users;
    for i := 0 to |usage|
      invariant charged == ChargedUsers(users, usage[..i], now)
    {
      assert usage[..i + 1] == usage[..i] + [usage[i]];
      ChargeOneUser(users, usage[..i], usage[i], now);
      if usage[i].key in charged {
        var row := charged[usage[i].key];
        charged := charged[usage[i].key := row.(used := row.used + usage[i].value, onlineAt := Some(now))];
      }
    }
    assert usage[..|usage|] == usage;
  }

  method ChargeAdmins(admins: map<AdminId, int>, usage: Counter) returns (charged: map<AdminId, int>)
    ensures charged == ChargedAdmins(admins, usage)
  {
    charged := admins;
    for i := 0 to |usage|
      invariant charged == ChargedAdmins(admins, usage[..i])
    {
      assert usage[..i + 1][..i] == usage[..i];
      if usage[i].key in charged {
        charged := charged[usage[i].key := charged[usage[i].key] + usage[i].value];
      }
    }
    assert usage[..|usage|] == usage;
  }

  // ---- record_node_usages -------------------------------------------------------------------

  datatype LinkStat = LinkStat(uplink: bool, value: nat)

  datatype Links = Links(up: int, down: int)

  function Along(links: Links, uplink: bool): int {
    if uplink then links.up else links.down
  }

  function LinkOf(stat: LinkStat): Links {
    if stat.uplink then Links(stat.value, 0) else Links(0, stat.value)
  }

  // get_outbounds_stats keeps what is not zero.
  function Params(stats: seq<LinkStat>): seq<Links> {
    if stats == [] then []
    else if stats[|stats| - 1].value == 0 then Params(stats[..|stats| - 1])
    else Params(stats[..|stats| - 1]) + [LinkOf(stats[|stats| - 1])]
  }

  function ParamSum(params: seq<Links>, uplink: bool): int {
    if params == [] then 0 else ParamSum(params[..|params| - 1], uplink) + Along(params[|params| - 1], uplink)
  }

  // What a node reports in a direction.
  function LinkTotal(stats: seq<LinkStat>, uplink: bool): nat {
    if stats == [] then 0
    else
      var last := stats[|stats| - 1];
      LinkTotal(stats[..|stats| - 1], uplink) + if last.uplink == uplink then last.value else 0
  }

  lemma {:induction false} ParamsMean(stats: seq<LinkStat>, uplink: bool)
    ensures ParamSum(Params(stats), uplink) == LinkTotal(stats, uplink)
  {
    if stats != [] {
      var earlier, last := stats[..|stats| - 1], stats[|stats| - 1];
      ParamsMean(earlier, uplink);
      if last.value != 0 {
        ParamSumAppend(Params(earlier), LinkOf(last), uplink);
      }
    }
  }

  lemma ParamSumAppend(params: seq<Links>, links: Links, uplink: bool)
    ensures ParamSum(params + [links], uplink) == ParamSum(params, uplink) + Along(links, uplink)
  {
    assert (params + [links])[..|params|] == params;
  }

  lemma {:induction false} NoParams(stats: seq<LinkStat>, uplink: bool)
    ensures Params(stats) == [] ==> LinkTotal(stats, uplink) == 0
  {
    if stats != [] {
      NoParams(stats[..|stats| - 1], uplink);
    }
  }

  datatype NodeReport = NodeReport(node: NodeId, stats: seq<LinkStat>)

  function NodesTotal(reports: seq<NodeReport>, uplink: bool): nat {
    if reports == [] then 0
    else NodesTotal(reports[..|reports| - 1], uplink) + LinkTotal(reports[|reports| - 1].stats, uplink)
  }

  // What all reports of a node bring.
  function NodeTotal(reports: seq<NodeReport>, node: NodeId, uplink: bool): nat {
    if reports == [] then 0
    else
      var r := reports[|reports| - 1];
      NodeTotal(reports[..|reports| - 1], node, uplink) + if r.node == node then LinkTotal(r.stats, uplink) else 0
  }

  lemma {:induction false} NodeTotalWithin(reports: seq<NodeReport>, node: NodeId, uplink: bool)
    ensures NodeTotal(reports, node, uplink) <= NodesTotal(reports, uplink)
  {
    if reports != [] {
      NodeTotalWithin(reports[..|reports| - 1], node, uplink);
    }
  }

  // A node's row for the hour, counted as zero until it exists.
  function RowOf(rows: map<NodeId, Links>, node: NodeId, uplink: bool): int {
    if node in rows then Along(rows[node], uplink) else 0
  }

  method AddUp(params: seq<Links>, start: Links) returns (sum: Links)
    ensures sum == Links(start.up + ParamSum(params, true), start.down + ParamSum(params, false))
  {
    sum := start;
    for i := 0 to |params|
      invariant sum == Links(start.up + ParamSum(params[..i], true), start.down + ParamSum(params[..i], false))
    {
      assert params[..i + 1][..i] == params[..i];
      sum := Links(sum.up + params[i].up, sum.down + params[i].down);
    }
    assert params[..|params|] == params;
  }

  method RecordNodeStats(rows: map<NodeId, Links>, node: NodeId, params: seq<Links>) returns (rows': map<NodeId, Links>)
    ensures params == [] ==> rows' == rows
    ensures params != [] ==>
      rows' == rows[node := Links(RowOf(rows, node, true) + ParamSum(params, true),
                                  RowOf(rows, node, false) + ParamSum(params, false))]
  {
    if params == [] {
      return rows;
    }
    var row := AddUp(params, Links(RowOf(rows, node, true), RowOf(rows, node, false)));
    rows' := rows[node := row];
  }

  method TotalReported(reports: seq<NodeReport>) returns (totalUp: nat, totalDown: nat)
    ensures totalUp == NodesTotal(reports, true) && totalDown == NodesTotal(reports, false)
  {
    totalUp, totalDown := 0, 0;
    for i := 0 to |reports|
      invariant totalUp == NodesTotal(reports[..i], true) && totalDown == NodesTotal(reports[..i], false)
    {
      assert reports[..i + 1][..i] == reports[..i];
      ParamsMean(reports[i].stats, true);
      ParamsMean(reports[i].stats, false);
      var sum := AddUp(Params(reports[i].stats), Links(totalUp, totalDown));
      totalUp, totalDown := sum.up, sum.down;
    }
    assert reports[..|reports|] == reports;
  }

  method RecordEachNode(reports: seq<NodeReport>, rows: map<NodeId, Links>) returns (rows': map<NodeId, Links>)
    ensures forall n, uplink :: RowOf(rows', n, uplink) == RowOf(rows, n, uplink) + NodeTotal(reports, n, uplink)
  {
    rows' := rows;
    for i := 0 to |reports|
      invariant forall n, uplink :: RowOf(rows', n, uplink) == RowOf(rows, n, uplink) + NodeTotal(reports[..i], n, uplink)
    {
      assert reports[..i + 1][..i] == reports[..i];
      ParamsMean(reports[i].stats, true);
      ParamsMean(reports[i].stats, false);
      NoParams(reports[i].stats, true);
      NoParams(reports[i].stats, false);
      rows' := RecordNodeStats(rows', reports[i].node, Params(reports[i].stats));
    }
    assert reports[..|reports|] == reports;
  }

  // The rows are those of the current hour; disabled says that nodes' own rows are not kept.
  method RecordNodeUsages(reports: seq<NodeReport>, system: Links, rows: map<NodeId, Links>, disabled: bool)
    returns (system': Links, rows': map<NodeId, Links>)
    ensures system' == Links(system.up + NodesTotal(reports, true), system.down + NodesTotal(reports, false))
    ensures disabled ==> rows' == rows
    ensures !disabled ==> forall n, uplink ::
      RowOf(rows', n, uplink) == RowOf(rows, n, uplink) + NodeTotal(reports, n, uplink)
  {
    system', rows' := system, rows;
    var totalUp, totalDown := TotalReported(reports);
    if totalUp == 0 && totalDown == 0 {
      forall n, uplink ensures NodeTotal(reports, n, uplink) == 0 {
        NodeTotalWithin(reports, n, uplink);
      }
      return;
    }
    system' := Links(system.up + totalUp, system.down + totalDown);
    if disabled {
      return;
    }
    rows' := RecordEachNode(reports, rows);
  }

  function SumOver(nodes: seq<NodeId>, f: NodeId -> int): int {
    if nodes == [] then 0 else SumOver(nodes[..|nodes| - 1], f) + f(nodes[|nodes| - 1])
  }

  lemma {:induction false} SumOverStep(nodes: seq<NodeId>, f: NodeId -> int, g: NodeId -> int, node: NodeId, more: int)
    requires NoDuplicates(nodes)
    requires forall n :: g(n) == f(n) + if n == node then more else 0
    ensures SumOver(nodes, g) == SumOver(nodes, f) + if node in nodes then more else 0
  {
    if nodes != [] {
      var n := |nodes| - 1;
      assert nodes == nodes[..n] + [nodes[n]];
      SumOverStep(nodes[..n], f, g, node, more);
    }
  }

  lemma {:induction false} SumOverNothing(nodes: seq<NodeId>, f: NodeId -> int)
    requires forall n :: f(n) == 0
    ensures SumOver(nodes, f) == 0
  {
    if nodes != [] {
      SumOverNothing(nodes[..|nodes| - 1], f);
    }
  }

  // The system grows in each direction by exactly what the nodes' own rows grow by, all nodes taken together.
  lemma {:induction false} SystemGrowthIsNodesGrowth(reports: seq<NodeReport>, nodes: seq<NodeId>, uplink: bool)
    requires NoDuplicates(nodes) && forall i :: 0 <= i < |reports| ==> reports[i].node in nodes
    ensures NodesTotal(reports, uplink) == SumOver(nodes, (n: NodeId) => NodeTotal(reports, n, uplink))
  {
    var f := (n: NodeId) => NodeTotal(reports, n, uplink);
    if reports == [] {
      SumOverNothing(nodes, f);
    } else {
      var earlier, r := reports[..|reports| - 1], reports[|reports| - 1];
      SystemGrowthIsNodesGrowth(earlier, nodes, uplink);
      SumOverStep(nodes, (n: NodeId) => NodeTotal(earlier, n, uplink), f, r.node, LinkTotal(r.stats, uplink));
    }
  }
}
