// Traffic and registrations per bucket (app/db/crud/stats.py, get_stats_history).

module StatsHistory {
  import opened Wrappers
  import opened Calendar
  import opened BucketLists
  import opened StatsBuckets

  type NodeId = int

  // Moments in the database are microseconds in UTC.
  datatype Usage = Usage(createdAt: nat, node: Option<NodeId>, uplink: Option<int>, downlink: Option<int>)

  // round rounds to two decimals.
  datatype Query = Query(start: nat, end: nat, g: Granularity, clock: nat -> nat, round: real -> real)

  // The window of a query and the bucket that a moment of it belongs to.
  datatype Window = Window(start: nat, end: nat, period: nat -> nat, round: real -> real)

  datatype Traffic = Traffic(uplink: int, downlink: int)

  datatype TrafficPoint = TrafficPoint(period: nat, uplink: int, downlink: int, total: int)

  datatype Series = Series(node: NodeId, points: seq<TrafficPoint>)

  datatype GrowthPoint = GrowthPoint(period: nat, count: nat, total: nat, percent: Option<real>)

  // The clock shows the local time of a moment, in microseconds since the first midnight.
  ghost predicate Monotone(clock: nat -> nat) {
    forall t, u :: t <= u ==> clock(t) <= clock(u)
  }

  // A clock at a fixed offset from UTC.
  function FixedOffset(offset: int): nat -> nat {
    (t: nat) => if t + offset >= 0 then t + offset else 0
  }

  lemma FixedOffsetMonotone(offset: int)
    ensures Monotone(FixedOffset(offset))
  {
  }

  predicate InWindow(w: Window, t: nat) {
    w.start <= t <= w.end
  }

  function WindowOf(q: Query): Window {
    Window(q.start, q.end, (t: nat) => BucketStart(q.g)(q.clock(t)), q.round)
  }

  // In the window and, if a period is given, in that one.
  predicate Falls(w: Window, t: nat, period: Option<nat>) {
    InWindow(w, t) && (period.Some? ==> w.period(t) == period.value)
  }

  function OrZero(x: Option<int>): int {
    if x.Some? then x.value else 0
  }

  function Plus(a: Traffic, b: Traffic): Traffic {
    Traffic(a.uplink + b.uplink, a.downlink + b.downlink)
  }

  // The traffic of a node in a period, or in the whole window.
  function TrafficIn(usages: seq<Usage>, w: Window, node: NodeId, period: Option<nat>): Traffic
  {
    if usages == [] then Traffic(0, 0)
    else
      var earlier := TrafficIn(usages[..|usages| - 1], w, node, period);
      var u := usages[|usages| - 1];
      if u.node == Some(node) && Falls(w, u.createdAt, period)
      then Plus(earlier, Traffic(OrZero(u.uplink), OrZero(u.downlink))) else earlier
  }

  function CreatedIn(created: seq<nat>, w: Window, period: Option<nat>): nat
  {
    if created == [] then 0
    else CreatedIn(created[..|created| - 1], w, period)
         + if Falls(w, created[|created| - 1], period) then 1 else 0
  }

  function CreatedBefore(created: seq<nat>, t: nat): nat {
    if created == [] then 0
    else CreatedBefore(created[..|created| - 1], t) + if created[|created| - 1] < t then 1 else 0
  }

  // ---- the query ----------------------------------------------------------------------------

  function EmptyBuckets(buckets: seq<nat>): map<nat, Traffic> {
    map b | b in buckets :: Traffic(0, 0)
  }

  ghost predicate Tallied(
      tally: map<NodeId, map<nat, Traffic>>, nodes: seq<NodeId>, buckets: seq<nat>, usages: seq<Usage>, w: Window)
  {
    && (forall node :: node in tally <==> node in nodes)
    && (forall node :: node in tally ==> forall b :: b in tally[node] <==> b in buckets)
    && (forall node, b :: node in tally && b in tally[node] ==> tally[node][b] == TrafficIn(usages, w, node, Some(b)))
  }

  method TallyTraffic(nodes: seq<NodeId>, buckets: seq<nat>, usages: seq<Usage>, w: Window)
    returns (tally: map<NodeId, map<nat, Traffic>>)
    ensures Tallied(tally, nodes, buckets, usages, w)
  {
    tally := map node | node in nodes :: EmptyBuckets(buckets);
    for i := 0 to |usages|
      invariant Tallied(tally, nodes, buckets, usages[..i], w)
    {
      assert usages[..i + 1][..i] == usages[..i];
      var u := usages[i];
      if InWindow(w, u.createdAt) && u.node.Some? && u.node.value in tally {
        var node, period := u.node.value, w.period(u.createdAt);
        if period in tally[node] {
          var sum := Plus(tally[node][period], Traffic(OrZero(u.uplink), OrZero(u.downlink)));
          tally := tally[node := tally[node][period := sum]];
        }
      }
    }
    assert usages[..|usages|] == usages;
  }

  method CountCreated(buckets: seq<nat>, created: seq<nat>, w: Window) returns (counts: map<nat, nat>)
    ensures forall b :: b in counts <==> b in buckets
    ensures forall b :: b in counts ==> counts[b] == CreatedIn(created, w, Some(b))
  {
    counts := map b | b in buckets :: 0;
    for i := 0 to |created|
      invariant forall b :: b in counts <==> b in buckets
      invariant forall b :: b in counts ==> counts[b] == CreatedIn(created[..i], w, Some(b))
    {
      assert created[..i + 1][..i] == created[..i];
      if InWindow(w, created[i]) {
        var period := w.period(created[i]);
        if period in counts {
          counts := counts[period := counts[period] + 1];
        }
      }
    }
    assert created[..|created|] == created;
  }

  function PointFor(usages: seq<Usage>, w: Window, node: NodeId, b: nat): TrafficPoint
  {
    var t := TrafficIn(usages, w, node, Some(b));
    TrafficPoint(b, t.uplink, t.downlink, t.uplink + t.downlink)
  }

  function PointsFor(usages: seq<Usage>, w: Window, node: NodeId, buckets: seq<nat>): seq<TrafficPoint> {
    if buckets == [] then []
    else PointsFor(usages, w, node, buckets[..|buckets| - 1]) + [PointFor(usages, w, node, buckets[|buckets| - 1])]
  }

  function BucketSum(created: seq<nat>, w: Window, buckets: seq<nat>): nat
  {
    if buckets == [] then 0
    else BucketSum(created, w, buckets[..|buckets| - 1]) + CreatedIn(created, w, Some(buckets[|buckets| - 1]))
  }

  function GrowthFor(created: seq<nat>, w: Window, buckets: seq<nat>): seq<GrowthPoint> {
    if buckets == [] then []
    else
      var last := buckets[|buckets| - 1];
      var count := CreatedIn(created, w, Some(last));
      GrowthFor(created, w, buckets[..|buckets| - 1])
        + [GrowthPoint(last, count, CreatedBefore(created, w.start) + BucketSum(created, w, buckets),
                       Percent(PreviousCount(created, w, buckets), count, w.round))]
  }

  // The registrations in the bucket before the last.
  function PreviousCount(created: seq<nat>, w: Window, buckets: seq<nat>): Option<nat> {
    if |buckets| < 2 then None else Some(CreatedIn(created, w, Some(buckets[|buckets| - 2])))
  }

  function Percent(previous: Option<nat>, count: nat, round: real -> real): Option<real> {
    match previous
    case None => None
    case Some(p) =>
      if p != 0 then Some(round((count - p) as real / p as real * 100.0))
      else Some(if count != 0 then 100.0 else 0.0)
  }

  // The buckets of the query's window.
  ghost function QueryBuckets(q: Query): seq<nat> {
    CalendarLawful(q.g);
    assert Own(BucketStart(q.g), NextBucket(q.g), q.clock(q.start));
    Buckets(BucketStart(q.g), NextBucket(q.g), BucketStart(q.g)(q.clock(q.start)), BucketStart(q.g)(q.clock(q.end)))
  }

  method NodePoints(values: map<nat, Traffic>, usages: seq<Usage>, w: Window, node: NodeId, buckets: seq<nat>)
    returns (points: seq<TrafficPoint>)
    requires forall b :: b in buckets ==> b in values && values[b] == TrafficIn(usages, w, node, Some(b))
    ensures points == PointsFor(usages, w, node, buckets)
  {
    points := [];
    for k := 0 to |buckets|
      invariant points == PointsFor(usages, w, node, buckets[..k])
    {
      assert buckets[..k + 1][..k] == buckets[..k];
      var sum := values[buckets[k]];
      points := points + [TrafficPoint(buckets[k], sum.uplink, sum.downlink, sum.uplink + sum.downlink)];
    }
    assert buckets[..|buckets|] == buckets;
  }

  method TrafficSeries(nodes: seq<NodeId>, usages: seq<Usage>, buckets: seq<nat>, w: Window)
    returns (traffic: seq<Series>)
    ensures |traffic| == |nodes|
    ensures forall i :: 0 <= i < |nodes| ==> traffic[i] == Series(nodes[i], PointsFor(usages, w, nodes[i], buckets))
  {
    var tally := TallyTraffic(nodes, buckets, usages, w);
    assert forall node :: node in nodes ==> node in tally;
    traffic := [];
    for i := 0 to |nodes|
      invariant |traffic| == i
      invariant forall k :: 0 <= k < i ==> traffic[k] == Series(nodes[k], PointsFor(usages, w, nodes[k], buckets))
    {
      assert nodes[i] in nodes;
      var points := NodePoints(tally[nodes[i]], usages, w, nodes[i], buckets);
      traffic := traffic + [Series(nodes[i], points)];
    }
  }

  method GrowthSeries(created: seq<nat>, buckets: seq<nat>, w: Window) returns (users: seq<GrowthPoint>)
    ensures users == GrowthFor(created, w, buckets)
  {
    var counts := CountCreated(buckets, created, w);
    var runningTotal := CreatedBefore(created, w.start);
    users := [];
    var previous: Option<nat> := None;
    for k := 0 to |buckets|
      invariant previous == if k == 0 then None else Some(CreatedIn(created, w, Some(buckets[k - 1])))
      invariant runningTotal == CreatedBefore(created, w.start) + BucketSum(created, w, buckets[..k])
      invariant users == GrowthFor(created, w, buckets[..k])
    {
      assert buckets[k] in counts;
      assert buckets[..k + 1][..k] == buckets[..k];
      var count := counts[buckets[k]];
      runningTotal := runningTotal + count;
      users := users + [GrowthPoint(buckets[k], count, runningTotal, Percent(previous, count, w.round))];
      previous := Some(count);
    }
    assert buckets[..|buckets|] == buckets;
  }

  method GetStatsHistory(nodes: seq<NodeId>, usages: seq<Usage>, created: seq<nat>, q: Query)
    returns (traffic: seq<Series>, users: seq<GrowthPoint>)
    ensures |traffic| == |nodes|
    ensures forall i :: 0 <= i < |nodes| ==>
      traffic[i] == Series(nodes[i], PointsFor(usages, WindowOf(q), nodes[i], QueryBuckets(q)))
    ensures users == GrowthFor(created, WindowOf(q), QueryBuckets(q))
  {
    CalendarLawful(q.g);
    assert Own(BucketStart(q.g), NextBucket(q.g), q.clock(q.start));
    var buckets := BucketList(
      BucketStart(q.g), NextBucket(q.g), BucketStart(q.g)(q.clock(q.start)), BucketStart(q.g)(q.clock(q.end)));
    traffic := TrafficSeries(nodes, usages, buckets, WindowOf(q));
    users := GrowthSeries(created, buckets, WindowOf(q));
  }
}
