// Nothing in the window of a query is lost or counted twice.

module StatsConservation {
  import opened Wrappers
  import opened Seqs
  import opened Calendar
  import opened BucketLists
  import opened StatsBuckets
  import opened StatsHistory

  // Every moment of the window has its bucket in the list, and the list repeats none.
  ghost predicate Covers(w: Window, buckets: seq<nat>) {
    NoDuplicates(buckets) && forall t :: InWindow(w, t) ==> w.period(t) in buckets
  }

  lemma Between(start: nat -> nat, next: nat -> nat, first: nat, m: nat, last: nat)
    requires Lawful(start, next) && first <= m <= last
    ensures start(start(first)) == start(first) && start(m) in Buckets(start, next, start(first), start(last))
  {
    assert Own(start, next, first) && Own(start, next, m);
    StartMonotone(start, next, first, m);
    StartMonotone(start, next, m, last);
    ListedExactlyWhen(start, next, start(first), start(last), start(m));
  }

  lemma WindowCovered(q: Query)
    requires Monotone(q.clock)
    ensures Covers(WindowOf(q), QueryBuckets(q))
  {
    var start, next := BucketStart(q.g), NextBucket(q.g);
    CalendarLawful(q.g);
    assert Own(start, next, q.clock(q.start));
    ListIncreases(start, next, start(q.clock(q.start)), start(q.clock(q.end)));
    forall t | InWindow(WindowOf(q), t) ensures WindowOf(q).period(t) in QueryBuckets(q) {
      Between(start, next, q.clock(q.start), q.clock(t), q.clock(q.end));
    }
  }

  function SumPoints(points: seq<TrafficPoint>): Traffic {
    if points == [] then Traffic(0, 0)
    else Plus(SumPoints(points[..|points| - 1]), Traffic(points[|points| - 1].uplink, points[|points| - 1].downlink))
  }

  lemma {:induction false} OneMoreUsage(usages: seq<Usage>, u: Usage, w: Window, node: NodeId, buckets: seq<nat>)
    requires NoDuplicates(buckets)
    ensures
      var before := SumPoints(PointsFor(usages, w, node, buckets));
      var after := SumPoints(PointsFor(usages + [u], w, node, buckets));
      after == if u.node == Some(node) && InWindow(w, u.createdAt) && w.period(u.createdAt) in buckets
               then Plus(before, Traffic(OrZero(u.uplink), OrZero(u.downlink))) else before
  {
    if buckets != [] {
      var n := |buckets| - 1;
      OneMoreUsage(usages, u, w, node, buckets[..n]);
      LastPoint(usages, w, node, buckets);
      LastPoint(usages + [u], w, node, buckets);
      OneMoreIn(usages, u, w, node, buckets[n]);
      assert buckets == buckets[..n] + [buckets[n]];
    }
  }

  lemma OneMoreIn(usages: seq<Usage>, u: Usage, w: Window, node: NodeId, b: nat)
    ensures TrafficIn(usages + [u], w, node, Some(b))
         == if u.node == Some(node) && Falls(w, u.createdAt, Some(b))
            then Plus(TrafficIn(usages, w, node, Some(b)), Traffic(OrZero(u.uplink), OrZero(u.downlink)))
            else TrafficIn(usages, w, node, Some(b))
  {
    assert (usages + [u])[..|usages|] == usages;
  }

  lemma LastPoint(usages: seq<Usage>, w: Window, node: NodeId, buckets: seq<nat>)
    requires buckets != []
    ensures
      var n := |buckets| - 1;
      SumPoints(PointsFor(usages, w, node, buckets))
      == Plus(SumPoints(PointsFor(usages, w, node, buckets[..n])), TrafficIn(usages, w, node, Some(buckets[n])))
  {
    var earlier := PointsFor(usages, w, node, buckets[..|buckets| - 1]);
    assert PointsFor(usages, w, node, buckets)[..|earlier|] == earlier;
  }

  lemma {:induction false} NoUsage(w: Window, node: NodeId, buckets: seq<nat>)
    ensures SumPoints(PointsFor([], w, node, buckets)) == Traffic(0, 0)
  {
    if buckets != [] {
      NoUsage(w, node, buckets[..|buckets| - 1]);
      LastPoint([], w, node, buckets);
    }
  }

  // The points of a node add up to its traffic in the window.
  lemma {:induction false} TrafficConserved(usages: seq<Usage>, w: Window, node: NodeId, buckets: seq<nat>)
    requires Covers(w, buckets)
    ensures SumPoints(PointsFor(usages, w, node, buckets)) == TrafficIn(usages, w, node, None)
  {
    if usages == [] {
      NoUsage(w, node, buckets);
    } else {
      var earlier, u := usages[..|usages| - 1], usages[|usages| - 1];
      TrafficConserved(earlier, w, node, buckets);
      OneMoreUsage(earlier, u, w, node, buckets);
      assert earlier + [u] == usages;
      assert InWindow(w, u.createdAt) ==> w.period(u.createdAt) in buckets;
    }
  }

  lemma {:induction false} OneMoreUser(created: seq<nat>, t: nat, w: Window, buckets: seq<nat>)
    requires NoDuplicates(buckets)
    ensures BucketSum(created + [t], w, buckets)
         == BucketSum(created, w, buckets) + if InWindow(w, t) && w.period(t) in buckets then 1 else 0
  {
    if buckets != [] {
      var n := |buckets| - 1;
      OneMoreUser(created, t, w, buckets[..n]);
      assert (created + [t])[..|created|] == created;
      assert buckets == buckets[..n] + [buckets[n]];
    }
  }

  lemma {:induction false} NoUser(w: Window, buckets: seq<nat>)
    ensures BucketSum([], w, buckets) == 0
  {
    if buckets != [] {
      NoUser(w, buckets[..|buckets| - 1]);
    }
  }

  lemma {:induction false} UsersConserved(created: seq<nat>, w: Window, buckets: seq<nat>)
    requires Covers(w, buckets)
    ensures BucketSum(created, w, buckets) == CreatedIn(created, w, None)
  {
    if created == [] {
      NoUser(w, buckets);
    } else {
      var t := created[|created| - 1];
      UsersConserved(created[..|created| - 1], w, buckets);
      OneMoreUser(created[..|created| - 1], t, w, buckets);
      assert created == created[..|created| - 1] + [t];
    }
  }

  lemma {:induction false} BeforeOrIn(created: seq<nat>, w: Window)
    requires w.start <= w.end
    ensures CreatedBefore(created, w.start) + CreatedIn(created, w, None) == CreatedBefore(created, w.end + 1)
  {
    if created != [] {
      BeforeOrIn(created[..|created| - 1], w);
    }
  }

  // The last running total counts everybody created up to the end of the window.
  lemma LastTotalCountsEverybody(created: seq<nat>, w: Window, buckets: seq<nat>)
    requires Covers(w, buckets) && w.start <= w.end
    ensures
      var users := GrowthFor(created, w, buckets);
      users != [] && users[|users| - 1].total == CreatedBefore(created, w.end + 1)
  {
    assert InWindow(w, w.start);
    UsersConserved(created, w, buckets);
    BeforeOrIn(created, w);
  }

  ghost predicate Conserved(usages: seq<Usage>, created: seq<nat>, w: Window, node: NodeId, buckets: seq<nat>) {
    var users := GrowthFor(created, w, buckets);
    && SumPoints(PointsFor(usages, w, node, buckets)) == TrafficIn(usages, w, node, None)
    && (w.start <= w.end ==> users != [] && users[|users| - 1].total == CreatedBefore(created, w.end + 1))
  }

  lemma CoveredConserves(usages: seq<Usage>, created: seq<nat>, w: Window, node: NodeId, buckets: seq<nat>)
    requires Covers(w, buckets)
    ensures Conserved(usages, created, w, node, buckets)
  {
    TrafficConserved(usages, w, node, buckets);
    if w.start <= w.end {
      LastTotalCountsEverybody(created, w, buckets);
    }
  }

  // The answer to a query, whatever the rows: each node's points add up to its traffic in the
  // window, and the last total counts everybody created by then.
  lemma HistoryConserves(usages: seq<Usage>, created: seq<nat>, q: Query, node: NodeId)
    requires Monotone(q.clock)
    ensures Conserved(usages, created, WindowOf(q), node, QueryBuckets(q))
  {
    WindowCovered(q);
    CoveredConserves(usages, created, WindowOf(q), node, QueryBuckets(q));
  }

  // So it is for a time zone at a fixed offset.
  lemma FixedOffsetConserves(usages: seq<Usage>, created: seq<nat>, q: Query, offset: int, node: NodeId)
    requires q.clock == FixedOffset(offset)
    ensures Conserved(usages, created, WindowOf(q), node, QueryBuckets(q))
  {
    FixedOffsetMonotone(offset);
    HistoryConserves(usages, created, q, node);
  }
}
