// No notice is lost, sent too often or kept for ever.

module NotificationHistory {
  import opened Seqs
  import opened Notifications

  // ---- sums and identities do not depend on the order ---------------------------------------

  // How many more batches a queued notice may enter.
  function Attempts(n: Notice, limit: nat): nat {
    if n.tries <= limit then limit + 1 - n.tries else 0
  }

  function Remaining(s: seq<Notice>, limit: nat): nat {
    if s == [] then 0 else Remaining(s[..|s| - 1], limit) + Attempts(s[|s| - 1], limit)
  }

  lemma {:induction false} RemainingConcat(a: seq<Notice>, b: seq<Notice>, limit: nat)
    ensures Remaining(a + b, limit) == Remaining(a, limit) + Remaining(b, limit)
    decreases |b|
  {
    if b == [] {
      assert a + b == a;
    } else {
      assert (a + b)[..|a + b| - 1] == a + b[..|b| - 1];
      RemainingConcat(a, b[..|b| - 1], limit);
    }
  }

  lemma {:induction false} RemainingPermuted(a: seq<Notice>, b: seq<Notice>, limit: nat)
    requires multiset(a) == multiset(b)
    ensures Remaining(a, limit) == Remaining(b, limit)
    decreases |a|
  {
    if a == [] {
      assert b == [] by { assert |multiset(b)| == 0; }
    } else {
      var n := |a| - 1;
      var x := a[n];
      assert a == a[..n] + [x];
      assert x in multiset(b);
      var i :| 0 <= i < |b| && b[i] == x;
      var rest := b[..i] + b[i + 1..];
      assert b == b[..i] + [x] + b[i + 1..];
      assert multiset(a) == multiset(a[..n]) + multiset{x};
      assert multiset(b) == multiset(b[..i]) + multiset{x} + multiset(b[i + 1..]);
      assert multiset(rest) == multiset(b[..i]) + multiset(b[i + 1..]);
      assert multiset(a[..n]) == multiset(a) - multiset{x} && multiset(rest) == multiset(b) - multiset{x};
      RemainingPermuted(a[..n], rest, limit);
      RemainingConcat(b[..i], b[i + 1..], limit);
      RemainingConcat(b[..i], [x], limit);
      RemainingConcat(b[..i] + [x], b[i + 1..], limit);
      OneRemaining(x, limit);
    }
  }

  lemma OneRemaining(n: Notice, limit: nat)
    ensures Remaining([n], limit) == Attempts(n, limit)
  {
    assert [n][..0] == [];
  }

  ghost predicate DistinctIds(s: seq<Notice>) {
    forall i, j :: 0 <= i < j < |s| ==> s[i].id != s[j].id
  }

  lemma {:induction false} RetriedMembers(batch: seq<Notice>, run: Run, k: nat, m: Notice)
    requires m in Retried(batch, run, k)
    ensures exists n :: n in batch && n.id == m.id && m.tries == n.tries + 1 && n.tries + 1 <= run.limit
  {
    var n := |batch| - 1;
    if m in Retried(batch[..n], run, k) {
      RetriedMembers(batch[..n], run, k, m);
    } else {
      assert batch[n] in batch;
    }
  }

  lemma {:induction false} RetriedDistinct(batch: seq<Notice>, run: Run, k: nat)
    requires DistinctIds(batch)
    ensures DistinctIds(Retried(batch, run, k))
  {
    if batch != [] {
      var n := |batch| - 1;
      RetriedDistinct(batch[..n], run, k);
      forall m | m in Retried(batch[..n], run, k) ensures m.id != batch[n].id {
        RetriedMembers(batch[..n], run, k, m);
      }
    }
  }

  lemma {:induction false} RetriedOrGivenUp(batch: seq<Notice>, run: Run, k: nat, id: nat)
    ensures (exists n :: n in batch && n.id == id && n.tries + 1 <= run.limit) <==>
            (exists m :: m in Retried(batch, run, k) && m.id == id)
    ensures (exists n :: n in batch && n.id == id && n.tries + 1 > run.limit) <==>
            (exists m :: m in GivenUp(batch, run) && m.id == id)
  {
    if batch != [] {
      var n := |batch| - 1;
      assert batch == batch[..n] + [batch[n]];
      RetriedOrGivenUp(batch[..n], run, k, id);
    }
  }

  lemma {:induction false} RetriedRemaining(batch: seq<Notice>, run: Run, k: nat)
    requires forall n :: n in batch ==> n.tries <= run.limit
    ensures Remaining(Retried(batch, run, k), run.limit) + |batch| == Remaining(batch, run.limit)
  {
    if batch != [] {
      var n := |batch| - 1;
      RetriedRemaining(batch[..n], run, k);
      assert batch[n] in batch;
      var earlier := Retried(batch[..n], run, k);
      if batch[n].tries + 1 <= run.limit {
        assert Retried(batch, run, k)[..|earlier|] == earlier;
      }
    }
  }

  lemma {:induction false} ExpiredRemaining(expired: seq<Notice>, limit: nat)
    requires forall n :: n in expired ==> n.tries > limit
    ensures Remaining(expired, limit) == 0
  {
    if expired != [] {
      assert expired[|expired| - 1] in expired;
      ExpiredRemaining(expired[..|expired| - 1], limit);
    }
  }

  // Every notice of a failed batch costs one attempt: the total goes down by the batch's size.
  lemma FailedBatchCosts(queue: seq<Notice>, run: Run, batch: seq<Notice>, dropped: seq<Notice>, queue': seq<Notice>)
    requires Ran(queue, run, batch, dropped, queue') && !run.accepted
    ensures Remaining(queue', run.limit) + |batch| <= Remaining(queue, run.limit)
    ensures run.webhooks && queue != [] ==> Remaining(queue', run.limit) + |batch| == Remaining(queue, run.limit)
  {
    if run.webhooks && queue != [] {
      var expired, k :| Drained(queue, run, batch, expired) && dropped == expired + GivenUp(batch, run)
                        && queue' == Retried(batch, run, k);
      assert multiset(batch + expired) == multiset(queue);
      RemainingPermuted(batch + expired, queue, run.limit);
      RemainingConcat(batch, expired, run.limit);
      ExpiredRemaining(expired, run.limit);
      RetriedRemaining(batch, run, k);
    }
  }

  // ---- whole runs ---------------------------------------------------------------------------

  datatype History = History(queue: seq<Notice>, batches: seq<seq<Notice>>, delivered: set<nat>, dropped: set<nat>)

  function Ids(s: seq<Notice>): set<nat> {
    set n | n in s :: n.id
  }

  function Known(h: History): set<nat> {
    Ids(h.queue) + h.delivered + h.dropped
  }

  // How many of the sent batches hold the notice.
  function Entered(batches: seq<seq<Notice>>, id: nat): nat {
    if batches == [] then 0
    else Entered(batches[..|batches| - 1], id) + if id in Ids(batches[|batches| - 1]) then 1 else 0
  }

  function AfterRun(h: History, run: Run, batch: seq<Notice>, dropped: seq<Notice>, queue': seq<Notice>): History {
    History(
      queue',
      if batch == [] then h.batches else h.batches + [batch],
      if run.accepted then h.delivered + Ids(batch) else h.delivered,
      h.dropped + Ids(dropped))
  }

  ghost predicate Queued(h: History, h': History, n: Notice) {
    n.tries == 0 && n.id !in Known(h) && h' == h.(queue := h.queue + [n])
  }

  ghost predicate Sent(
      h: History, h': History, run: Run, batch: seq<Notice>, dropped: seq<Notice>, queue': seq<Notice>, limit: nat)
  {
    run.limit == limit && Ran(h.queue, run, batch, dropped, queue') && h' == AfterRun(h, run, batch, dropped, queue')
  }

  // The retry limit stays what it is.
  ghost predicate Step(h: History, h': History, limit: nat) {
    || (exists n :: Queued(h, h', n))
    || (exists run, batch, dropped, queue' :: Sent(h, h', run, batch, dropped, queue', limit))
  }

  ghost predicate Sound(h: History, limit: nat) {
    && DistinctIds(h.queue)
    && Ids(h.queue) !! h.delivered !! h.dropped
    && (forall n :: n in h.queue ==> n.tries <= limit && Entered(h.batches, n.id) == n.tries)
    && (forall id :: Entered(h.batches, id) <= limit + 1)
    && (forall id :: Entered(h.batches, id) > 0 ==> id in Known(h))
  }

  lemma NothingExpired(queue: seq<Notice>, run: Run, batch: seq<Notice>, expired: seq<Notice>)
    requires Drained(queue, run, batch, expired) && forall n :: n in queue ==> n.tries <= run.limit
    ensures expired == [] && multiset(batch) == multiset(queue)
  {
    forall n ensures n !in expired {
      if n in multiset(expired) {
        assert n in multiset(queue);
      }
    }
    HeadIsMember(expired);
  }

  lemma PermutedNotices(a: seq<Notice>, b: seq<Notice>)
    requires multiset(a) == multiset(b) && DistinctIds(a)
    ensures forall n :: n in a <==> n in b
    ensures Ids(a) == Ids(b) && DistinctIds(b)
  {
    forall n ensures n in a <==> n in b {
      assert n in multiset(a) <==> n in multiset(b);
    }
    forall i, j | 0 <= i < j < |b| ensures b[i].id != b[j].id {
      assert b[i] in a && b[j] in a;
      if b[i] == b[j] {
        CountedOnce(a, b[i]);
        CountedTwice(b, i, j);
      }
    }
  }

  lemma CountedTwice<T>(s: seq<T>, i: nat, j: nat)
    requires i < j < |s| && s[i] == s[j]
    ensures multiset(s)[s[i]] >= 2
  {
    assert s == s[..j] + [s[j]] + s[j + 1..];
    assert s[i] in s[..j];
    assert multiset(s) == multiset(s[..j]) + multiset{s[j]} + multiset(s[j + 1..]);
  }

  lemma OneMoreBatch(batches: seq<seq<Notice>>, batch: seq<Notice>, id: nat)
    ensures Entered(batches + [batch], id) == Entered(batches, id) + if id in Ids(batch) then 1 else 0
  {
    assert (batches + [batch])[..|batches|] == batches;
  }

  lemma EnteredAfter(h: History, run: Run, batch: seq<Notice>, dropped: seq<Notice>, queue': seq<Notice>, id: nat)
    ensures Entered(AfterRun(h, run, batch, dropped, queue').batches, id)
         == Entered(h.batches, id) + if id in Ids(batch) then 1 else 0
  {
    if batch != [] {
      OneMoreBatch(h.batches, batch, id);
    }
  }

  lemma GivenUpIds(batch: seq<Notice>, run: Run, k: nat)
    requires DistinctIds(batch)
    ensures Ids(batch) == Ids(Retried(batch, run, k)) + Ids(GivenUp(batch, run))
    ensures Ids(Retried(batch, run, k)) !! Ids(GivenUp(batch, run))
  {
    forall id
      ensures id in Ids(batch) <==> id in Ids(Retried(batch, run, k)) + Ids(GivenUp(batch, run))
      ensures !(id in Ids(Retried(batch, run, k)) && id in Ids(GivenUp(batch, run)))
    {
      RetriedOrGivenUp(batch, run, k, id);
    }
  }

  // What a run does to the queue of a sound history.
  lemma RunMoves(h: History, run: Run, batch: seq<Notice>, dropped: seq<Notice>, queue': seq<Notice>, limit: nat)
    requires Sound(h, limit) && run.limit == limit && Ran(h.queue, run, batch, dropped, queue')
    requires run.webhooks && h.queue != []
    ensures multiset(batch) == multiset(h.queue)
    ensures run.accepted ==> queue' == [] && dropped == []
    ensures !run.accepted ==> dropped == GivenUp(batch, run) && exists k :: queue' == Retried(batch, run, k)
  {
    if run.accepted {
      NothingExpired(h.queue, run, batch, dropped);
    } else {
      var expired, k :| Drained(h.queue, run, batch, expired) && dropped == expired + GivenUp(batch, run)
                        && queue' == Retried(batch, run, k);
      NothingExpired(h.queue, run, batch, expired);
      assert dropped == GivenUp(batch, run);
    }
  }

  ghost predicate OneMore(h: History, h': History, ids: set<nat>) {
    forall id :: Entered(h'.batches, id) == Entered(h.batches, id) + if id in ids then 1 else 0
  }

  lemma EnteredBound(h: History, h': History, batch: seq<Notice>, limit: nat)
    requires Sound(h, limit) && OneMore(h, h', Ids(batch)) && forall n :: n in batch ==> n in h.queue
    ensures forall n :: n in batch ==> Entered(h'.batches, n.id) == n.tries + 1
    ensures forall id :: Entered(h'.batches, id) <= limit + 1
  {
    forall n | n in batch ensures Entered(h'.batches, n.id) == n.tries + 1 {
      assert n.id in Ids(batch);
    }
    forall id ensures Entered(h'.batches, id) <= limit + 1 {
      if id in Ids(batch) {
        var n :| n in batch && n.id == id;
      }
    }
  }

  lemma RetriedEntered(h: History, h': History, run: Run, batch: seq<Notice>, k: nat)
    requires forall n :: n in batch ==> Entered(h'.batches, n.id) == n.tries + 1
    ensures forall m :: m in Retried(batch, run, k) ==> m.tries <= run.limit && Entered(h'.batches, m.id) == m.tries
  {
    forall m | m in Retried(batch, run, k) ensures m.tries <= run.limit && Entered(h'.batches, m.id) == m.tries {
      RetriedMembers(batch, run, k, m);
    }
  }

  lemma DeliveredSound(h: History, h': History, batch: seq<Notice>, limit: nat)
    requires Sound(h, limit) && multiset(batch) == multiset(h.queue) && OneMore(h, h', Ids(batch))
    requires h'.queue == [] && h'.delivered == h.delivered + Ids(batch) && h'.dropped == h.dropped
    ensures Sound(h', limit) && Known(h') == Known(h)
  {
    PermutedNotices(h.queue, batch);
    EnteredBound(h, h', batch, limit);
  }

  lemma FailedSound(h: History, h': History, run: Run, batch: seq<Notice>, k: nat, limit: nat)
    requires Sound(h, limit) && multiset(batch) == multiset(h.queue) && OneMore(h, h', Ids(batch)) && run.limit == limit
    requires h'.queue == Retried(batch, run, k)
    requires h'.delivered == h.delivered && h'.dropped == h.dropped + Ids(GivenUp(batch, run))
    ensures Sound(h', limit) && Known(h') == Known(h)
  {
    PermutedNotices(h.queue, batch);
    RetriedDistinct(batch, run, k);
    GivenUpIds(batch, run, k);
    EnteredBound(h, h', batch, limit);
    RetriedEntered(h, h', run, batch, k);
    assert Known(h') == Known(h);
    forall id | Entered(h'.batches, id) > 0 ensures id in Known(h') {
      assert Entered(h.batches, id) > 0 || id in Ids(batch);
    }
  }

  // Sending keeps the history sound, and every notice stays in exactly one place.
  lemma SendingKeepsSound(
      h: History, run: Run, batch: seq<Notice>, dropped: seq<Notice>, queue': seq<Notice>, limit: nat)
    requires Sound(h, limit) && run.limit == limit && Ran(h.queue, run, batch, dropped, queue')
    ensures
      var h' := AfterRun(h, run, batch, dropped, queue');
      Sound(h', limit) && Known(h') == Known(h)
  {
    var h' := AfterRun(h, run, batch, dropped, queue');
    if run.webhooks && h.queue != [] {
      forall id ensures Entered(h'.batches, id) == Entered(h.batches, id) + if id in Ids(batch) then 1 else 0 {
        EnteredAfter(h, run, batch, dropped, queue', id);
      }
      RunMoves(h, run, batch, dropped, queue', limit);
      if run.accepted {
        DeliveredSound(h, h', batch, limit);
      } else {
        var k :| queue' == Retried(batch, run, k);
        FailedSound(h, h', run, batch, k, limit);
      }
    } else {
      assert h' == h;
    }
  }

  lemma QueuingKeepsSound(h: History, h': History, n: Notice, limit: nat)
    requires Sound(h, limit) && Queued(h, h', n)
    ensures Sound(h', limit) && Known(h') == Known(h) + {n.id}
  {
    assert Entered(h.batches, n.id) == 0;
    assert Ids(h'.queue) == Ids(h.queue) + {n.id};
    forall m | m in h.queue ensures m.id != n.id {
      assert m.id in Ids(h.queue);
    }
  }

  ghost predicate Runs(hs: seq<History>, limit: nat) {
    && hs != [] && hs[0] == History([], [], {}, {})
    && forall i :: 0 <= i < |hs| - 1 ==> Step(hs[i], hs[i + 1], limit)
  }

  // In every reachable history a notice has entered at most limit + 1 batches, and every notice ever
  // queued is in exactly one of the queue, the delivered and the dropped.
  lemma {:induction false} EveryRunIsSound(hs: seq<History>, limit: nat, i: nat)
    requires Runs(hs, limit) && i < |hs|
    ensures Sound(hs[i], limit)
    ensures i > 0 ==> Known(hs[i - 1]) <= Known(hs[i])
  {
    if i > 0 {
      EveryRunIsSound(hs, limit, i - 1);
      var h, h' := hs[i - 1], hs[i];
      assert Step(hs[i - 1], hs[i - 1 + 1], limit);
      if n :| Queued(h, h', n) {
        QueuingKeepsSound(h, h', n, limit);
      } else {
        var run, batch, dropped, queue' :| Sent(h, h', run, batch, dropped, queue', limit);
        SendingKeepsSound(h, run, batch, dropped, queue', limit);
      }
    }
  }
}
