// The webhook queue (app/jobs/send_notifications.py, app/utils/notification.py): drained on every
// run, refilled with what could not be delivered.

module Notifications {

  type Time = int

  datatype Notice = Notice(id: nat, tries: nat, sendAt: Time)

  // The settings that a run reads, whether the webhooks answer, and the clock: its k-th reading.
  datatype Run = Run(webhooks: bool, limit: nat, timeout: nat, accepted: bool, clock: nat -> Time)

  // From reading `settled` on, the clock has passed every time at which something is to be sent.
  ghost predicate ClockReaches(clock: nat -> Time, settled: nat, queue: seq<Notice>) {
    forall k, n :: k >= settled && n in queue ==> n.sendAt <= clock(k)
  }

  // What goes back to the queue after a failed batch; the clock is read once for each.
  function Retried(batch: seq<Notice>, run: Run, k: nat): seq<Notice> {
    if batch == [] then []
    else
      var earlier, n := Retried(batch[..|batch| - 1], run, k), batch[|batch| - 1];
      if n.tries + 1 > run.limit then earlier
      else earlier + [n.(tries := n.tries + 1, sendAt := run.clock(k + |earlier|) + run.timeout)]
  }

  function GivenUp(batch: seq<Notice>, run: Run): seq<Notice> {
    if batch == [] then []
    else
      var earlier, n := GivenUp(batch[..|batch| - 1], run), batch[|batch| - 1];
      if n.tries + 1 > run.limit then earlier + [n] else earlier
  }

  // The queue splits into the batch and what was tried too often.
  ghost predicate Drained(queue: seq<Notice>, run: Run, batch: seq<Notice>, expired: seq<Notice>) {
    && multiset(batch) + multiset(expired) == multiset(queue)
    && (forall n :: n in batch ==> n.tries <= run.limit)
    && (forall n :: n in expired ==> n.tries > run.limit)
  }

  // One run: what it sends, what it drops and what it leaves in the queue.
  ghost predicate Ran(queue: seq<Notice>, run: Run, batch: seq<Notice>, dropped: seq<Notice>, queue': seq<Notice>) {
    if !run.webhooks || queue == [] then queue' == queue && batch == [] && dropped == []
    else if run.accepted then Drained(queue, run, batch, dropped) && queue' == []
    else exists expired, k ::
      && Drained(queue, run, batch, expired)
      && dropped == expired + GivenUp(batch, run) && queue' == Retried(batch, run, k)
  }

  class Queue {
    var queue: seq<Notice>

    constructor ()
      ensures queue == []
    {
      queue := [];
    }

    method Notify(webhooks: bool, n: Notice)
      modifies this
      ensures queue == if webhooks then old(queue) + [n] else old(queue)
    {
      if webhooks {
        queue := queue + [n];
      }
    }

    // A notice that is not due yet goes to the end and comes round again, until the clock gets there.
    method Drain(run: Run, ghost settled: nat) returns (batch: seq<Notice>, expired: seq<Notice>, k: nat)
      requires ClockReaches(run.clock, settled, queue)
      modifies this
      ensures queue == [] && Drained(old(queue), run, batch, expired)
    {
      batch, expired, k := [], [], 0;
      while queue != []
        invariant multiset(batch) + multiset(expired) + multiset(queue) == multiset(old(queue))
        invariant forall n :: n in batch ==> n.tries <= run.limit
        invariant forall n :: n in expired ==> n.tries > run.limit
        invariant ClockReaches(run.clock, settled, queue)
        decreases if k < settled then settled - k else 0, |queue|
      {
        var n := queue[0];
        assert queue == [n] + queue[1..];
        queue := queue[1..];
        if n.tries > run.limit {
          expired := expired + [n];
        } else {
          var now := run.clock(k);
          k := k + 1;
          if n.sendAt > now {
            queue := queue + [n];
          } else {
            batch := batch + [n];
          }
        }
      }
    }

    method SendNotifications(run: Run, ghost settled: nat) returns (batch: seq<Notice>, dropped: seq<Notice>)
      requires ClockReaches(run.clock, settled, queue)
      modifies this
      ensures Ran(old(queue), run, batch, dropped, queue)
    {
      if queue == [] || !run.webhooks {
        return [], [];
      }
      var k: nat;
      batch, dropped, k := Drain(run, settled);
      ghost var expired, start := dropped, k;
      if run.accepted {
        return;
      }
      for i := 0 to |batch|
        invariant queue == Retried(batch[..i], run, start) && k == start + |queue|
        invariant dropped == expired + GivenUp(batch[..i], run)
      {
        assert batch[..i + 1][..i] == batch[..i];
        if batch[i].tries + 1 > run.limit {
          dropped := dropped + [batch[i]];
        } else {
          queue := queue + [batch[i].(tries := batch[i].tries + 1, sendAt := run.clock(k) + run.timeout)];
          k := k + 1;
        }
      }
      assert batch[..|batch|] == batch;
    }
  }
}
