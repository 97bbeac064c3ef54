// The calls that worker threads make on running nodes, in any interleaving (app/xray/operations.py,
// the threaded helpers). Adding a client that exists and removing one that does not are no-ops.

module UserThreads {
  import opened Wrappers
  import opened NodeTables
  import opened NodeClients

  // What a node's core holds under an inbound's tag and an email.
  datatype Cell = Cell(node: NodeId, tag: string, email: Email)

  type Held = map<Cell, Client>

  datatype Call = Add(cell: Cell, client: Client) | Remove(cell: Cell) | Restart(node: NodeId)

  type Thread = seq<Call>

  datatype State = State(held: Held, threads: seq<Thread>)

  function Look(held: Held, c: Cell): Option<Client> {
    if c in held then Some(held[c]) else None
  }

  // A restart replaces all that the node holds by what its regenerated config asks for.
  function Exec(held: Held, call: Call, regenerated: Held): Held {
    match call
    case Add(c, client) => if c in held then held else held[c := client]
    case Remove(c) => held - {c}
    case Restart(node) =>
      (map c | c in held && c.node != node :: held[c]) + (map c | c in regenerated && c.node == node :: regenerated[c])
  }

  function Step(s: State, i: nat, regenerated: Held): State {
    if i >= |s.threads| || s.threads[i] == [] then s
    else State(Exec(s.held, s.threads[i][0], regenerated), s.threads[i := s.threads[i][1..]])
  }

  function Run(s: State, schedule: seq<nat>, regenerated: Held): State {
    if schedule == [] then s
    else Step(Run(s, schedule[..|schedule| - 1], regenerated), schedule[|schedule| - 1], regenerated)
  }

  ghost predicate Finished(s: State) {
    forall i :: 0 <= i < |s.threads| ==> s.threads[i] == []
  }

  ghost predicate Pending(threads: seq<Thread>, call: Call) {
    exists i :: 0 <= i < |threads| && call in threads[i]
  }

  // The thread adds nothing else to the cell, and whoever removes a wanted client adds it again.
  ghost predicate Fine(thread: Thread, c: Cell, want: Option<Client>) {
    && (forall client :: Add(c, client) in thread ==> want == Some(client))
    && (forall k :: 0 <= k < |thread| && thread[k] == Remove(c) && want.Some? ==> Add(c, want.value) in thread[k + 1..])
  }

  ghost predicate AllFine(threads: seq<Thread>, c: Cell, want: Option<Client>) {
    forall i :: 0 <= i < |threads| ==> Fine(threads[i], c, want)
  }

  // The cell holds what is wanted, or a call still to come makes up for it.
  ghost predicate Promised(s: State, c: Cell, want: Option<Client>) {
    || Look(s.held, c) == want
    || Pending(s.threads, Remove(c))
    || Pending(s.threads, Restart(c.node))
    || (Look(s.held, c) == None && want.Some? && Pending(s.threads, Add(c, want.value)))
  }

  lemma StillPending(s: State, i: nat, regenerated: Held, call: Call)
    requires i < |s.threads| && s.threads[i] != []
    requires Pending(s.threads, call) && call != s.threads[i][0]
    ensures Pending(Step(s, i, regenerated).threads, call)
  {
    var k :| 0 <= k < |s.threads| && call in s.threads[k];
    var threads := Step(s, i, regenerated).threads;
    if k == i {
      assert s.threads[i] == [s.threads[i][0]] + threads[i];
    }
    assert call in threads[k];
  }

  lemma NothingNewPending(s: State, i: nat, regenerated: Held, call: Call)
    requires Pending(Step(s, i, regenerated).threads, call)
    ensures Pending(s.threads, call)
  {
    var threads := Step(s, i, regenerated).threads;
    var k :| 0 <= k < |threads| && call in threads[k];
    assert call in s.threads[k];
  }

  lemma StepFine(s: State, i: nat, regenerated: Held, c: Cell, want: Option<Client>)
    requires AllFine(s.threads, c, want)
    ensures AllFine(Step(s, i, regenerated).threads, c, want)
  {
    if i < |s.threads| && s.threads[i] != [] {
      var thread, rest := s.threads[i], s.threads[i][1..];
      assert Fine(thread, c, want);
      forall k | 0 <= k < |rest| && rest[k] == Remove(c) && want.Some? ensures Add(c, want.value) in rest[k + 1..] {
        assert thread[k + 1] == rest[k] && thread[k + 2..] == rest[k + 1..];
      }
    }
  }

  lemma StepPromised(s: State, i: nat, regenerated: Held, c: Cell, want: Option<Client>)
    requires AllFine(s.threads, c, want) && Look(regenerated, c) == want
    requires Promised(s, c, want)
    ensures Promised(Step(s, i, regenerated), c, want)
  {
    if i < |s.threads| && s.threads[i] != [] {
      var s' := Step(s, i, regenerated);
      var call := s.threads[i][0];
      assert Fine(s.threads[i], c, want);
      if call == Remove(c) {
        if want.Some? {
          assert Add(c, want.value) in s'.threads[i];
        }
      } else if call == Restart(c.node) {
        assert Look(s'.held, c) == want;
      } else {
        if Pending(s.threads, Remove(c)) {
          StillPending(s, i, regenerated, Remove(c));
        } else if Pending(s.threads, Restart(c.node)) {
          StillPending(s, i, regenerated, Restart(c.node));
        } else if call.Add? && call.cell == c {
          assert Add(c, call.client) in s.threads[i];
        } else if Look(s.held, c) != want {
          StillPending(s, i, regenerated, Add(c, want.value));
        }
      }
    }
  }

  lemma StepUnpromised(s: State, i: nat, regenerated: Held, c: Cell, want: Option<Client>)
    requires AllFine(s.threads, c, want) && !Promised(s, c, want)
    ensures !Promised(Step(s, i, regenerated), c, want)
  {
    var s' := Step(s, i, regenerated);
    if i < |s.threads| && s.threads[i] != [] {
      var call := s.threads[i][0];
      assert Fine(s.threads[i], c, want);
      assert call in s.threads[i];
      assert Pending(s.threads, call);
      assert Look(s'.held, c) == Look(s.held, c);
      forall x | Pending(s'.threads, x) ensures Pending(s.threads, x) {
        NothingNewPending(s, i, regenerated, x);
      }
    }
  }

  // Whatever the interleaving, a finished run leaves what is wanted in a cell exactly when it was
  // promised at the start.
  lemma {:induction false} ConvergesExactlyWhen(
      s: State, schedule: seq<nat>, regenerated: Held, c: Cell, want: Option<Client>)
    requires AllFine(s.threads, c, want) && Look(regenerated, c) == want
    ensures
      var end := Run(s, schedule, regenerated);
      && AllFine(end.threads, c, want)
      && (Promised(end, c, want) <==> Promised(s, c, want))
      && (Finished(end) ==> (Look(end.held, c) == want <==> Promised(s, c, want)))
  {
    if schedule != [] {
      var earlier := schedule[..|schedule| - 1];
      ConvergesExactlyWhen(s, earlier, regenerated, c, want);
      var s' := Run(s, earlier, regenerated);
      StepFine(s', schedule[|schedule| - 1], regenerated, c, want);
      if Promised(s', c, want) {
        StepPromised(s', schedule[|schedule| - 1], regenerated, c, want);
      } else {
        StepUnpromised(s', schedule[|schedule| - 1], regenerated, c, want);
      }
    }
  }

  // ---- every run can be finished ------------------------------------------------------------

  function Work(threads: seq<Thread>): nat {
    if threads == [] then 0 else Work(threads[..|threads| - 1]) + |threads[|threads| - 1]|
  }

  lemma {:induction false} WorkDrops(threads: seq<Thread>, i: nat)
    requires i < |threads| && threads[i] != []
    ensures Work(threads[i := threads[i][1..]]) == Work(threads) - 1
  {
    var n := |threads| - 1;
    var less := threads[i := threads[i][1..]];
    if i < n {
      assert less[..n] == threads[..n][i := threads[i][1..]];
      WorkDrops(threads[..n], i);
    } else {
      assert less[..n] == threads[..n];
    }
  }

  lemma {:induction false} CanFinish(s: State, schedule: seq<nat>, regenerated: Held) returns (longer: seq<nat>)
    ensures schedule <= longer && Finished(Run(s, longer, regenerated))
    decreases Work(Run(s, schedule, regenerated).threads)
  {
    var now := Run(s, schedule, regenerated);
    if Finished(now) {
      longer := schedule;
    } else {
      var i :| 0 <= i < |now.threads| && now.threads[i] != [];
      WorkDrops(now.threads, i);
      assert (schedule + [i])[..|schedule|] == schedule;
      longer := CanFinish(s, schedule + [i], regenerated);
    }
  }
}
