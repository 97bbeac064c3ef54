// Two changes of one user whose calls overlap: when the nodes end up with the newer one whatever the
// order of the calls, and an order in which they do not.

module UserOverlaps {
  import opened Wrappers
  import opened NodeTables
  import opened NodeClients
  import opened UserThreads
  import opened UserSync
  import opened UserSyncProperties

  // ---- threads in general -------------------------------------------------------------------

  // A thread that update_user or remove_user spawns.
  ghost predicate ChangeThread(thread: Thread) {
    || (exists c, client :: thread == [Remove(c), Add(c, client)])
    || (exists c :: thread == [Remove(c)])
    || (exists node :: thread == [Restart(node)])
  }

  // The run in which all other threads finish before the i-th one starts.
  lemma {:induction false} OthersFirst(s: State, schedule: seq<nat>, regenerated: Held, i: nat)
    returns (longer: seq<nat>)
    requires i < |s.threads|
    requires var now := Run(s, schedule, regenerated); |now.threads| == |s.threads| && now.threads[i] == s.threads[i]
    ensures
      var end := Run(s, longer, regenerated);
      && |end.threads| == |s.threads| && end.threads[i] == s.threads[i]
      && forall k :: 0 <= k < |s.threads| && k != i ==> end.threads[k] == []
    decreases Work(Run(s, schedule, regenerated).threads)
  {
    var now := Run(s, schedule, regenerated);
    if forall k :: 0 <= k < |s.threads| && k != i ==> now.threads[k] == [] {
      longer := schedule;
    } else {
      var k :| 0 <= k < |s.threads| && k != i && now.threads[k] != [];
      WorkDrops(now.threads, k);
      assert (schedule + [k])[..|schedule|] == schedule;
      longer := OthersFirst(s, schedule + [k], regenerated, i);
    }
  }

  // A thread that is not fine for a cell spoils it when it comes last.
  lemma LastSpoils(s: State, regenerated: Held, i: nat, c: Cell, want: Option<Client>) returns (schedule: seq<nat>)
    requires i < |s.threads| && ChangeThread(s.threads[i]) && !Fine(s.threads[i], c, want)
    ensures
      var end := Run(s, schedule, regenerated);
      Finished(end) && Look(end.held, c) != want
  {
    assert Run(s, [], regenerated) == s;
    var before := OthersFirst(s, [], regenerated, i);
    var p, thread := Run(s, before, regenerated), s.threads[i];
    UnfineThread(thread, c, want);
    var once := before + [i];
    assert once[..|before|] == before;
    var q := Run(s, once, regenerated);
    assert q == Step(p, i, regenerated);
    if thread == [Remove(c)] {
      schedule := once;
    } else {
      schedule := once + [i];
      assert schedule[..|once|] == once;
      assert q.threads[i] == thread[1..] && Run(s, schedule, regenerated) == Step(q, i, regenerated);
    }
  }

  lemma UnfineThread(thread: Thread, c: Cell, want: Option<Client>)
    requires ChangeThread(thread) && !Fine(thread, c, want)
    ensures
      || (thread == [Remove(c)] && want.Some?)
      || (|thread| == 2 && thread[0] == Remove(c) && thread[1].Add? && thread[1].cell == c
          && Some(thread[1].client) != want)
  {
    if d, client :| thread == [Remove(d), Add(d, client)] {
      assert thread[1..] == [Add(d, client)];
    }
  }

  // Whatever the order of such calls the cell ends up with what is wanted, exactly when every thread is
  // fine and something makes up for what the cell holds.
  lemma EveryOrderExactlyWhen(s: State, regenerated: Held, c: Cell, want: Option<Client>)
    requires Look(regenerated, c) == want
    requires forall i :: 0 <= i < |s.threads| ==> ChangeThread(s.threads[i])
    ensures (forall schedule :: Finished(Run(s, schedule, regenerated)) ==>
               Look(Run(s, schedule, regenerated).held, c) == want)
       <==> AllFine(s.threads, c, want) && Promised(s, c, want)
  {
    if !AllFine(s.threads, c, want) {
      var i :| 0 <= i < |s.threads| && !Fine(s.threads[i], c, want);
      var schedule := LastSpoils(s, regenerated, i, c, want);
      assert Finished(Run(s, schedule, regenerated));
    } else {
      var schedule := CanFinish(s, [], regenerated);
      assert Finished(Run(s, schedule, regenerated));
      ConvergesExactlyWhen(s, schedule, regenerated, c, want);
      forall order ensures Finished(Run(s, order, regenerated)) ==>
        (Look(Run(s, order, regenerated).held, c) == want <==> Promised(s, c, want))
      {
        ConvergesExactlyWhen(s, order, regenerated, c, want);
      }
    }
  }

  // ---- two changes of one user --------------------------------------------------------------

  lemma FollowUpShape(w: World, users: seq<DbUser>, email: Email, thread: Thread)
    requires thread in FollowUp(w, users, email)
    ensures ChangeThread(thread)
  {
    var user := UserFor(users, email);
    if user.Some? && Served(user.value.status) {
      var active := ActiveTags(w, user.value, PROTOCOLS);
      PutThreadsMembers(w, user.value, PROTOCOLS, true, thread);
      DropThreadsMembers(w, RegistryTags(w.rows, w.x), email, active, thread);
      RestartThreadsMembers(w, RestartOnly(w, user.value, PROTOCOLS), w.fleet.nodes, thread);
    } else {
      DropThreadsMembers(w, RegistryTags(w.rows, w.x), email, {}, thread);
    }
  }

  lemma FollowUpShapes(w: World, users: seq<DbUser>, email: Email)
    ensures forall i :: 0 <= i < |FollowUp(w, users, email)| ==> ChangeThread(FollowUp(w, users, email)[i])
  {
    forall i | 0 <= i < |FollowUp(w, users, email)| ensures ChangeThread(FollowUp(w, users, email)[i]) {
      FollowUpShape(w, users, email, FollowUp(w, users, email)[i]);
    }
  }

  // The calls of a change are fine for what that change wants.
  lemma FollowUpFine(w: World, users: seq<DbUser>, email: Email, c: Cell)
    requires SoundRows(w.rows) && c.email == email
    ensures AllFine(FollowUp(w, users, email), c, Want(w, users, c))
  {
    var user := UserFor(users, email);
    if user.Some? && Served(user.value.status) {
      UpdateFine(w, users, email, c);
    } else {
      var threads := RemoveThreads(w, email);
      forall thread | thread in threads ensures Fine(thread, c, Want(w, users, c)) {
        DropThreadsMembers(w, RegistryTags(w.rows, w.x), email, {}, thread);
        NotPutFine(thread, c, Want(w, users, c));
      }
    }
  }

  // They remove what the cell holds, or restart its node.
  lemma FollowUpReplaces(w: World, users: seq<DbUser>, email: Email, c: Cell)
    requires SoundRows(w.rows) && c.email == email && Running(w, c.node) && CellServed(w, c)
    ensures Pending(FollowUp(w, users, email), Remove(c)) || Pending(FollowUp(w, users, email), Restart(c.node))
  {
    var threads, found := FollowUp(w, users, email), UserFor(users, email);
    if found.Some? && Served(found.value.status) {
      if Want(w, users, c).Some? {
        DueIsPending(w, users, found.value, threads, true, c);
      } else {
        InactiveTag(w, users, found.value, c);
        DropIsPending(w, threads, email, ActiveTags(w, found.value, PROTOCOLS), c);
      }
    } else {
      DropIsPending(w, threads, email, {}, c);
    }
  }

  // Fine for one want, and for another one too: exactly when the cell is left alone or the wants agree.
  lemma FineForBoth(threads: seq<Thread>, c: Cell, a: Option<Client>, b: Option<Client>)
    requires forall i :: 0 <= i < |threads| ==> ChangeThread(threads[i])
    requires AllFine(threads, c, a)
    ensures AllFine(threads, c, b) <==> !Pending(threads, Remove(c)) || a == b
  {
    forall i | 0 <= i < |threads| ensures Fine(threads[i], c, b) <==> Remove(c) !in threads[i] || a == b {
      assert Fine(threads[i], c, a);
      ThreadForBoth(threads[i], c, a, b);
    }
  }

  lemma ThreadForBoth(thread: Thread, c: Cell, a: Option<Client>, b: Option<Client>)
    requires ChangeThread(thread) && Fine(thread, c, a)
    ensures Fine(thread, c, b) <==> Remove(c) !in thread || a == b
  {
    if d, client :| thread == [Remove(d), Add(d, client)] {
      assert thread[1] == Add(d, client) && thread[1..] == [Add(d, client)];
    } else if d :| thread == [Remove(d)] {
      assert thread[0] == Remove(d) && thread[1..] == [];
    }
  }

  // Two changes of one user, modifications or deletions, are made one after the other, and their calls
  // may come in any order. A cell that a running node serves then ends up with the newer client in every
  // order, exactly when the older change leaves the cell alone or wants the same there.
  lemma OverlapConvergesExactlyWhen(
      w: World, older: seq<DbUser>, newer: seq<DbUser>, email: Email, held: Held, regenerated: Held, c: Cell)
    requires SoundRows(w.rows) && c.email == email && Running(w, c.node) && CellServed(w, c)
    requires Look(regenerated, c) == Want(w, newer, c)
    ensures
      var s := State(held, FollowUp(w, older, email) + FollowUp(w, newer, email));
      (forall schedule :: Finished(Run(s, schedule, regenerated)) ==>
         Look(Run(s, schedule, regenerated).held, c) == Want(w, newer, c))
      <==> !Pending(FollowUp(w, older, email), Remove(c)) || Want(w, older, c) == Want(w, newer, c)
  {
    var a, b := FollowUp(w, older, email), FollowUp(w, newer, email);
    var s := State(held, a + b);
    FollowUpShapes(w, older, email);
    FollowUpShapes(w, newer, email);
    EveryOrderExactlyWhen(s, regenerated, c, Want(w, newer, c));
    FollowUpFine(w, older, email, c);
    FollowUpFine(w, newer, email, c);
    FineForBoth(a, c, Want(w, older, c), Want(w, newer, c));
    FineJoined(a, b, c, Want(w, newer, c));
    FollowUpReplaces(w, newer, email, c);
    PendingBehind(a, b, Remove(c));
    PendingBehind(a, b, Restart(c.node));
  }

  lemma FineJoined(a: seq<Thread>, b: seq<Thread>, c: Cell, want: Option<Client>)
    ensures AllFine(a + b, c, want) <==> AllFine(a, c, want) && AllFine(b, c, want)
  {
    assert forall i :: 0 <= i < |a| ==> (a + b)[i] == a[i];
    assert forall i :: 0 <= i < |b| ==> (a + b)[|a| + i] == b[i];
  }

  lemma PendingBehind(a: seq<Thread>, b: seq<Thread>, call: Call)
    ensures Pending(b, call) ==> Pending(a + b, call)
  {
    if i :| 0 <= i < |b| && call in b[i] {
      assert (a + b)[|a| + i] == b[i];
    }
  }

  // ---- the order that spoils it -------------------------------------------------------------

  const EARLIER := CHANGED.(accounts := map["vless" := Account(Settings("old", "", ""), {})])

  // Ann's secret becomes "old" and then "new". Both removals come first, and then the older client.
  lemma OlderClientStays() returns (schedule: seq<nat>)
    ensures
      var w, c := OneNode(), Cell(1, "in", EmailOf(CHANGED));
      var regenerated := map[c := Client("new", "", "")];
      var s := State(map[], FollowUp(w, [EARLIER], c.email) + FollowUp(w, [CHANGED], c.email));
      var end := Run(s, schedule, regenerated);
      && Want(w, [CHANGED], c) == Some(Client("new", "", ""))
      && Finished(end) && Look(end.held, c) != Want(w, [CHANGED], c)
  {
    var w, c := OneNode(), Cell(1, "in", EmailOf(CHANGED));
    var regenerated := map[c := Client("new", "", "")];
    AnnWants(w, c);
    FollowUpReplaces(w, [EARLIER], c.email, c);
    OverlapConvergesExactlyWhen(w, [EARLIER], [CHANGED], c.email, map[], regenerated, c);
    var s := State(map[], FollowUp(w, [EARLIER], c.email) + FollowUp(w, [CHANGED], c.email));
    schedule :| Finished(Run(s, schedule, regenerated)) && Look(Run(s, schedule, regenerated).held, c) != Want(w, [CHANGED], c);
  }

  lemma AnnWants(w: World, c: Cell)
    requires w == OneNode() && c == Cell(1, "in", EmailOf(CHANGED))
    ensures CellServed(w, c) && Want(w, [EARLIER], c) != Want(w, [CHANGED], c) == Some(Client("new", "", ""))
    ensures !Pending(FollowUp(w, [EARLIER], c.email), Restart(c.node))
  {
    assert [INBOUND][..0] == [] && [CHANGED][..0] == [] && [EARLIER][..0] == [];
    assert UserFor([CHANGED], c.email) == Some(CHANGED) && UserFor([EARLIER], c.email) == Some(EARLIER);
    assert Want(w, [CHANGED], c) == Some(Client("new", "", "")) && Want(w, [EARLIER], c) == Some(Client("old", "", ""));
    assert Client("old", "", "").secret[0] != Client("new", "", "").secret[0];
    assert RestartOnly(w, EARLIER, PROTOCOLS) == {};
    NoRestart(w, [EARLIER], c);
  }

  lemma NoRestart(w: World, users: seq<DbUser>, c: Cell)
    requires UserFor(users, c.email).Some? && Served(UserFor(users, c.email).value.status)
    requires RestartOnly(w, UserFor(users, c.email).value, PROTOCOLS) == {}
    ensures !Pending(FollowUp(w, users, c.email), Restart(c.node))
  {
    var user := UserFor(users, c.email).value;
    var threads := FollowUp(w, users, c.email);
    forall i | 0 <= i < |threads| ensures Restart(c.node) !in threads[i] {
      assert threads[i] in threads;
      PutThreadsMembers(w, user, PROTOCOLS, true, threads[i]);
      DropThreadsMembers(w, RegistryTags(w.rows, w.x), c.email, ActiveTags(w, user, PROTOCOLS), threads[i]);
      RestartThreadsMembers(w, {}, w.fleet.nodes, threads[i]);
    }
  }
}
