// What a review pass and a whole life of a user keep.

module UserLifecycleProperties {
  import opened Wrappers
  import opened NodeClients
  import opened UserLifecycle

  // ---- one review pass ----------------------------------------------------------------------

  predicate Overdue(s: UserState, now: real) {
    IsLimited(s) || IsExpired(s, now)
  }

  // A pass changes nobody but active users and users on hold; whoever was active and fired no plan is
  // not active afterwards if over the limit or past the expiry.
  lemma ReviewProperties(s: UserState, now: real, at: real)
    requires Sound(s)
    ensures
      var t := Reviewed(s, now, at);
      && Sound(t)
      && (s.status !in {Active, OnHold} ==> t == s)
      && (s.status == Active && !FiresPlan(s, now) ==> !(t.status == Active && Overdue(t, now)))
      && (s.status == Active && !FiresPlan(s, now) ==> (t == s <==> !Overdue(s, now)))
      && (s.status == OnHold ==> t.status == (if EndsHold(s, now) then Active else OnHold))
      && (s.status == OnHold && EndsHold(s, now) ==>
            t.expire == Some(at.Floor + s.holdDuration.value) && t.holdDuration == None && t.holdTimeout == None)
  {
  }

  // The job is stopped by exactly those users: active and past their expiry, with a plan that fires
  // on either reason and would hand over the rest of a limit that the user does not have.
  lemma StopsExactlyWhen(s: UserState, now: real)
    ensures Stops(s, now) <==>
      && s.status == Active && s.dataLimit.None? && IsExpired(s, now)
      && s.plan.Some? && s.plan.value.fireOnEither && !s.plan.value.addRemainingTraffic
  {
  }

  // ---- whole lives --------------------------------------------------------------------------

  datatype Event =
    | Modify(request: ModifyRequest, at: real)
    | Revoke(at: real)
    | ResetUsage
    | NextPlan
    | ResetAll
    | DisableAll
    | ActivateAll
    | ReviewPass(at: real, started: real)
    | BrokenReview(at: real)   // the job stops at some later user, before the second loop
    | Record(increment: int, at: real)

  // A request that is refused, or fails, changes nothing.
  function After(s: UserState, e: Event): UserState
    requires Sound(s)
  {
    match e
    case Modify(m, now) => if ValidModify(m) then Modified(s, m, now) else s
    case Revoke(now) => OrSame(Revoked(s, now), s)
    case ResetUsage => UsageReset(s)
    case NextPlan => OrSame(ResetByNext(s), s)
    case ResetAll => AllUsageReset(s)
    case DisableAll => DisabledByAll(s)
    case ActivateAll => ActivatedByAll(s)
    case ReviewPass(now, started) => Reviewed(s, now, started)
    case BrokenReview(now) => AfterFirstLoop(s, now)
    case Record(increment, now) => Recorded(s, increment, now)
  }

  function OrSame(t: Option<UserState>, s: UserState): UserState {
    if t.Some? then t.value else s
  }

  lemma EventKeepsSound(s: UserState, e: Event)
    requires Sound(s)
    ensures Sound(After(s, e))
  {
  }

  // lifetime_used_traffic
  function Total(logs: seq<int>): int {
    if logs == [] then 0 else Total(logs[..|logs| - 1]) + logs[|logs| - 1]
  }

  function Lifetime(s: UserState): int {
    Total(s.logs) + s.used
  }

  lemma TotalAppend(logs: seq<int>, x: int)
    ensures Total(logs + [x]) == Total(logs) + x
  {
    assert (logs + [x])[..|logs|] == logs;
  }

  // Every other event keeps the usage or moves it to the log.
  lemma UsageKeptOrLogged(s: UserState, e: Event)
    requires Sound(s) && !e.Record? && !e.ResetAll?
    ensures
      var t := After(s, e);
      (t.used == s.used && t.logs == s.logs) || (t.used == 0 && t.logs == s.logs + [s.used])
  {
  }

  // Only recording adds to the lifetime traffic, and only the reset of all users takes it away.
  lemma EventLifetime(s: UserState, e: Event)
    requires Sound(s)
    ensures Lifetime(After(s, e)) ==
      match e {
        case Record(increment, _) => Lifetime(s) + increment
        case ResetAll => 0
        case _ => Lifetime(s)
      }
  {
    if !e.Record? && !e.ResetAll? {
      UsageKeptOrLogged(s, e);
      TotalAppend(s.logs, s.used);
    }
  }

  function Live(r: CreateRequest, born: real, events: seq<Event>): (s: UserState)
    requires ValidCreate(r)
    ensures Sound(s)
  {
    if events == [] then Created(r, born)
    else
      var s := Live(r, born, events[..|events| - 1]);
      EventKeepsSound(s, events[|events| - 1]);
      After(s, events[|events| - 1])
  }

  // What was recorded since the last reset of all users.
  function RecordedSum(events: seq<Event>): int {
    if events == [] then 0
    else
      match events[|events| - 1]
      case Record(increment, _) => RecordedSum(events[..|events| - 1]) + increment
      case ResetAll => 0
      case _ => RecordedSum(events[..|events| - 1])
  }

  // In every state of every life a user on hold has a duration to start, and the lifetime traffic is
  // what was recorded, whatever resets came between.
  lemma {:induction false} EveryLife(r: CreateRequest, born: real, events: seq<Event>)
    requires ValidCreate(r)
    ensures
      var s := Live(r, born, events);
      (s.status == OnHold ==> s.holdDuration.Some?) && Lifetime(s) == RecordedSum(events)
  {
    if events != [] {
      var earlier := events[..|events| - 1];
      EveryLife(r, born, earlier);
      EventLifetime(Live(r, born, earlier), events[|events| - 1]);
    }
  }

  // ---- the review of everybody --------------------------------------------------------------

  // A plan that fires on either reason would hand over the rest of a limit that is not there.
  predicate CannotHandOver(s: UserState, now: real) {
    && s.status == Active && s.dataLimit.None? && IsExpired(s, now)
    && s.plan.Some? && s.plan.value.fireOnEither && !s.plan.value.addRemainingTraffic
  }

  lemma {:induction false} FirstStopMeans(states: seq<UserState>, now: real, i: nat)
    requires i <= |states|
    ensures
      match FirstStopFrom(states, now, i)
      case None => forall k :: i <= k < |states| ==> !CannotHandOver(states[k], now)
      case Some(k) =>
        && i <= k < |states| && CannotHandOver(states[k], now)
        && forall j :: i <= j < k ==> !CannotHandOver(states[j], now)
    decreases |states| - i
  {
    if i < |states| {
      StopsExactlyWhen(states[i], now);
      FirstStopMeans(states, now, i + 1);
    }
  }

  // The job is stopped by the first user whose plan cannot hand over a rest, and by nobody else. In
  // front of that user everybody active is reviewed; that user, everybody behind and all users on hold
  // stay as they were. Without such a user everybody is reviewed. No review changes lifetime traffic.
  lemma ReviewOfAll(states: seq<UserState>, now: real, at: nat -> real, i: nat)
    requires i < |states| && Sound(states[i])
    ensures
      var stopped := FirstStop(states, now);
      var s, t := states[i], AfterReview(states, now, at)[i];
      && (stopped.None? <==> forall k :: 0 <= k < |states| ==> !CannotHandOver(states[k], now))
      && (stopped.Some? ==> stopped.value < |states| && CannotHandOver(states[stopped.value], now))
      && Sound(t) && Lifetime(t) == Lifetime(s)
      && (s.status !in {Active, OnHold} ==> t == s)
      && (stopped.Some? && (s.status == OnHold || i >= stopped.value) ==> t == s)
      && ((stopped.Some? ==> i < stopped.value) && s.status == Active && !FiresPlan(s, now) ==>
            !(t.status == Active && Overdue(t, now)))
      && (stopped.None? && s.status == OnHold ==> t.status == (if EndsHold(s, now) then Active else OnHold))
  {
    FirstStopMeans(states, now, 0);
    ReviewProperties(states[i], now, at(i));
    EventLifetime(states[i], ReviewPass(now, at(i)));
    EventLifetime(states[i], BrokenReview(now));
    EventKeepsSound(states[i], BrokenReview(now));
  }

  const HANDOVER := CreateRequest(Some(Active), None, Some(1), Some(Plan(1000, None, false, true)), None, None)
  const SHORT := CreateRequest(Some(Active), None, Some(1), None, None, None)

  // Two users are created with an expiry. The plan of the first stops the job, and the second, who is
  // past the expiry too, stays active.
  lemma JobStops(at: nat -> real) returns (states: seq<UserState>)
    ensures ValidCreate(HANDOVER) && ValidCreate(SHORT)
    ensures states == [Live(HANDOVER, 0.0, []), Live(SHORT, 0.0, [])]
    ensures FirstStop(states, 2.0) == Some(0)
    ensures
      var after := AfterReview(states, 2.0, at);
      after == states && after[1].status == Active && Overdue(after[1], 2.0)
  {
    states := [Live(HANDOVER, 0.0, []), Live(SHORT, 0.0, [])];
    StopsExactlyWhen(states[0], 2.0);
    assert FirstStopFrom(states, 2.0, 0) == Some(0);
  }
}
