// The life of a user: status, limits, plans and usage (app/db/crud/users.py, app/models/user.py,
// app/jobs/review_users.py, app/db/models/users.py).

module UserLifecycle {
  import opened Wrappers
  import opened NodeClients

  datatype Plan = Plan(dataLimit: int, expire: Option<int>, addRemainingTraffic: bool, fireOnEither: bool)

  // Moments are seconds; expire is a whole number of them. logs holds the usage at each reset.
  datatype UserState = UserState(
    status: UserStatus, used: int, dataLimit: Option<int>, expire: Option<int>, plan: Option<Plan>, logs: seq<int>,
    holdDuration: Option<int>, holdTimeout: Option<real>, onlineAt: Option<real>, createdAt: real, editAt: Option<real>)

  // ---- requests -----------------------------------------------------------------------------

  datatype CreateRequest = CreateRequest(
    status: Option<UserStatus>, dataLimit: Option<nat>, expire: Option<int>, plan: Option<Plan>,
    holdDuration: Option<int>, holdTimeout: Option<real>)

  datatype ModifyRequest = ModifyRequest(
    status: Option<UserStatus>, dataLimit: Option<nat>, expire: Option<int>, plan: Option<Plan>,
    holdDuration: Option<int>, holdTimeout: Option<real>)

  // Zero and null both mean none.
  function NonZero(x: Option<int>): Option<int> {
    if x == Some(0) then None else x
  }

  function NonZeroTime(x: Option<real>): Option<real> {
    if x == Some(0.0) then None else x
  }

  // validate_status: nobody is put on hold without a duration or with an expiry.
  predicate ValidHold(status: Option<UserStatus>, holdDuration: Option<int>, expire: Option<int>) {
    status == Some(OnHold) ==> NonZero(holdDuration).Some? && NonZero(expire).None?
  }

  predicate ValidCreate(r: CreateRequest) {
    && r.status in {None, Some(Active), Some(OnHold)}
    && ValidHold(r.status, r.holdDuration, r.expire)
  }

  predicate ValidModify(m: ModifyRequest) {
    && m.status in {None, Some(Active), Some(Disabled), Some(OnHold)}
    && ValidHold(m.status, m.holdDuration, m.expire)
  }

  // ---- what each operation makes of a user --------------------------------------------------

  function Created(r: CreateRequest, now: real): UserState {
    UserState(
      if r.status.Some? then r.status.value else Active, 0, NonZero(r.dataLimit), NonZero(r.expire), r.plan, [],
      NonZero(r.holdDuration), NonZeroTime(r.holdTimeout), None, now, None)
  }

  predicate Over(used: int, dataLimit: Option<int>) {
    dataLimit.Some? && used >= dataLimit.value
  }

  predicate Past(expire: Option<int>, now: real) {
    expire.Some? && expire.value as real <= now
  }

  function StatusByLimit(status: UserStatus, used: int, dataLimit: Option<int>): UserStatus {
    if status in {Expired, Disabled} then status
    else if Over(used, dataLimit) then Limited
    else if status == OnHold then OnHold
    else Active
  }

  function StatusByExpire(status: UserStatus, expire: Option<int>, now: real): UserStatus {
    if status !in {Active, Expired} then status
    else if Past(expire, now) then Expired
    else Active
  }

  function OrElse<T>(x: Option<T>, y: Option<T>): Option<T> {
    if x.Some? then x else y
  }

  function Modified(s: UserState, m: ModifyRequest, now: real): UserState {
    var status0 := if m.status.Some? then m.status.value else s.status;
    var dataLimit := if m.dataLimit.Some? then NonZero(m.dataLimit) else s.dataLimit;
    var status1 := if m.dataLimit.Some? then StatusByLimit(status0, s.used, dataLimit) else status0;
    var expire := if m.expire.Some? then NonZero(m.expire) else s.expire;
    var status2 := if m.expire.Some? then StatusByExpire(status1, expire, now) else status1;
    s.(status := status2, dataLimit := dataLimit, expire := expire, plan := m.plan,
       holdTimeout := OrElse(NonZeroTime(m.holdTimeout), s.holdTimeout),
       holdDuration := OrElse(NonZero(m.holdDuration), s.holdDuration), editAt := Some(now))
  }

  // revoke_user_sub updates the user with its own values; a negative limit fails validation.
  function Revoked(s: UserState, now: real): Option<UserState> {
    if s.dataLimit.Some? && s.dataLimit.value < 0 then None
    else Some(Modified(s, OwnValues(s), now))
  }

  function OwnValues(s: UserState): ModifyRequest
    requires s.dataLimit.Some? ==> s.dataLimit.value >= 0
  {
    ModifyRequest(
      Some(s.status), if s.dataLimit.Some? then Some(s.dataLimit.value) else None, s.expire, s.plan,
      s.holdDuration, s.holdTimeout)
  }

  // A membership test in one string: everybody but an expired user becomes active.
  function UsageReset(s: UserState): UserState {
    s.(logs := s.logs + [s.used], used := 0, status := if s.status == Expired then Expired else Active, plan := None)
  }

  // Nothing without a plan; None when the arithmetic on a missing limit raises an exception.
  function ResetByNext(s: UserState): Option<UserState> {
    if s.plan.None? then Some(s)
    else if !s.plan.value.addRemainingTraffic && s.dataLimit.None? then None
    else
      var plan := s.plan.value;
      var rest := if plan.addRemainingTraffic then 0 else s.dataLimit.value - s.used;
      Some(s.(logs := s.logs + [s.used], status := Active, dataLimit := Some(plan.dataLimit + rest),
              expire := plan.expire, used := 0, plan := None))
  }

  function AllUsageReset(s: UserState): UserState {
    s.(used := 0, logs := [], plan := None,
       status := if s.status in {OnHold, Expired, Disabled} then s.status else Active)
  }

  function DisabledByAll(s: UserState): UserState {
    if s.status in {Active, OnHold} then s.(status := Disabled) else s
  }

  function ActivatedByAll(s: UserState): UserState {
    if s.status != Disabled then s
    else if s.expire.None? && s.holdDuration.Some? && s.onlineAt.None? then s.(status := OnHold)
    else s.(status := Active)
  }

  function Recorded(s: UserState, increment: int, now: real): UserState {
    s.(used := s.used + increment, onlineAt := Some(now))
  }

  function ExpireStarted(s: UserState, at: real): UserState
    requires s.holdDuration.Some?
  {
    s.(expire := Some(at.Floor + s.holdDuration.value), holdDuration := None, holdTimeout := None)
  }

  // ---- one review pass over one user --------------------------------------------------------

  predicate IsLimited(s: UserState) {
    NonZero(s.dataLimit).Some? && Over(s.used, s.dataLimit)
  }

  predicate IsExpired(s: UserState, now: real) {
    NonZero(s.expire).Some? && Past(s.expire, now)
  }

  predicate FiresPlan(s: UserState, now: real) {
    && s.plan.Some? && (IsLimited(s) || IsExpired(s, now))
    && (s.plan.value.fireOnEither || (IsLimited(s) && IsExpired(s, now)))
  }

  function ReviewedActive(s: UserState, now: real): Option<UserState> {
    if FiresPlan(s, now) then ResetByNext(s)
    else if IsLimited(s) then Some(s.(status := Limited))
    else if IsExpired(s, now) then Some(s.(status := Expired))
    else Some(s)
  }

  predicate EndsHold(s: UserState, now: real) {
    var base := if s.editAt.Some? then s.editAt.value else s.createdAt;
    || (s.onlineAt.Some? && base <= s.onlineAt.value)
    || (s.holdTimeout.Some? && s.holdTimeout.value <= now)
  }

  function ReviewedOnHold(s: UserState, now: real, at: real): UserState
    requires s.holdDuration.Some?
  {
    if EndsHold(s, now) then ExpireStarted(s.(status := Active), at) else s
  }

  // An on-hold user has a duration to start.
  predicate Sound(s: UserState) {
    s.status == OnHold ==> s.holdDuration.Some?
  }

  // ---- the user object ----------------------------------------------------------------------

  class DbUser {
    var status: UserStatus
    var used: int
    var dataLimit: Option<int>
    var expire: Option<int>
    var plan: Option<Plan>
    var logs: seq<int>
    var holdDuration: Option<int>
    var holdTimeout: Option<real>
    var onlineAt: Option<real>
    var createdAt: real
    var editAt: Option<real>

    function State(): UserState
      reads this
    {
      UserState(status, used, dataLimit, expire, plan, logs, holdDuration, holdTimeout, onlineAt, createdAt, editAt)
    }

    constructor (r: CreateRequest, now: real)
      requires ValidCreate(r)
      ensures State() == Created(r, now) && Sound(State())
    {
      status := if r.status.Some? then r.status.value else Active;
      used, logs, onlineAt, createdAt, editAt := 0, [], None, now, None;
      dataLimit, expire, plan := NonZero(r.dataLimit), NonZero(r.expire), r.plan;
      holdDuration, holdTimeout := NonZero(r.holdDuration), NonZeroTime(r.holdTimeout);
    }

    method Update(m: ModifyRequest, now: real)
      modifies this
      ensures State() == Modified(old(State()), m, now)
    {
      if m.status.Some? {
        status := m.status.value;
      }
      if m.dataLimit.Some? {
        ChangeLimit(NonZero(m.dataLimit));
      }
      if m.expire.Some? {
        ChangeExpire(NonZero(m.expire), now);
      }
      if NonZeroTime(m.holdTimeout).Some? {
        holdTimeout := m.holdTimeout;
      }
      if NonZero(m.holdDuration).Some? {
        holdDuration := m.holdDuration;
      }
      plan := m.plan;
      editAt := Some(now);
    }

    method ChangeLimit(limit: Option<int>)
      modifies this`dataLimit, this`status
      ensures dataLimit == limit && status == StatusByLimit(old(status), used, limit)
    {
      dataLimit := limit;
      if status != Expired && status != Disabled {
        if dataLimit.None? || used < dataLimit.value {
          if status != OnHold {
            status := Active;
          }
        } else {
          status := Limited;
        }
      }
    }

    method ChangeExpire(limit: Option<int>, now: real)
      modifies this`expire, this`status
      ensures expire == limit && status == StatusByExpire(old(status), limit, now)
    {
      expire := limit;
      if status == Active || status == Expired {
        if expire.None? || expire.value as real > now {
          status := Active;
        } else {
          status := Expired;
        }
      }
    }

    method ResetDataUsage()
      modifies this
      ensures State() == UsageReset(old(State()))
    {
      logs := logs + [used];
      used := 0;
      if status != Expired {
        status := Active;
      }
      plan := None;
    }

    // Fails, with nothing committed, when the limit to take the rest of is missing.
    method ResetToNextPlan() returns (ok: bool)
      modifies this
      ensures ok <==> ResetByNext(old(State())).Some?
      ensures State() == if ok then ResetByNext(old(State())).value else old(State())
    {
      if plan.None? {
        return true;
      }
      if !plan.value.addRemainingTraffic && dataLimit.None? {
        return false;
      }
      logs := logs + [used];
      status := Active;
      dataLimit := Some(plan.value.dataLimit + if plan.value.addRemainingTraffic then 0 else dataLimit.value - used);
      expire := plan.value.expire;
      used := 0;
      plan := None;
      ok := true;
    }

    method UpdateStatus(s: UserStatus)
      modifies this`status
      ensures status == s
    {
      status := s;
    }

    method StartExpire(at: real)
      requires holdDuration.Some?
      modifies this
      ensures State() == ExpireStarted(old(State()), at)
    {
      expire := Some(at.Floor + holdDuration.value);
      holdDuration := None;
      holdTimeout := None;
    }

    method RecordUsage(increment: int, now: real)
      modifies this
      ensures State() == Recorded(old(State()), increment, now)
    {
      used := used + increment;
      onlineAt := Some(now);
    }

    // The part of the review that concerns an active user.
    method ReviewActive(now: real) returns (ok: bool)
      modifies this
      ensures ok <==> ReviewedActive(old(State()), now).Some?
      ensures State() == if ok then ReviewedActive(old(State()), now).value else old(State())
    {
      var limited := NonZero(dataLimit).Some? && used >= dataLimit.value;
      var expired := NonZero(expire).Some? && expire.value as real <= now;
      if (limited || expired) && plan.Some? {
        if plan.value.fireOnEither || (limited && expired) {
          ok := ResetToNextPlan();
          return;
        }
      }
      if limited {
        UpdateStatus(Limited);
      } else if expired {
        UpdateStatus(Expired);
      }
      ok := true;
    }

    method ReviewOnHold(now: real, at: real)
      requires holdDuration.Some?
      modifies this
      ensures State() == ReviewedOnHold(old(State()), now, at)
    {
      var base := if editAt.Some? then editAt.value else createdAt;
      if onlineAt.Some? && base <= onlineAt.value {
        UpdateStatus(Active);
      } else if holdTimeout.Some? && holdTimeout.value <= now {
        UpdateStatus(Active);
      } else {
        return;
      }
      StartExpire(at);
    }
  }

  // ---- the review of everybody --------------------------------------------------------------

  ghost predicate Distinct(users: seq<DbUser>) {
    forall i, j :: 0 <= i < j < |users| ==> users[i] != users[j]
  }

  // Whom the first loop of a review cannot get past: the plan that fires needs a limit that is not
  // there.
  predicate Stops(s: UserState, now: real) {
    s.status == Active && ReviewedActive(s, now).None?
  }

  function AfterFirstLoop(s: UserState, now: real): UserState {
    if s.status != Active || Stops(s, now) then s else ReviewedActive(s, now).value
  }

  function AfterSecondLoop(s: UserState, now: real, at: real): UserState {
    if s.status == OnHold && s.holdDuration.Some? then ReviewedOnHold(s, now, at) else s
  }

  // The second loop reads the users on hold only after the first is through.
  function Reviewed(s: UserState, now: real, at: real): UserState {
    AfterSecondLoop(AfterFirstLoop(s, now), now, at)
  }

  ghost function States(users: seq<DbUser>): (states: seq<UserState>)
    reads set u | u in users
    ensures |states| == |users| && forall i :: 0 <= i < |users| ==> states[i] == users[i].State()
  {
    seq(|users|, i requires 0 <= i < |users| reads set u | u in users => users[i].State())
  }

  // The first user from index i on that stops the job.
  function FirstStopFrom(states: seq<UserState>, now: real, i: nat): Option<nat>
    requires i <= |states|
    decreases |states| - i
  {
    if i == |states| then None
    else if Stops(states[i], now) then Some(i)
    else FirstStopFrom(states, now, i + 1)
  }

  function FirstStop(states: seq<UserState>, now: real): Option<nat> {
    FirstStopFrom(states, now, 0)
  }

  // What the job leaves: everybody reviewed, or the active users in front of the one that stops it.
  function AfterReview(states: seq<UserState>, now: real, at: nat -> real): (after: seq<UserState>)
    ensures |after| == |states|
  {
    match FirstStop(states, now)
    case None => seq(|states|, i requires 0 <= i < |states| => Reviewed(states[i], now, at(i)))
    case Some(k) =>
      seq(|states|, i requires 0 <= i < |states| => if i < k then AfterFirstLoop(states[i], now) else states[i])
  }

  lemma {:induction false} FirstStopIs(states: seq<UserState>, now: real, i: nat, stopped: Option<nat>)
    requires i <= |states|
    requires match stopped
             case None => forall k :: i <= k < |states| ==> !Stops(states[k], now)
             case Some(k) => i <= k < |states| && Stops(states[k], now) && forall j :: i <= j < k ==> !Stops(states[j], now)
    ensures FirstStopFrom(states, now, i) == stopped
    decreases |states| - i
  {
    if i < |states| && !Stops(states[i], now) {
      FirstStopIs(states, now, i + 1, stopped);
    }
  }

  // Reviews the active users in turn; an exception ends the job, and what was committed stays.
  method ReviewActiveUsers(users: seq<DbUser>, now: real) returns (stopped: Option<nat>)
    requires Distinct(users)
    modifies set u | u in users
    ensures match stopped
            case None =>
              && (forall i :: 0 <= i < |users| ==> !Stops(old(users[i].State()), now))
              && (forall i :: 0 <= i < |users| ==> users[i].State() == AfterFirstLoop(old(users[i].State()), now))
            case Some(k) =>
              && k < |users| && Stops(old(users[k].State()), now)
              && (forall i :: 0 <= i < k ==> !Stops(old(users[i].State()), now))
              && (forall i :: 0 <= i < k ==> users[i].State() == AfterFirstLoop(old(users[i].State()), now))
              && (forall i :: k <= i < |users| ==> users[i].State() == old(users[i].State()))
  {
    for i := 0 to |users|
      invariant forall k :: 0 <= k < i ==> !Stops(old(users[k].State()), now)
      invariant forall k :: 0 <= k < i ==> users[k].State() == AfterFirstLoop(old(users[k].State()), now)
      invariant forall k :: i <= k < |users| ==> users[k].State() == old(users[k].State())
    {
      if users[i].status == Active {
        var ok := users[i].ReviewActive(now);
        if !ok {
          return Some(i);
        }
      }
    }
    stopped := None;
  }

  // The clock is read again for each user whose time starts.
  method ReviewUsersOnHold(users: seq<DbUser>, now: real, at: nat -> real)
    requires Distinct(users) && forall u :: u in users ==> Sound(u.State())
    modifies set u | u in users
    ensures forall i :: 0 <= i < |users| ==> users[i].State() == AfterSecondLoop(old(users[i].State()), now, at(i))
  {
    for i := 0 to |users|
      invariant forall k :: 0 <= k < i ==> users[k].State() == AfterSecondLoop(old(users[k].State()), now, at(k))
      invariant forall k :: i <= k < |users| ==> users[k].State() == old(users[k].State())
    {
      if users[i].status == OnHold {
        assert users[i] in users;
        users[i].ReviewOnHold(now, at(i));
      }
    }
  }

  method Review(users: seq<DbUser>, now: real, at: nat -> real) returns (stopped: Option<nat>)
    requires Distinct(users) && forall u :: u in users ==> Sound(u.State())
    modifies set u | u in users
    ensures stopped.None? <==> forall i :: 0 <= i < |users| ==> !Stops(old(users[i].State()), now)
    ensures stopped.None? ==> forall i :: 0 <= i < |users| ==>
      users[i].State() == Reviewed(old(users[i].State()), now, at(i))
    ensures stopped.Some? ==> forall i :: 0 <= i < |users| ==>
      users[i].State() == if i < stopped.value then AfterFirstLoop(old(users[i].State()), now) else old(users[i].State())
    ensures stopped == FirstStop(old(States(users)), now)
    ensures forall i :: 0 <= i < |users| ==> users[i].State() == AfterReview(old(States(users)), now, at)[i]
  {
    ghost var before := States(users);
    stopped := ReviewActiveUsers(users, now);
    FirstStopIs(before, now, 0, stopped);
    if stopped.Some? {
      return;
    }
    forall u | u in users ensures Sound(u.State()) {
      var i :| 0 <= i < |users| && users[i] == u;
    }
    ReviewUsersOnHold(users, now, at);
  }
}
