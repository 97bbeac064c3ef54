// Hours, days, weeks and months cut time into buckets lawfully (app/db/crud/stats.py).

module StatsBuckets {
  import opened Calendar
  import opened Multiples
  import opened BucketLists

  // ---- hours, days and weeks have a fixed length --------------------------------------------

  lemma FixedLawful(start: nat -> nat, next: nat -> nat, k: nat)
    requires k > 0 && forall m: nat {:trigger start(m)} {:trigger next(m)} :: start(m) == m - m % k && next(m) == m + k
    ensures Lawful(start, next)
  {
    forall m: nat ensures Own(start, next, m) {
      FloorMultiple(m, k);
      FloorMultiple(m - m % k, k);
    }
    forall b: nat, c: nat ensures Apart(start, next, b, c) {
      if start(b) == b && start(c) == c && b < c {
        MultiplesApart(b, c, k);
      }
    }
  }

  lemma HourMeans(m: nat)
    ensures HourStart(m) == m - m % HOUR
  {
    var d, h := m / DAY, m % DAY / HOUR;
    assert m == HOUR * (24 * d + h) + m % DAY % HOUR;
    ModOfSum(HOUR, 24 * d + h, m % DAY % HOUR);
  }

  lemma WeekMeans(m: nat)
    ensures WeekStart(m) == m - m % (7 * DAY)
  {
    var k := m / DAY;
    WeekStartsEarlier(k);
    var w, q := k % 7, k / 7;
    assert m == 7 * DAY * q + (w * DAY + m % DAY);
    ModOfSum(7 * DAY, q, w * DAY + m % DAY);
  }

  // ---- months -------------------------------------------------------------------------------

  lemma FirstStarts(first: Date)
    requires ValidDate(first) && first.day == 1
    ensures DateOf(Ordinal(first) - 1) == first
    ensures MonthStartDay(Ordinal(first) - 1) == Ordinal(first) - 1
  {
    FromOrdinalOf(first);
    MonthOrdinals(first);
  }

  lemma NextOfFirst(first: Date)
    requires ValidDate(first) && first.day == 1
    ensures ValidDate(FirstOfNextMonth(first))
    ensures NextMonthDay(Ordinal(first) - 1) == Ordinal(FirstOfNextMonth(first)) - 1
  {
    FirstStarts(first);
    MonthOrdinals(first);
  }

  // Day k lies in the month from day b up to, but without, day n.
  ghost predicate InMonth(k: nat, b: nat, n: nat) {
    && MonthStartDay(k) == b && MonthStartDay(b) == b && NextMonthDay(b) == n && MonthStartDay(n) == n
    && b <= k < n
  }

  // The month from one first day to the next.
  ghost predicate IsMonth(first: Date, next: Date, b: nat, n: nat) {
    && ValidDate(first) && ValidDate(next) && first.day == 1 && next.day == 1 && FirstOfNextMonth(first) == next
    && b == Ordinal(first) - 1 && n == Ordinal(next) - 1
  }

  lemma MonthFrom(first: Date, next: Date, b: nat, n: nat)
    requires IsMonth(first, next, b, n)
    ensures MonthStartDay(b) == b && NextMonthDay(b) == n && MonthStartDay(n) == n
  {
    assert MonthStartDay(b) == b by { FirstStarts(first); }
    assert NextMonthDay(b) == n by { NextOfFirst(first); }
    assert MonthStartDay(n) == n by { FirstStarts(next); }
  }

  lemma MonthOfDay(k: nat) returns (b: nat, n: nat)
    ensures InMonth(k, b, n)
  {
    var first, next;
    first, next, b, n := MonthBounds(k);
    assert MonthStartDay(b) == b && NextMonthDay(b) == n && MonthStartDay(n) == n by {
      MonthFrom(first, next, b, n);
    }
  }

  lemma MonthDayOwn(k: nat)
    ensures Own(MonthStartDay, NextMonthDay, k)
  {
    var b, n := MonthOfDay(k);
    OwnFrom(MonthStartDay, NextMonthDay, k, b, n);
  }

  lemma OwnFrom(start: nat -> nat, next: nat -> nat, k: nat, b: nat, n: nat)
    requires start(k) == b && start(b) == b && next(b) == n && start(n) == n && b <= k < n
    ensures Own(start, next, k)
  {
  }

  lemma MonthAround(d: Date, k: nat) returns (b: nat, n: nat)
    requires ValidDate(d) && Ordinal(d) == k + 1
    ensures IsMonth(FirstOfMonth(d), FirstOfNextMonth(d), b, n) && b <= k < n
  {
    MonthOrdinals(d);
    b, n := Ordinal(FirstOfMonth(d)) - 1, Ordinal(FirstOfNextMonth(d)) - 1;
  }

  lemma MonthBounds(k: nat) returns (first: Date, next: Date, b: nat, n: nat)
    ensures IsMonth(first, next, b, n) && MonthStartDay(k) == b && b <= k < n
  {
    var d := DateOf(k);
    first, next := FirstOfMonth(d), FirstOfNextMonth(d);
    assert Ordinal(d) == k + 1;
    b, n := MonthAround(d, k);
  }

  lemma MonthDayApart(b: nat, c: nat)
    ensures Apart(MonthStartDay, NextMonthDay, b, c)
  {
    var d, e := DateOf(b), DateOf(c);
    MonthOrdinals(d);
    MonthOrdinals(e);
    if MonthStartDay(b) == b && MonthStartDay(c) == c && b < c < NextMonthDay(b) {
      assert d.day == 1 && e.day == 1;
      SameMonth(d, e);
    }
  }

  lemma SameMonth(d: Date, e: Date)
    requires ValidDate(d) && ValidDate(e) && d.day == 1
    requires Ordinal(d) <= Ordinal(e) < Ordinal(d) + DaysInMonth(d.year, d.month)
    ensures e.year == d.year && e.month == d.month && e.day == Ordinal(e) - Ordinal(d) + 1
  {
    OrdinalInjective(d.(day := Ordinal(e) - Ordinal(d) + 1), e);
  }

  lemma MonthDaysLawful()
    ensures Lawful(MonthStartDay, NextMonthDay)
  {
    forall m: nat ensures Own(MonthStartDay, NextMonthDay, m) {
      MonthDayOwn(m);
    }
    forall b: nat, c: nat ensures Apart(MonthStartDay, NextMonthDay, b, c) {
      MonthDayApart(b, c);
    }
  }

  // Lawful on days is lawful on microseconds.
  lemma DaysScale(days: nat -> nat, nextDay: nat -> nat, start: nat -> nat, next: nat -> nat)
    requires Lawful(days, nextDay)
    requires forall m: nat {:trigger start(m)} {:trigger next(m)} :: start(m) == days(m / DAY) * DAY && next(m) == nextDay(m / DAY) * DAY + m % DAY
    ensures Lawful(start, next)
  {
    forall m: nat ensures Own(start, next, m) {
      assert Own(days, nextDay, m / DAY);
      OnTheDay(days(m / DAY));
      OnTheDay(nextDay(days(m / DAY)));
      assert m == m / DAY * DAY + m % DAY;
    }
    forall b: nat, c: nat ensures Apart(start, next, b, c) {
      assert Apart(days, nextDay, b / DAY, c / DAY);
      OnTheDay(days(b / DAY));
      OnTheDay(days(c / DAY));
    }
  }

  lemma OnTheDay(k: nat)
    ensures k * DAY / DAY == k && k * DAY % DAY == 0
  {
  }

  lemma CalendarLawful(g: Granularity)
    ensures Lawful(BucketStart(g), NextBucket(g))
  {
    match g
    case Hour =>
      forall m: nat ensures HourStart(m) == m - m % HOUR {
        HourMeans(m);
      }
      FixedLawful(HourStart, NextHour, HOUR);
    case Day => FixedLawful(DayStart, NextDayStart, DAY);
    case Week =>
      forall m: nat ensures WeekStart(m) == m - m % (7 * DAY) {
        WeekMeans(m);
      }
      FixedLawful(WeekStart, NextWeek, 7 * DAY);
    case Month =>
      MonthDaysLawful();
      DaysScale(MonthStartDay, NextMonthDay, MonthStart, NextMonth);
  }
}
