// The proleptic Gregorian calendar of Python's datetime, and the buckets that statistics are counted
// in (app/db/crud/stats.py). A moment is the number of microseconds since the first midnight.

module Calendar {
  datatype Date = Date(year: nat, month: nat, day: nat)

  const HOUR: nat := 3_600_000_000
  const DAY: nat := 24 * HOUR

  predicate Leap(year: nat) {
    year % 4 == 0 && (year % 100 != 0 || year % 400 == 0)
  }

  function DaysInMonth(year: nat, month: nat): nat {
    if month == 2 then (if Leap(year) then 29 else 28)
    else if month in {4, 6, 9, 11} then 30
    else 31
  }

  predicate ValidDate(d: Date) {
    1 <= d.year && 1 <= d.month <= 12 && 1 <= d.day <= DaysInMonth(d.year, d.month)
  }

  const BEFORE_MONTH: seq<nat> := [0, 31, 59, 90, 120, 151, 181, 212, 243, 273, 304, 334]

  function DaysBeforeMonth(year: nat, month: nat): nat
    requires 1 <= month <= 12
  {
    BEFORE_MONTH[month - 1] + if month > 2 && Leap(year) then 1 else 0
  }

  function DaysBeforeYear(year: nat): nat
    requires year >= 1
  {
    if year == 1 then 0 else DaysBeforeYear(year - 1) + if Leap(year - 1) then 366 else 365
  }

  // date.toordinal: the first of January of year 1 is day 1.
  function Ordinal(d: Date): (n: nat)
    requires ValidDate(d)
    ensures n >= 1
  {
    DaysBeforeYear(d.year) + DaysBeforeMonth(d.year, d.month) + d.day
  }

  function NextDay(d: Date): Date
    requires ValidDate(d)
  {
    if d.day < DaysInMonth(d.year, d.month) then d.(day := d.day + 1)
    else if d.month < 12 then Date(d.year, d.month + 1, 1)
    else Date(d.year + 1, 1, 1)
  }

  lemma MonthLength(year: nat, month: nat)
    requires 1 <= month < 12
    ensures DaysBeforeMonth(year, month + 1) == DaysBeforeMonth(year, month) + DaysInMonth(year, month)
  {
  }

  lemma YearLength(year: nat)
    requires year >= 1
    ensures DaysBeforeYear(year + 1) == DaysBeforeYear(year) + DaysBeforeMonth(year, 12) + 31
  {
  }

  lemma NextDayOrdinal(d: Date)
    requires ValidDate(d)
    ensures ValidDate(NextDay(d)) && Ordinal(NextDay(d)) == Ordinal(d) + 1
  {
    if d.day == DaysInMonth(d.year, d.month) {
      if d.month < 12 {
        MonthLength(d.year, d.month);
      } else {
        YearLength(d.year);
      }
    }
  }

  // date.fromordinal, counted from the first day.
  function FromOrdinal(n: nat): (d: Date)
    requires n >= 1
    ensures ValidDate(d) && Ordinal(d) == n
  {
    if n == 1 then Date(1, 1, 1)
    else
      NextDayOrdinal(FromOrdinal(n - 1));
      NextDay(FromOrdinal(n - 1))
  }

  function PreviousDay(d: Date): Date
    requires ValidDate(d) && d != Date(1, 1, 1)
  {
    if d.day > 1 then d.(day := d.day - 1)
    else if d.month > 1 then Date(d.year, d.month - 1, DaysInMonth(d.year, d.month - 1))
    else Date(d.year - 1, 12, 31)
  }

  lemma PreviousDayBefore(d: Date)
    requires ValidDate(d) && d != Date(1, 1, 1)
    ensures ValidDate(PreviousDay(d)) && NextDay(PreviousDay(d)) == d
  {
  }

  // Every date is reached: the ordinal numbers the dates without gaps or repetitions.
  lemma {:induction false} FromOrdinalOf(d: Date)
    requires ValidDate(d)
    ensures FromOrdinal(Ordinal(d)) == d
    decreases d.year, d.month, d.day
  {
    if d == Date(1, 1, 1) {
      assert Ordinal(d) == 1;
    } else {
      PreviousDayBefore(d);
      NextDayOrdinal(PreviousDay(d));
      FromOrdinalOf(PreviousDay(d));
    }
  }

  lemma OrdinalInjective(a: Date, b: Date)
    requires ValidDate(a) && ValidDate(b) && Ordinal(a) == Ordinal(b)
    ensures a == b
  {
    FromOrdinalOf(a);
    FromOrdinalOf(b);
  }

  // ---- moments: microseconds since the first midnight ---------------------------------------

  // Days are counted from 0 here: day k has ordinal k + 1.
  function DateOf(k: nat): Date {
    FromOrdinal(k + 1)
  }

  function Midnight(k: nat): nat {
    k * DAY
  }

  // ---- buckets ------------------------------------------------------------------------------

  datatype Granularity = Hour | Day | Week | Month

  // The weekday of the day with an ordinal: Monday is 0, and so was the first day.
  function WeekdayOf(n: nat): nat {
    (n + 6) % 7
  }

  function FirstOfMonth(d: Date): Date {
    Date(d.year, d.month, 1)
  }

  function FirstOfNextMonth(d: Date): Date {
    if d.month == 12 then Date(d.year + 1, 1, 1) else Date(d.year, d.month + 1, 1)
  }

  function WeekStartDay(k: nat): nat {
    WeekStartsEarlier(k);
    k - WeekdayOf(k + 1)
  }

  lemma WeekStartsEarlier(k: nat)
    ensures WeekdayOf(k + 1) == k % 7 <= k
  {
  }

  function MonthStartDay(k: nat): nat {
    MonthOrdinals(DateOf(k));
    Ordinal(FirstOfMonth(DateOf(k))) - 1
  }

  // The same day of the next month; buckets start on the first.
  function NextMonthDay(k: nat): nat {
    MonthOrdinals(DateOf(k));
    Ordinal(FirstOfNextMonth(DateOf(k))) - 1 + DateOf(k).day - 1
  }

  // The start of the bucket that a moment lies in, and the bucket after one that starts at m.

  function HourStart(m: nat): nat {
    m - m % DAY % HOUR
  }

  function NextHour(m: nat): nat {
    m + HOUR
  }

  function DayStart(m: nat): nat {
    m - m % DAY
  }

  function NextDayStart(m: nat): nat {
    m + DAY
  }

  function WeekStart(m: nat): nat {
    Midnight(WeekStartDay(m / DAY))
  }

  function NextWeek(m: nat): nat {
    m + 7 * DAY
  }

  function MonthStart(m: nat): nat {
    Midnight(MonthStartDay(m / DAY))
  }

  function NextMonth(m: nat): nat {
    Midnight(NextMonthDay(m / DAY)) + m % DAY
  }

  function BucketStart(g: Granularity): nat -> nat {
    match g
    case Hour => HourStart
    case Day => DayStart
    case Week => WeekStart
    case Month => MonthStart
  }

  function NextBucket(g: Granularity): nat -> nat {
    match g
    case Hour => NextHour
    case Day => NextDayStart
    case Week => NextWeek
    case Month => NextMonth
  }

  lemma MonthOrdinals(d: Date)
    requires ValidDate(d)
    ensures ValidDate(FirstOfMonth(d)) && ValidDate(FirstOfNextMonth(d))
    ensures Ordinal(FirstOfMonth(d)) == Ordinal(d) - d.day + 1
    ensures Ordinal(FirstOfNextMonth(d)) == Ordinal(FirstOfMonth(d)) + DaysInMonth(d.year, d.month)
  {
    if d.month < 12 {
      MonthLength(d.year, d.month);
    } else {
      YearLength(d.year);
    }
  }
}
