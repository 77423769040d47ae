/** The Gregorian calendar: dates, days counted from the first of January of year one, weekdays, and
    local times in one fixed offset. */
module Calendar {

  datatype Date = Date(year: int, month: int, day: int)

  predicate IsLeap(year: int) {
    year % 4 == 0 && (year % 100 != 0 || year % 400 == 0)
  }

  function MonthLength(year: int, month: int): (n: int)
    ensures 28 <= n <= 31
  {
    if month == 2 then (if IsLeap(year) then 29 else 28)
    else if month == 4 || month == 6 || month == 9 || month == 11 then 30
    else 31
  }

  predicate IsDate(d: Date) {
    d.year >= 1 && 1 <= d.month <= 12 && 1 <= d.day <= MonthLength(d.year, d.month)
  }

  function DaysBeforeMonth(year: int, month: int): (n: int)
    requires 1 <= month <= 12
    decreases month
  {
    if month == 1 then 0 else DaysBeforeMonth(year, month - 1) + MonthLength(year, month - 1)
  }

  function YearLength(year: int): int {
    if IsLeap(year) then 366 else 365
  }

  function DaysBeforeYear(year: int): (n: int)
    requires year >= 1
    ensures n >= 0
  {
    if year == 1 then 0 else DaysBeforeYear(year - 1) + YearLength(year - 1)
  }

  /** Days since the first of January of year one, which is day one. */
  function Ordinal(d: Date): int
    requires IsDate(d)
  {
    DaysBeforeYear(d.year) + DaysBeforeMonth(d.year, d.month) + d.day
  }

  /** The weekday of a day number; Monday is 0. */
  function WeekdayOf(ordinal: int): (w: int)
    ensures 0 <= w < 7
  {
    (ordinal + 6) % 7
  }

  function Weekday(d: Date): (w: int)
    requires IsDate(d)
    ensures 0 <= w < 7
  {
    WeekdayOf(Ordinal(d))
  }

  function DaysAhead(today: int, weekday: int): (n: int)
    ensures 0 <= n < 7
  {
    (weekday - today) % 7
  }

  function NextDay(d: Date): (n: Date)
    requires IsDate(d)
    ensures IsDate(n)
  {
    if d.day < MonthLength(d.year, d.month) then Date(d.year, d.month, d.day + 1)
    else if d.month < 12 then Date(d.year, d.month + 1, 1)
    else Date(d.year + 1, 1, 1)
  }

  function AddDays(d: Date, days: nat): (n: Date)
    requires IsDate(d)
    ensures IsDate(n)
    decreases days
  {
    if days == 0 then d else AddDays(NextDay(d), days - 1)
  }

  lemma YearDays(year: int)
    ensures DaysBeforeMonth(year, 12) + MonthLength(year, 12) == YearLength(year)
  {
    assert DaysBeforeMonth(year, 3) == 31 + MonthLength(year, 2);
    assert DaysBeforeMonth(year, 5) == DaysBeforeMonth(year, 3) + 61;
    assert DaysBeforeMonth(year, 7) == DaysBeforeMonth(year, 5) + 61;
    assert DaysBeforeMonth(year, 9) == DaysBeforeMonth(year, 7) + 62;
    assert DaysBeforeMonth(year, 11) == DaysBeforeMonth(year, 9) + 61;
  }

  /** The next day is one day later, over month ends, December and leap days. */
  lemma NextDayIsOneLater(d: Date)
    requires IsDate(d)
    ensures Ordinal(NextDay(d)) == Ordinal(d) + 1
  {
    if d.day == MonthLength(d.year, d.month) && d.month == 12 {
      YearDays(d.year);
    }
  }

  lemma {:induction false} AddDaysOrdinal(d: Date, days: nat)
    requires IsDate(d)
    ensures Ordinal(AddDays(d, days)) == Ordinal(d) + days
    decreases days
  {
    if days > 0 {
      NextDayIsOneLater(d);
      AddDaysOrdinal(NextDay(d), days - 1);
    }
  }

  predicate Precedes(a: Date, b: Date) {
    a.year < b.year || (a.year == b.year && (a.month < b.month || (a.month == b.month && a.day < b.day)))
  }

  lemma {:induction false} MonthsAdvance(year: int, a: int, b: int)
    requires 1 <= a < b <= 12
    ensures DaysBeforeMonth(year, a) + MonthLength(year, a) <= DaysBeforeMonth(year, b)
    decreases b
  {
    if a < b - 1 {
      MonthsAdvance(year, a, b - 1);
    }
  }

  lemma {:induction false} YearsAdvance(a: int, b: int)
    requires 1 <= a < b
    ensures DaysBeforeYear(a) + YearLength(a) <= DaysBeforeYear(b)
    decreases b
  {
    if a < b - 1 {
      YearsAdvance(a, b - 1);
    }
  }

  /** Counting days keeps the order of dates. */
  lemma OrdinalKeepsOrder(a: Date, b: Date)
    requires IsDate(a) && IsDate(b)
    ensures Precedes(a, b) <==> Ordinal(a) < Ordinal(b)
  {
    if Precedes(a, b) {
      OrdinalGrows(a, b);
    } else if a != b {
      OrdinalGrows(b, a);
    }
  }

  lemma OrdinalGrows(a: Date, b: Date)
    requires IsDate(a) && IsDate(b) && Precedes(a, b)
    ensures Ordinal(a) < Ordinal(b)
  {
    DayInYear(a);
    DayInYear(b);
    if a.year < b.year {
      YearsAdvance(a.year, b.year);
    } else if a.month < b.month {
      MonthsAdvance(a.year, a.month, b.month);
    }
  }

  lemma DayInYear(d: Date)
    requires IsDate(d)
    ensures 0 < DaysBeforeMonth(d.year, d.month) + d.day <= YearLength(d.year)
  {
    YearDays(d.year);
    if d.month < 12 {
      MonthsAdvance(d.year, d.month, 12);
    }
    if d.month > 1 {
      MonthsAdvance(d.year, 1, d.month);
    }
  }

  lemma OrdinalInjective(a: Date, b: Date)
    requires IsDate(a) && IsDate(b) && Ordinal(a) == Ordinal(b)
    ensures a == b
  {
    OrdinalKeepsOrder(a, b);
    OrdinalKeepsOrder(b, a);
  }

  /** The day count in closed form, as the proleptic Gregorian calendar is usually given. */
  lemma {:induction false} YearsInClosedForm(year: int)
    requires year >= 1
    ensures DaysBeforeYear(year) == (year - 1) * 365 + (year - 1) / 4 - (year - 1) / 100 + (year - 1) / 400
  {
    if year > 1 {
      YearsInClosedForm(year - 1);
      LeapDays(year - 1);
    }
  }

  /** The three quotients grow together by one exactly at a leap year. */
  lemma LeapDays(n: int)
    requires n >= 1
    ensures n / 4 - n / 100 + n / 400 == (n - 1) / 4 - (n - 1) / 100 + (n - 1) / 400 + if IsLeap(n) then 1 else 0
  {
    Carry(n, 4);
    Carry(n, 100);
    Carry(n, 400);
    Multiples(n);
  }

  lemma Multiples(n: int)
    ensures n % 400 == 0 ==> n % 100 == 0
    ensures n % 100 == 0 ==> n % 4 == 0
  {
    if n % 400 == 0 {
      NoRemainder(4 * (n / 400), 100);
      assert n == 400 * (n / 400) == 100 * (4 * (n / 400));
    }
    if n % 100 == 0 {
      NoRemainder(25 * (n / 100), 4);
      assert n == 100 * (n / 100) == 4 * (25 * (n / 100));
    }
  }

  lemma NoRemainder(q: int, d: int)
    requires d == 4 || d == 100
    ensures d * q % d == 0
  {
  }

  lemma Carry(n: int, d: int)
    requires n >= 1 && (d == 4 || d == 100 || d == 400)
    ensures n / d == (n - 1) / d + if n % d == 0 then 1 else 0
  {
  }

  /** The day number of a date in closed form. Counted from March every five months have 153 days, and the
      leap day comes last. */
  lemma OrdinalInClosedForm(d: Date)
    requires IsDate(d)
    ensures var year, month := if d.month <= 2 then d.year - 1 else d.year, (d.month + 9) % 12;
            Ordinal(d) == 365 * year + year / 4 - year / 100 + year / 400 + (153 * month + 2) / 5 + d.day - 306
  {
    YearsInClosedForm(d.year);
    MonthsInClosedForm(d.year, d.month);
    if d.month > 2 {
      LeapDays(d.year);
    }
  }

  lemma MonthsInClosedForm(year: int, month: int)
    requires 1 <= month <= 12
    ensures DaysBeforeMonth(year, month) ==
            (153 * ((month + 9) % 12) + 2) / 5 + (if month <= 2 then -306 else if IsLeap(year) then 60 else 59)
  {
    var spring := if IsLeap(year) then 60 else 59;
    assert DaysBeforeMonth(year, 1) == 0 && DaysBeforeMonth(year, 2) == 31 && DaysBeforeMonth(year, 3) == spring;
    assert DaysBeforeMonth(year, 4) == spring + 31 && DaysBeforeMonth(year, 5) == spring + 61;
    assert DaysBeforeMonth(year, 6) == spring + 92 && DaysBeforeMonth(year, 7) == spring + 122;
    assert DaysBeforeMonth(year, 8) == spring + 153 && DaysBeforeMonth(year, 9) == spring + 184;
    assert DaysBeforeMonth(year, 10) == spring + 214 && DaysBeforeMonth(year, 11) == spring + 245;
    assert DaysBeforeMonth(year, 12) == spring + 275;
    hide DaysBeforeMonth, IsLeap;
    FiveMonths(month);
  }

  /** The days from March to a later month of the same spring-to-spring year. */
  lemma FiveMonths(month: int)
    requires 1 <= month <= 12
    ensures (153 * ((month + 9) % 12) + 2) / 5 ==
            if month == 1 then 306 else if month == 2 then 337 else if month == 3 then 0 else if month == 4 then 31
            else if month == 5 then 61 else if month == 6 then 92 else if month == 7 then 122
            else if month == 8 then 153 else if month == 9 then 184 else if month == 10 then 214
            else if month == 11 then 245 else 275
  {
  }

  // ----- weekdays ------------------------------------------------------------------------

  /** The first of January 1970 was a Thursday. */
  lemma Thursday()
    ensures Ordinal(Date(1970, 1, 1)) == 719163 && Weekday(Date(1970, 1, 1)) == 3
  {
    OrdinalInClosedForm(Date(1970, 1, 1));
    hide Ordinal;
  }

  /** From one date to another the weekday moves on by as many days as lie between; so the next day has the
      next weekday. */
  lemma WeekdaysMoveOn(a: Date, b: Date)
    requires IsDate(a) && IsDate(b)
    ensures (Weekday(b) - Weekday(a) - (Ordinal(b) - Ordinal(a))) % 7 == 0
    ensures Weekday(NextDay(a)) == (Weekday(a) + 1) % 7
  {
    hide Ordinal;
    NextDayIsOneLater(a);
  }

  lemma WeekdayAhead(today: int, weekday: int)
    requires 0 <= weekday < 7
    ensures WeekdayOf(today + DaysAhead(WeekdayOf(today), weekday)) == weekday
  {
  }

  /** Days on one weekday are whole weeks apart. */
  lemma SameWeekday(a: int, b: int)
    requires WeekdayOf(a) == WeekdayOf(b)
    ensures b > a ==> b >= a + 7
    ensures b < a ==> b <= a - 7
  {
  }

  lemma WeekLater(day: int)
    ensures WeekdayOf(day + 7) == WeekdayOf(day)
  {
  }

  // ----- instants ------------------------------------------------------------------------

  const DAY: int := 86_400_000_000

  /** A local time: a date and the microseconds since its midnight. */
  datatype Local = Local(date: Date, micros: int)

  predicate IsLocal(m: Local) {
    IsDate(m.date) && 0 <= m.micros < DAY
  }

  function Instant(m: Local): int
    requires IsLocal(m)
  {
    Ordinal(m.date) * DAY + m.micros
  }

  lemma InstantInjective(a: Local, b: Local)
    requires IsLocal(a) && IsLocal(b) && Instant(a) == Instant(b)
    ensures a == b
  {
    assert Ordinal(a.date) == Ordinal(b.date);
    OrdinalInjective(a.date, b.date);
  }

  lemma LaterDay(a: Local, b: Local)
    requires IsLocal(a) && IsLocal(b)
    ensures Instant(a) < Instant(b) <==>
            Ordinal(a.date) < Ordinal(b.date) || (Ordinal(a.date) == Ordinal(b.date) && a.micros < b.micros)
  {
  }
}
