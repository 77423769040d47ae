/** Recurring schedules: reading them, and finding the next occurrence. All local times are in the one
    fixed offset that the conversion to local time yields. */
module TaskSchedule {
  import opened Wrappers
  import opened Calendar

  // ----- schedules -----------------------------------------------------------------------

  datatype Kind = Daily | Weekly | Monthly

  datatype Schedule = Schedule(kind: Kind, time: string, weekday: Option<int>, day: Option<int>)

  predicate DigitUpTo(c: char, top: char) {
    '0' <= c <= top
  }

  /** A table of the decimal digits of all scripts and their values: `0` to `9` are themselves, and no
      other ASCII character is a digit. */
  ghost predicate IsDigitTable(u: char -> Option<int>) {
    && (forall c :: u(c).Some? ==> 0 <= u(c).value <= 9)
    && (forall c: char :: c <= '\U{7F}' ==> u(c) == AsciiDigit(c))
  }

  function AsciiDigit(c: char): Option<int> {
    if DigitUpTo(c, '9') then Some((c - '0') as int) else None
  }

  type Digits = u: char -> Option<int> | IsDigitTable(u) witness AsciiDigit

  /** HH:MM on a 24-hour clock. As the pattern is written, one line feed may follow, and the second digit
      of an hour below twenty and the last digit may be of any script. */
  predicate IsTime(u: Digits, t: string) {
    && (|t| == 5 || (|t| == 6 && t[5] == '\n'))
    && ((DigitUpTo(t[0], '1') && u(t[1]).Some?) || (t[0] == '2' && DigitUpTo(t[1], '3')))
    && t[2] == ':' && DigitUpTo(t[3], '5') && u(t[4]).Some?
  }

  function TwoDigits(u: Digits, a: char, b: char): int
    requires u(a).Some? && u(b).Some?
  {
    10 * u(a).value + u(b).value
  }

  /** The minute of the day that a time names. */
  function Minute(u: Digits, t: string): (minute: int)
    requires IsTime(u, t)
    ensures 0 <= minute < 1440
  {
    TwoDigits(u, t[0], t[1]) * 60 + TwoDigits(u, t[3], t[4])
  }

  /** The time of day of a schedule, in microseconds. */
  function TimeOfDay(u: Digits, t: string): (micros: int)
    requires IsTime(u, t)
    ensures 0 <= micros < DAY
  {
    Minute(u, t) * 60_000_000
  }

  /** What reading accepts: only the field of its own kind, in range. */
  predicate IsSchedule(u: Digits, s: Schedule) {
    && IsTime(u, s.time)
    && match s.kind {
         case Daily => s.weekday == None && s.day == None
         case Weekly => s.weekday.Some? && 1 <= s.weekday.value <= 7 && s.day == None
         case Monthly => s.weekday == None && s.day.Some? && 1 <= s.day.value <= 28
       }
  }

  // ----- reading a schedule --------------------------------------------------------------

  datatype Json = Text(text: string) | Number(n: int) | Bool(b: bool) | Null | Other

  datatype Result<T> = Ok(value: T) | Err(error: ValidationError)

  datatype ValidationError = OnceIsNoTask | UnknownKind | UnknownField | BadTime | BadWeekday | BadDay | NaiveDatetime

  function ParseKind(raw: Option<Json>): Option<Kind> {
    if raw == Some(Text("daily")) then Some(Daily)
    else if raw == Some(Text("weekly")) then Some(Weekly)
    else if raw == Some(Text("monthly")) then Some(Monthly)
    else None
  }

  function KindName(kind: Kind): string {
    match kind case Daily => "daily" case Weekly => "weekly" case Monthly => "monthly"
  }

  function AllowedKeys(kind: Kind): set<string> {
    {"kind", "time"} + match kind case Daily => {} case Weekly => {"weekday"} case Monthly => {"day"}
  }

  function Get(payload: map<string, Json>, key: string): Option<Json> {
    if key in payload then Some(payload[key]) else None
  }

  function InRange(raw: Option<Json>, low: int, high: int): Option<int> {
    if raw.Some? && raw.value.Number? && low <= raw.value.n <= high then Some(raw.value.n) else None
  }

  function ParseTaskSchedule(u: Digits, payload: map<string, Json>): (r: Result<Schedule>)
    ensures r.Ok? ==> IsSchedule(u, r.value)
  {
    if Get(payload, "kind") == Some(Text("once")) then Err(OnceIsNoTask)
    else
      match ParseKind(Get(payload, "kind"))
      case None => Err(UnknownKind)
      case Some(kind) =>
        var time := Get(payload, "time");
        var weekday := if kind == Weekly then InRange(Get(payload, "weekday"), 1, 7) else None;
        var day := if kind == Monthly then InRange(Get(payload, "day"), 1, 28) else None;
        if !(payload.Keys <= AllowedKeys(kind)) then Err(UnknownField)
        else if !(time.Some? && time.value.Text? && IsTime(u, time.value.text)) then Err(BadTime)
        else if kind == Weekly && weekday == None then Err(BadWeekday)
        else if kind == Monthly && day == None then Err(BadDay)
        else Ok(Schedule(kind, time.value.text, weekday, day))
  }

  function SerializeTaskSchedule(s: Schedule): map<string, Json> {
    map["kind" := Text(KindName(s.kind)), "time" := Text(s.time)]
    + (if s.weekday.Some? then map["weekday" := Number(s.weekday.value)] else map[])
    + (if s.day.Some? then map["day" := Number(s.day.value)] else map[])
  }

  /** A schedule comes back from its serialized form if and only if reading could have produced it. */
  lemma ScheduleRoundTrip(u: Digits, s: Schedule)
    ensures ParseTaskSchedule(u, SerializeTaskSchedule(s)) == Ok(s) <==> IsSchedule(u, s)
  {
    var payload := SerializeTaskSchedule(s);
    assert "kind" in payload && payload["kind"] == Text(KindName(s.kind));
    assert "weekday" in payload.Keys <==> s.weekday.Some?;
    assert "day" in payload.Keys <==> s.day.Some?;
  }

  /** Reading accepts exactly the serialized forms of valid schedules, so nothing is accepted twice or lost. */
  lemma ReadsExactly(u: Digits, payload: map<string, Json>, s: Schedule)
    ensures ParseTaskSchedule(u, payload) == Ok(s) <==> IsSchedule(u, s) && payload == SerializeTaskSchedule(s)
  {
    hide IsTime;
    ScheduleRoundTrip(u, s);
    var serialized := SerializeTaskSchedule(s);
    if ParseTaskSchedule(u, payload) == Ok(s) {
      assert payload.Keys == serialized.Keys;
      forall key | key in payload ensures payload[key] == serialized[key] {
      }
    }
  }

  /** Every field of the serialized form, under its name. */
  lemma SerializedFields(s: Schedule)
    ensures var p := SerializeTaskSchedule(s);
            && (forall key :: key in p <==> || key == "kind" || key == "time"
                                            || (key == "weekday" && s.weekday.Some?) || (key == "day" && s.day.Some?))
            && p["kind"] == Text(match s.kind case Daily => "daily" case Weekly => "weekly" case Monthly => "monthly")
            && p["time"] == Text(s.time)
            && (s.weekday.Some? ==> p["weekday"] == Number(s.weekday.value))
            && (s.day.Some? ==> p["day"] == Number(s.day.value))
  {
  }

  predicate Says(payload: map<string, Json>, key: string, text: string) {
    key in payload && payload[key] == Text(text)
  }

  predicate NumberWithin(payload: map<string, Json>, key: string, low: int, high: int) {
    key in payload && payload[key].Number? && low <= payload[key].n <= high
  }

  /** Which complaint is made: the first that applies, of an unknown kind, a field that does not belong, a bad
      time, and a bad weekday or day. */
  lemma ErrorsExactly(u: Digits, payload: map<string, Json>)
    ensures var r := ParseTaskSchedule(u, payload);
            var daily, weekly := Says(payload, "kind", "daily"), Says(payload, "kind", "weekly");
            var monthly := Says(payload, "kind", "monthly");
            var known := daily || weekly || monthly;
            var foreign := exists key :: key in payload && key != "kind" && key != "time"
                                         && !(weekly && key == "weekday") && !(monthly && key == "day");
            var timed := "time" in payload && payload["time"].Text? && IsTime(u, payload["time"].text);
            && (r == Err(OnceIsNoTask) <==> Says(payload, "kind", "once"))
            && (r == Err(UnknownKind) <==> !known && !Says(payload, "kind", "once"))
            && (r == Err(UnknownField) <==> known && foreign)
            && (r == Err(BadTime) <==> known && !foreign && !timed)
            && (r == Err(BadWeekday) <==> weekly && !foreign && timed && !NumberWithin(payload, "weekday", 1, 7))
            && (r == Err(BadDay) <==> monthly && !foreign && timed && !NumberWithin(payload, "day", 1, 28))
  {
    hide IsTime;
    FieldsBelong(payload, Daily);
    FieldsBelong(payload, Weekly);
    FieldsBelong(payload, Monthly);
    hide AllowedKeys;
  }

  lemma FieldsBelong(payload: map<string, Json>, kind: Kind)
    ensures payload.Keys <= AllowedKeys(kind) <==>
            !exists key :: key in payload && key != "kind" && key != "time"
                           && !(kind == Weekly && key == "weekday") && !(kind == Monthly && key == "day")
  {
  }

  // ----- which times are read ------------------------------------------------------------

  /** The five characters of a time in digits of any script: two for an hour below 24, a colon, two for a
      minute below 60. The leading digits, and an hour from twenty on, are ASCII. */
  predicate IsClock(u: Digits, body: string) {
    && |body| == 5 && body[2] == ':'
    && u(body[0]).Some? && u(body[1]).Some? && u(body[3]).Some? && u(body[4]).Some?
    && TwoDigits(u, body[0], body[1]) < 24 && TwoDigits(u, body[3], body[4]) < 60
    && IsAscii(body[0]) && IsAscii(body[3]) && (TwoDigits(u, body[0], body[1]) >= 20 ==> IsAscii(body[1]))
  }

  predicate IsAscii(c: char) {
    c <= '\U{7F}'
  }

  /** The one way to write a minute of the day. */
  function ClockText(minute: int): string
    requires 0 <= minute < 1440
  {
    [Digit(minute / 600), Digit(minute / 60 % 10), ':', Digit(minute % 60 / 10), Digit(minute % 10)]
  }

  function Digit(d: int): char
    requires 0 <= d <= 9
  {
    '0' + d as char
  }

  /** For every text: it is read as a time if and only if it is a clock time, with or without one line
      feed after it. */
  lemma TimesExactly(u: Digits, t: string)
    ensures IsTime(u, t) <==> exists body :: IsClock(u, body) && (t == body || t == body + "\n")
  {
    if IsTime(u, t) {
      assert t == t[..5] || t == t[..5] + "\n";
      assert IsClock(u, t[..5]);
    }
    if body :| IsClock(u, body) && (t == body || t == body + "\n") {
      assert forall c: char :: IsAscii(c) ==> u(c) == AsciiDigit(c);
    }
  }

  /** An accepted time stands in its canonical form if and only if it has no line feed after it and all its
      digits are ASCII. */
  lemma CanonicalExactly(u: Digits, t: string)
    requires IsTime(u, t)
    ensures t == ClockText(Minute(u, t)) <==> |t| == 5 && IsAscii(t[1]) && IsAscii(t[4])
  {
    ClockDigits(TwoDigits(u, t[0], t[1]), TwoDigits(u, t[3], t[4]));
    DigitOf(u, t[0], t[1]);
    DigitOf(u, t[3], t[4]);
    hide ClockText, Digit, IsAscii;
    assert t[..3] == [t[0], t[1], ':'];
  }

  lemma DigitOf(u: Digits, a: char, b: char)
    requires u(a).Some? && u(b).Some? && IsAscii(a)
    ensures 0 <= TwoDigits(u, a, b) < 100 && Digit(TwoDigits(u, a, b) / 10) == a
    ensures Digit(TwoDigits(u, a, b) % 10) == b <==> IsAscii(b)
  {
    assert u(a) == AsciiDigit(a);
    assert IsAscii(b) ==> u(b) == AsciiDigit(b);
  }

  lemma ClockDigits(hour: int, minute: int)
    requires 0 <= hour < 24 && 0 <= minute < 60
    ensures ClockText(hour * 60 + minute) ==
            [Digit(hour / 10), Digit(hour % 10), ':', Digit(minute / 10), Digit(minute % 10)]
  {
  }

  /** Every minute of the day is read from its canonical form, whatever the digit table. */
  lemma CanonicalIsRead(u: Digits, minute: int)
    requires 0 <= minute < 1440
    ensures IsTime(u, ClockText(minute)) && Minute(u, ClockText(minute)) == minute
    ensures TimeOfDay(u, ClockText(minute)) == minute * 60 * 1_000_000
  {
    ClockDigits(minute / 60, minute % 60);
    DigitIsRead(u, minute / 600);
    DigitIsRead(u, minute / 60 % 10);
    DigitIsRead(u, minute % 60 / 10);
    DigitIsRead(u, minute % 10);
    hide IsDigitTable;
  }

  lemma DigitIsRead(u: Digits, d: int)
    requires 0 <= d <= 9
    ensures u(Digit(d)) == Some(d)
  {
  }

  /** What reading a schedule lets through that is no HH:MM: exactly the times with a line feed after them
      or with a digit of another script. */
  lemma ReadCanonicalExactly(u: Digits, payload: map<string, Json>)
    requires ParseTaskSchedule(u, payload).Ok?
    ensures var t := ParseTaskSchedule(u, payload).value.time;
            (forall minute :: 0 <= minute < 1440 ==> t != ClockText(minute))
            <==> (|t| == 6 && t[5] == '\n') || !IsAscii(t[1]) || !IsAscii(t[4])
  {
    var t := ParseTaskSchedule(u, payload).value.time;
    CanonicalExactly(u, t);
    if minute :| 0 <= minute < 1440 && t == ClockText(minute) {
      CanonicalIsRead(u, minute);
    }
  }

  function DailyAt(time: string): map<string, Json> {
    map["kind" := Text("daily"), "time" := Text(time)]
  }

  /** Such a time does get through: with a line feed after it, and with a last digit of another script. */
  lemma OtherTimesAreRead(u: Digits, five: char)
    requires u(five) == Some(5)
    ensures ParseTaskSchedule(u, DailyAt("08:00\n")) == Ok(Schedule(Daily, "08:00\n", None, None))
    ensures ParseTaskSchedule(u, DailyAt("08:0" + [five])) == Ok(Schedule(Daily, "08:0" + [five], None, None))
  {
    assert u('8') == Some(8) && u('0') == Some(0);
    var payload, other := DailyAt("08:00\n"), DailyAt("08:0" + [five]);
    assert Get(payload, "kind") == Some(Text("daily")) && Get(payload, "time") == Some(Text("08:00\n"));
    assert Get(other, "kind") == Some(Text("daily")) && Get(other, "time") == Some(Text("08:0" + [five]));
  }

  // ----- occurrences ---------------------------------------------------------------------

  /** `m` is one of the instants that the schedule names. */
  predicate Occurs(u: Digits, s: Schedule, m: Local)
    requires IsSchedule(u, s)
  {
    && IsLocal(m) && m.micros == TimeOfDay(u, s.time)
    && match s.kind {
         case Daily => true
         case Weekly => Weekday(m.date) == s.weekday.value - 1
         case Monthly => m.date.day == s.day.value
       }
  }

  function NextOccurrence(u: Digits, s: Schedule, after: Local): (next: Local)
    requires IsSchedule(u, s) && IsLocal(after)
    ensures IsLocal(next)
  {
    var time := TimeOfDay(u, s.time);
    match s.kind
    case Daily =>
      var candidate := Local(after.date, time);
      if Instant(candidate) > Instant(after) then candidate else Local(AddDays(candidate.date, 1), time)
    case Weekly =>
      var daysAhead := DaysAhead(Weekday(after.date), s.weekday.value - 1);
      var candidate := Local(AddDays(after.date, daysAhead), time);
      if Instant(candidate) > Instant(after) then candidate else Local(AddDays(candidate.date, 7), time)
    case Monthly =>
      var candidate := Local(after.date.(day := s.day.value), time);
      if Instant(candidate) > Instant(after) then candidate
      else if after.date.month == 12 then Local(Date(after.date.year + 1, 1, s.day.value), time)
      else Local(Date(after.date.year, after.date.month + 1, s.day.value), time)
  }

  /** A datetime with or without an offset; with one, its local time. */
  datatype Datetime = Naive | Aware(local: Local)

  function NextOccurrenceAfter(u: Digits, s: Schedule, after: Datetime): (r: Result<Local>)
    requires IsSchedule(u, s) && (after.Aware? ==> IsLocal(after.local))
    ensures r.Ok? <==> after.Aware?
  {
    match after case Naive => Err(NaiveDatetime) case Aware(local) => Ok(NextOccurrence(u, s, local))
  }

  /** The next occurrence is an occurrence, it lies strictly after, and no occurrence lies between. */
  ghost predicate IsNext(u: Digits, s: Schedule, after: Local, next: Local)
    requires IsSchedule(u, s) && IsLocal(after)
  {
    && Occurs(u, s, next) && Instant(next) > Instant(after)
    && forall m :: Occurs(u, s, m) && Instant(m) > Instant(after) ==> Instant(next) <= Instant(m)
  }

  lemma DailyIsNext(u: Digits, s: Schedule, after: Local)
    requires IsSchedule(u, s) && IsLocal(after) && s.kind == Daily
    ensures IsNext(u, s, after, NextOccurrence(u, s, after))
  {
    var next := NextOccurrence(u, s, after);
    AddDaysOrdinal(after.date, 1);
    LaterDay(after, next);
    forall m | Occurs(u, s, m) && Instant(m) > Instant(after) ensures Instant(next) <= Instant(m) {
      LaterDay(after, m);
      LaterDay(m, next);
    }
  }

  /** How far ahead the weekly answer lies: up to six days, or a week when today's time has passed. */
  lemma WeeklyAnswer(u: Digits, s: Schedule, after: Local) returns (ahead: int)
    requires IsSchedule(u, s) && IsLocal(after) && s.kind == Weekly
    ensures 0 <= ahead < 7 && WeekdayOf(Ordinal(after.date) + ahead) == s.weekday.value - 1
    ensures var next := NextOccurrence(u, s, after);
            && next.micros == TimeOfDay(u, s.time)
            && Ordinal(next.date) == Ordinal(after.date) + ahead
               + (if ahead > 0 || next.micros > after.micros then 0 else 7)
  {
    hide WeekdayOf, DaysAhead, Instant, AddDays, TimeOfDay;
    ahead := DaysAhead(Weekday(after.date), s.weekday.value - 1);
    WeekdayAhead(Ordinal(after.date), s.weekday.value - 1);
    var first := AddDays(after.date, ahead);
    AddDaysOrdinal(after.date, ahead);
    AddDaysOrdinal(first, 7);
    LaterDay(after, Local(first, TimeOfDay(u, s.time)));
  }

  lemma WeeklyIsNext(u: Digits, s: Schedule, after: Local)
    requires IsSchedule(u, s) && IsLocal(after) && s.kind == Weekly
    ensures IsNext(u, s, after, NextOccurrence(u, s, after))
  {
    hide NextOccurrence, Instant, TimeOfDay, WeekdayOf, Ordinal;
    var next := NextOccurrence(u, s, after);
    var ahead := WeeklyAnswer(u, s, after);
    WeekLater(Ordinal(after.date) + ahead);
    LaterDay(after, next);
    forall m | Occurs(u, s, m) && Instant(m) > Instant(after) ensures Instant(next) <= Instant(m) {
      LaterDay(after, m);
      LaterDay(m, next);
      SameWeekday(Ordinal(after.date) + ahead, Ordinal(m.date));
    }
  }

  lemma MonthlyIsNext(u: Digits, s: Schedule, after: Local)
    requires IsSchedule(u, s) && IsLocal(after) && s.kind == Monthly
    ensures IsNext(u, s, after, NextOccurrence(u, s, after))
  {
    var next := NextOccurrence(u, s, after);
    OrdinalKeepsOrder(after.date, next.date);
    OrdinalKeepsOrder(next.date, after.date);
    LaterDay(after, next);
    forall m | Occurs(u, s, m) && Instant(m) > Instant(after) ensures Instant(next) <= Instant(m) {
      LaterDay(after, m);
      LaterDay(m, next);
      OrdinalKeepsOrder(after.date, m.date);
      OrdinalKeepsOrder(m.date, after.date);
      OrdinalKeepsOrder(m.date, next.date);
    }
  }

  /** For every schedule and every instant, whatever the month end or leap year in between. */
  lemma NextIsLeast(u: Digits, s: Schedule, after: Local)
    requires IsSchedule(u, s) && IsLocal(after)
    ensures IsNext(u, s, after, NextOccurrence(u, s, after))
  {
    match s.kind
    case Daily => DailyIsNext(u, s, after);
    case Weekly => WeeklyIsNext(u, s, after);
    case Monthly => MonthlyIsNext(u, s, after);
  }

  /** There is only one next occurrence. */
  lemma NextIsUnique(u: Digits, s: Schedule, after: Local, a: Local, b: Local)
    requires IsSchedule(u, s) && IsLocal(after) && IsNext(u, s, after, a) && IsNext(u, s, after, b)
    ensures a == b
  {
    InstantInjective(a, b);
  }

  /** Monday, the first of January 2024. */
  const MONDAY: Date := Date(2024, 1, 1)

  /** A weekly schedule occurs exactly on the days a whole number of weeks from a known Monday plus
      `weekday - 1` days, at its time. */
  lemma WeeklyExactly(u: Digits, s: Schedule, m: Local)
    requires IsSchedule(u, s) && s.kind == Weekly && IsLocal(m)
    ensures Weekday(MONDAY) == 0
    ensures Occurs(u, s, m) <==>
            && m.micros == Minute(u, s.time) * 60 * 1_000_000
            && (Ordinal(m.date) - Ordinal(MONDAY) - (s.weekday.value - 1)) % 7 == 0
  {
    hide Ordinal, WeekdayOf, IsDate, IsTime;
    MondayIsMonday();
    DaysFromMonday(Ordinal(m.date), s.weekday.value - 1);
  }

  lemma MondayIsMonday()
    ensures Ordinal(MONDAY) == 738886 && Weekday(MONDAY) == 0
  {
    hide Ordinal;
    OrdinalInClosedForm(MONDAY);
  }

  lemma DaysFromMonday(day: int, weekday: int)
    requires 0 <= weekday < 7
    ensures WeekdayOf(day) == weekday <==> (day - 738886 - weekday) % 7 == 0
  {
  }

  /** So the answer for a weekly schedule is such a day, and it is at most a week away. */
  lemma WeeklyAnswerIsThatDay(u: Digits, s: Schedule, after: Local)
    requires IsSchedule(u, s) && s.kind == Weekly && IsLocal(after)
    ensures var next := NextOccurrence(u, s, after);
            && (Ordinal(next.date) - Ordinal(MONDAY) - (s.weekday.value - 1)) % 7 == 0
            && next.micros == Minute(u, s.time) * 60 * 1_000_000
            && 0 <= Ordinal(next.date) - Ordinal(after.date) <= 7
  {
    hide NextOccurrence, Instant, IsSchedule, Ordinal;
    WeeklyIsNext(u, s, after);
    var ahead := WeeklyAnswer(u, s, after);
    WeeklyExactly(u, s, NextOccurrence(u, s, after));
  }

  // ----- iteration -----------------------------------------------------------------------

  /** The occurrence reached by asking `n + 1` times, each time from the last answer. */
  function Nth(u: Digits, s: Schedule, after: Local, n: nat): (m: Local)
    requires IsSchedule(u, s) && IsLocal(after)
    ensures IsLocal(m)
    decreases n
  {
    if n == 0 then NextOccurrence(u, s, after) else Nth(u, s, NextOccurrence(u, s, after), n - 1)
  }

  lemma {:induction false} NthOccurs(u: Digits, s: Schedule, after: Local, n: nat)
    requires IsSchedule(u, s) && IsLocal(after)
    ensures Occurs(u, s, Nth(u, s, after, n)) && Instant(Nth(u, s, after, n)) > Instant(after)
    decreases n
  {
    hide NextOccurrence, Instant, Occurs, IsSchedule, IsLocal;
    NextIsLeast(u, s, after);
    if n > 0 {
      NthOccurs(u, s, NextOccurrence(u, s, after), n - 1);
    }
  }

  lemma {:induction false} NthThenNext(u: Digits, s: Schedule, after: Local, n: nat)
    requires IsSchedule(u, s) && IsLocal(after)
    ensures Nth(u, s, after, n + 1) == NextOccurrence(u, s, Nth(u, s, after, n))
    decreases n
  {
    hide NextOccurrence;
    if n > 0 {
      NthThenNext(u, s, NextOccurrence(u, s, after), n - 1);
    }
  }

  /** The answers come in order. */
  lemma {:induction false} AnswersIncrease(u: Digits, s: Schedule, after: Local, i: nat, j: nat)
    requires IsSchedule(u, s) && IsLocal(after) && i < j
    ensures Instant(Nth(u, s, after, i)) < Instant(Nth(u, s, after, j))
    decreases j
  {
    hide NextOccurrence, Instant, Occurs, Nth;
    NthThenNext(u, s, after, j - 1);
    NextIsLeast(u, s, Nth(u, s, after, j - 1));
    if i < j - 1 {
      AnswersIncrease(u, s, after, i, j - 1);
    }
  }

  lemma OccursIsLocal(u: Digits, s: Schedule, m: Local)
    requires IsSchedule(u, s) && Occurs(u, s, m)
    ensures IsLocal(m)
  {
  }

  /** Iterating lists every later occurrence: the instants after `after` at which the schedule occurs are
      exactly the answers, none skipped and - since they increase - none repeated. */
  lemma {:induction false} IterationListsAll(u: Digits, s: Schedule, after: Local, m: Local) returns (n: nat)
    requires IsSchedule(u, s) && IsLocal(after) && Occurs(u, s, m) && Instant(m) > Instant(after)
    ensures Nth(u, s, after, n) == m
    decreases Instant(m) - Instant(after)
  {
    hide NextOccurrence, Instant, Occurs, IsSchedule, IsLocal;
    OccursIsLocal(u, s, m);
    NextIsLeast(u, s, after);
    var next := NextOccurrence(u, s, after);
    if Instant(next) == Instant(m) {
      InstantInjective(next, m);
      n := 0;
    } else {
      var rest := IterationListsAll(u, s, next, m);
      n := rest + 1;
    }
  }
}
