/**
  The part of Python's `datetime` the scripts use: constructing a datetime
  from fields (which raises ValueError when a field is out of range), adding
  a `timedelta` of days or seconds (which raises OverflowError when the year
  leaves 1..9999), the proleptic Gregorian ordinal and `isoweekday()`.
 */
module Calendar {
  import opened Wrappers

  /** Why turning a name into a datetime fails. */
  datatype DateError =
    | BadLength    // the `assert(0)` on an unexpected name length
    | NotANumber   // ValueError from int()
    | OutOfRange   // ValueError from the datetime constructor
    | Overflow     // OverflowError from datetime +/- timedelta

  datatype DateTime = DateTime(year: int, month: int, day: int, hour: int, minute: int, second: int)

  const MinYear: int := 1
  const MaxYear: int := 9999

  predicate IsLeap(y: int) { y % 4 == 0 && (y % 100 != 0 || y % 400 == 0) }

  function DaysInMonth(y: int, m: int): (n: int)
    requires 1 <= m <= 12
    ensures 28 <= n <= 31
  {
    if m == 2 then (if IsLeap(y) then 29 else 28)
    else if m == 4 || m == 6 || m == 9 || m == 11 then 30
    else 31
  }

  /** Month and day form a calendar date (in any year). */
  predicate DateOk(t: DateTime) { 1 <= t.month <= 12 && 1 <= t.day <= DaysInMonth(t.year, t.month) }

  predicate TimeOk(t: DateTime) { 0 <= t.hour < 24 && 0 <= t.minute < 60 && 0 <= t.second < 60 }

  predicate InRange(t: DateTime) { MinYear <= t.year <= MaxYear }

  /** What a Python datetime object (with zero microseconds) can hold. */
  predicate Valid(t: DateTime) { InRange(t) && DateOk(t) && TimeOk(t) }

  /** `datetime.datetime(y, mo, d, h, mi, s)`. */
  function Make(y: int, mo: int, d: int, h: int, mi: int, s: int): (r: Result<DateTime, DateError>)
    ensures r.Ok? ==> Valid(r.value) && r.value == DateTime(y, mo, d, h, mi, s)
    ensures r.Err? ==> r.error == OutOfRange && !Valid(DateTime(y, mo, d, h, mi, s))
  {
    var t := DateTime(y, mo, d, h, mi, s);
    if Valid(t) then Ok(t) else Err(OutOfRange)
  }

  function NextDay(t: DateTime): (r: DateTime)
    requires DateOk(t)
    ensures DateOk(r) && r.year >= t.year
  {
    if t.day < DaysInMonth(t.year, t.month) then t.(day := t.day + 1)
    else if t.month < 12 then t.(month := t.month + 1, day := 1)
    else t.(year := t.year + 1, month := 1, day := 1)
  }

  function PrevDay(t: DateTime): (r: DateTime)
    requires DateOk(t)
    ensures DateOk(r) && r.year >= t.year - 1
  {
    if t.day > 1 then t.(day := t.day - 1)
    else if t.month > 1 then t.(month := t.month - 1, day := DaysInMonth(t.year, t.month - 1))
    else t.(year := t.year - 1, month := 12, day := 31)
  }

  lemma NextOfPrev(t: DateTime)
    requires DateOk(t)
    ensures NextDay(PrevDay(t)) == t
  {
  }

  lemma PrevOfNext(t: DateTime)
    requires DateOk(t)
    ensures PrevDay(NextDay(t)) == t
  {
  }

  /** `t + timedelta(days=k)` before the range check: k steps of one day, keeping the time of day. */
  function ShiftDays(t: DateTime, k: int): (r: DateTime)
    requires DateOk(t)
    ensures DateOk(r)
    ensures (r.hour, r.minute, r.second) == (t.hour, t.minute, t.second)
    decreases if k >= 0 then k else -k
  {
    if k == 0 then t
    else if k > 0 then ShiftDays(NextDay(t), k - 1)
    else ShiftDays(PrevDay(t), k + 1)
  }

  /** Python's `_days_before_year`. */
  function DaysBeforeYear(y: int): int
  {
    var p := y - 1;
    p * 365 + p / 4 - p / 100 + p / 400
  }

  /** Python's `_days_before_month`: the `_DAYS_BEFORE_MONTH` table plus the leap day after February. */
  function DaysBeforeMonth(y: int, m: int): int
    requires 1 <= m <= 12
  {
    var table := [0, 0, 31, 59, 90, 120, 151, 181, 212, 243, 273, 304, 334];
    table[m] + if m > 2 && IsLeap(y) then 1 else 0
  }

  /** `date.toordinal()`: 0001-01-01 is day 1. */
  function Ordinal(t: DateTime): int
    requires DateOk(t)
  {
    DaysBeforeYear(t.year) + DaysBeforeMonth(t.year, t.month) + t.day
  }

  lemma DaysBeforeNextYear(y: int)
    ensures DaysBeforeYear(y + 1) == DaysBeforeYear(y) + 365 + if IsLeap(y) then 1 else 0
  {
    StepsBy(y);
    Multiples(y);
  }

  /** A multiple of d is the only year at which `y / d` steps up. */
  lemma StepsBy(y: int)
    ensures y / 4 - (y - 1) / 4 == if y % 4 == 0 then 1 else 0
    ensures y / 100 - (y - 1) / 100 == if y % 100 == 0 then 1 else 0
    ensures y / 400 - (y - 1) / 400 == if y % 400 == 0 then 1 else 0
  {
  }

  /** Every 400th year is a 100th year, and every 100th year a 4th year. */
  lemma Multiples(y: int)
    ensures y % 400 == 0 ==> y % 100 == 0
    ensures y % 100 == 0 ==> y % 4 == 0
  {
    if y % 400 == 0 {
      var z := y / 100 - 4 * (y / 400);
      assert 100 * z + y % 100 == 0;
    }
    if y % 100 == 0 {
      var z := y / 4 - 25 * (y / 100);
      assert 4 * z + y % 4 == 0;
    }
  }

  /** The ordinal counts days: the next day is one later. */
  lemma OrdinalNext(t: DateTime)
    requires DateOk(t)
    ensures Ordinal(NextDay(t)) == Ordinal(t) + 1
  {
    if t.day == DaysInMonth(t.year, t.month) && t.month == 12 {
      DaysBeforeNextYear(t.year);
    }
  }

  lemma OrdinalPrev(t: DateTime)
    requires DateOk(t)
    ensures Ordinal(PrevDay(t)) == Ordinal(t) - 1
  {
    OrdinalNext(PrevDay(t));
    NextOfPrev(t);
  }

  lemma {:induction false} OrdinalShift(t: DateTime, k: int)
    requires DateOk(t)
    ensures Ordinal(ShiftDays(t, k)) == Ordinal(t) + k
    decreases if k >= 0 then k else -k
  {
    if k > 0 {
      OrdinalNext(t);
      OrdinalShift(NextDay(t), k - 1);
    } else if k < 0 {
      OrdinalPrev(t);
      OrdinalShift(PrevDay(t), k + 1);
    }
  }

  lemma {:induction false} ShiftYearBound(t: DateTime, k: int)
    requires DateOk(t)
    ensures ShiftDays(t, k).year >= t.year - (if k >= 0 then 0 else -k)
    decreases if k >= 0 then k else -k
  {
    if k > 0 {
      ShiftYearBound(NextDay(t), k - 1);
    } else if k < 0 {
      ShiftYearBound(PrevDay(t), k + 1);
    }
  }

  /** `t + timedelta(days=k)`. */
  function AddDays(t: DateTime, k: int): Result<DateTime, DateError>
    requires Valid(t)
  {
    var r := ShiftDays(t, k);
    if InRange(r) then Ok(r) else Err(Overflow)
  }

  /** Adding k days moves the ordinal by k and keeps the time of day. */
  lemma AddDaysMoves(t: DateTime, k: int)
    requires Valid(t)
    ensures AddDays(t, k).Ok? ==> Valid(AddDays(t, k).value)
    ensures AddDays(t, k).Ok? ==> Ordinal(AddDays(t, k).value) == Ordinal(t) + k
    ensures AddDays(t, k).Ok? ==> AddDays(t, k).value.hour == t.hour && AddDays(t, k).value.second == t.second
    ensures AddDays(t, k).Err? <==> !InRange(ShiftDays(t, k))
  {
    OrdinalShift(t, k);
  }

  function SecondsOfDay(t: DateTime): int { (t.hour * 60 + t.minute) * 60 + t.second }

  /** Seconds since 0001-01-01T00:00:00 counted from day 0. */
  function Timeline(t: DateTime): int
    requires DateOk(t)
  {
    Ordinal(t) * 86400 + SecondsOfDay(t)
  }

  /** `t + timedelta(seconds=s)`: the day carry is the floor of the second count over 86400. */
  function AddSeconds(t: DateTime, s: int): Result<DateTime, DateError>
    requires Valid(t)
  {
    var total := SecondsOfDay(t) + s;
    var rest := total % 86400;
    var r := ShiftDays(t, total / 86400).(hour := rest / 3600, minute := rest % 3600 / 60, second := rest % 3600 % 60);
    if InRange(r) then Ok(r) else Err(Overflow)
  }

  /** Adding s seconds moves the point in time by exactly s seconds. */
  lemma AddSecondsMoves(t: DateTime, s: int)
    requires Valid(t)
    ensures AddSeconds(t, s).Ok? ==> Valid(AddSeconds(t, s).value)
    ensures AddSeconds(t, s).Ok? ==> Timeline(AddSeconds(t, s).value) == Timeline(t) + s
  {
    var total := SecondsOfDay(t) + s;
    var q, rest := total / 86400, total % 86400;
    assert total == q * 86400 + rest && 0 <= rest < 86400;
    ClockSplit(rest);
    OrdinalShift(t, q);
    var u := ShiftDays(t, q);
    var r := u.(hour := rest / 3600, minute := rest % 3600 / 60, second := rest % 3600 % 60);
    assert SecondsOfDay(r) == rest;
    assert Ordinal(r) == Ordinal(u) == Ordinal(t) + q;
    assert Timeline(r) == (Ordinal(t) + q) * 86400 + rest;
  }

  /** A second count within one day splits into hours, minutes and seconds. */
  lemma ClockSplit(rest: int)
    requires 0 <= rest < 86400
    ensures 0 <= rest / 3600 < 24 && 0 <= rest % 3600 / 60 < 60 && 0 <= rest % 3600 % 60 < 60
    ensures (rest / 3600 * 60 + rest % 3600 / 60) * 60 + rest % 3600 % 60 == rest
  {
    var h, m := rest / 3600, rest % 3600;
    assert rest == 3600 * h + m && 0 <= m < 3600;
    var mm, ss := m / 60, m % 60;
    assert m == 60 * mm + ss && 0 <= ss < 60;
  }

  /** The ISO weekday of the day with ordinal o, Python's `(o + 6) % 7 + 1`. */
  function WeekdayOf(o: int): (w: int)
    ensures 1 <= w <= 7
  {
    (o + 6) % 7 + 1
  }

  /** `date.isoweekday()`: Monday is 1, Sunday is 7. */
  function IsoWeekday(t: DateTime): (w: int)
    requires DateOk(t)
    ensures 1 <= w <= 7
  {
    WeekdayOf(Ordinal(t))
  }

  lemma WeekdayStep(o: int)
    ensures WeekdayOf(o + 1) == WeekdayOf(o) % 7 + 1
  {
    var w := (o + 6) % 7;
    assert o + 6 == 7 * ((o + 6) / 7) + w;
    if w == 6 {
      assert (o + 7) % 7 == 0;
    } else {
      assert (o + 7) % 7 == w + 1;
    }
  }

  /** Day 1 of the proleptic Gregorian calendar, 0001-01-01, was a Monday. */
  lemma Epoch(t: DateTime)
    requires t.year == 1 && t.month == 1 && t.day == 1
    ensures Ordinal(t) == 1 && IsoWeekday(t) == 1
  {
    assert DaysBeforeYear(1) == 0;
  }

  /** Each day is the weekday after the one before. */
  lemma WeekdayCycle(t: DateTime)
    requires DateOk(t)
    ensures IsoWeekday(NextDay(t)) == IsoWeekday(t) % 7 + 1
  {
    OrdinalNext(t);
    WeekdayStep(Ordinal(t));
  }
}
