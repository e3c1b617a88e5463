/**
  `day_period`: the four-way classification of a photo's time of day
  against the sun times of its date. The sun times come from the astral
  library and are inputs here; all times are microseconds since midnight,
  as `datetime.time` values compare.
 */
module Sun {
  import opened Calendar

  datatype Period = Night | Dawn | Dusk | Day {
    /** The string `day_period` returns, used as a path segment. */
    function Name(): (s: string)
      ensures s != [] && '/' !in s && s != "all" && s != "period"
    {
      match this
      case Night => "night"
      case Dawn => "dawn"
      case Dusk => "dusk"
      case Day => "day"
    }
  }

  /** Different periods have different names, so their groups differ. */
  lemma NamesDiffer(p: Period, q: Period)
    requires p != q
    ensures p.Name() != q.Name()
  {
  }

  /** The times `aloc.sun(local=True, date=date)` reports for a date. */
  datatype SunTimes = SunTimes(dawn: int, sunrise: int, sunset: int, dusk: int)

  /** `date.time()` in microseconds; a datetime built from a name has no microseconds. */
  function TimeOfDay(t: DateTime): int { SecondsOfDay(t) * 1000000 }

  /** `day_period(aloc, date)` with the sun times of the date given. */
  function DayPeriod(t: int, sun: SunTimes): (p: Period)
    ensures p == Night <==> t < sun.dawn || t > sun.dusk
    ensures p == Dawn <==> sun.dawn <= t <= sun.dusk && t < sun.sunrise
    ensures p == Dusk <==> sun.dawn <= t <= sun.dusk && sun.sunrise <= t && t > sun.sunset
    ensures p == Day <==> sun.dawn <= t <= sun.dusk && sun.sunrise <= t <= sun.sunset
  {
    if t < sun.dawn || t > sun.dusk then Night
    else if t < sun.sunrise then Dawn
    else if t > sun.sunset then Dusk
    else Day
  }

  predicate Ordered(sun: SunTimes) { sun.dawn <= sun.sunrise <= sun.sunset <= sun.dusk }

  /**
    With the sun times in their natural order the periods are the four
    intervals [dawn, sunrise), [sunrise, sunset], (sunset, dusk] and the rest.
   */
  lemma PeriodIntervals(t: int, sun: SunTimes)
    requires Ordered(sun)
    ensures DayPeriod(t, sun) == Dawn <==> sun.dawn <= t < sun.sunrise
    ensures DayPeriod(t, sun) == Day <==> sun.sunrise <= t <= sun.sunset
    ensures DayPeriod(t, sun) == Dusk <==> sun.sunset < t <= sun.dusk
    ensures DayPeriod(t, sun) == Night <==> t < sun.dawn || sun.dusk < t
  {
  }

  /** Later times of the same day never fall into an earlier period (night before dawn excepted). */
  lemma PeriodMonotone(t1: int, t2: int, sun: SunTimes)
    requires Ordered(sun) && sun.dawn <= t1 <= t2 <= sun.dusk
    ensures Rank(DayPeriod(t1, sun)) <= Rank(DayPeriod(t2, sun))
  {
  }

  function Rank(p: Period): nat
  {
    match p
    case Night => 0
    case Dawn => 1
    case Day => 2
    case Dusk => 3
  }
}
