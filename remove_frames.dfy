/**
  Weekend removal in the frame-allocation step of the timelapse: days
  are `(YYYYMMDD..., frames)` pairs; Saturdays and Sundays are dropped
  and their frames are collected so they can be handed out again.
 */
module RemoveFrames {
  import opened Wrappers
  import opened PyText
  import opened Calendar
  import P = Prepare

  /** One line of the frames file: a day string and the number of frames given to it. */
  datatype DayFrames = DayFrames(day: string, frames: real)

  /** What `remove_weekends` returns: the kept days and the frames of the dropped ones. */
  datatype Split = Split(output: seq<DayFrames>, removed: real)

  /**
    `is_weekend`: the date in the first eight characters, at midnight;
    a string that does not hold a date raises ValueError.
   */
  function IsWeekend(ds: string): Result<bool, DateError>
  {
    var y, m, d := PyInt(Slice(ds, 0, 4)), PyInt(Slice(ds, 4, 6)), PyInt(Slice(ds, 6, 8));
    if y.None? || m.None? || d.None? then Err(NotANumber)
    else
      match Make(y.value, m.value, d.value, 0, 0, 0)
      case Err(e) => Err(e)
      case Ok(t) =>
        var wd := IsoWeekday(t);
        Ok(wd == 6 || wd == 7)
  }

  /** A day string classifies iff it holds a date, and then it is a weekend iff that date is a Saturday or a Sunday. */
  lemma IsWeekendMeaning(ds: string)
    ensures IsWeekend(ds).Ok? <==> exists t :: ValidDayOf(ds, t)
    ensures IsWeekend(ds).Ok? ==>
      forall t :: ValidDayOf(ds, t) ==> (IsWeekend(ds).value <==> IsoWeekday(t) == 6 || IsoWeekday(t) == 7)
  {
    var y, m, d := PyInt(Slice(ds, 0, 4)), PyInt(Slice(ds, 4, 6)), PyInt(Slice(ds, 6, 8));
    if y.Some? && m.Some? && d.Some? && Make(y.value, m.value, d.value, 0, 0, 0).Ok? {
      assert ValidDayOf(ds, Make(y.value, m.value, d.value, 0, 0, 0).value);
    }
  }

  /** t is the valid midnight that `datetime(year=int(ds[0:4]), month=int(ds[4:6]), day=int(ds[6:8]))` builds. */
  predicate ValidDayOf(ds: string, t: DateTime)
  {
    Valid(t) && t.hour == 0 && t.minute == 0 && t.second == 0 &&
    PyInt(Slice(ds, 0, 4)) == Some(t.year) && PyInt(Slice(ds, 4, 6)) == Some(t.month) && PyInt(Slice(ds, 6, 8)) == Some(t.day)
  }

  /** A day string written by the preparation script classifies its own date. */
  lemma WeekendOfDayString(t: DateTime)
    requires Valid(t)
    ensures IsWeekend(P.DayString(t)) == Ok(IsoWeekday(t) >= 6)
  {
    var s := P.DayString(t);
    P.StringPrefixes(t);
    P.DtStringFields(t);
    var full := P.DtString(t);
    assert s[..4] == full[..4] && s[4..6] == full[4..6] && s[6..8] == full[6..8];
    var mid := t.(hour := 0, minute := 0, second := 0);
    assert ValidDayOf(s, mid);
    assert IsoWeekday(mid) == IsoWeekday(t);
    IsWeekendMeaning(s);
  }

  /** A day classifier, as `is_weekend` is one: a weekend flag, or the error the day string raises. */
  type Classifier = string -> Result<bool, DateError>

  predicate AllParse(days: seq<DayFrames>, classify: Classifier)
  {
    forall i :: 0 <= i < |days| ==> classify(days[i].day).Ok?
  }

  /** The weekday entries, unchanged and in order. */
  function Weekdays(days: seq<DayFrames>, classify: Classifier): seq<DayFrames>
    requires AllParse(days, classify)
  {
    if days == [] then []
    else
      var x := days[|days| - 1];
      Weekdays(days[..|days| - 1], classify) + if classify(x.day).value then [] else [x]
  }

  /** The sum of the frames of the weekend entries. */
  function WeekendFrames(days: seq<DayFrames>, classify: Classifier): real
    requires AllParse(days, classify)
  {
    if days == [] then 0.0
    else
      var x := days[|days| - 1];
      WeekendFrames(days[..|days| - 1], classify) + if classify(x.day).value then x.frames else 0.0
  }

  /** The number of weekend entries. */
  function WeekendCount(days: seq<DayFrames>, classify: Classifier): nat
    requires AllParse(days, classify)
  {
    if days == [] then 0
    else WeekendCount(days[..|days| - 1], classify) + if classify(days[|days| - 1].day).value then 1 else 0
  }

  /** The sum of all frames. */
  function Total(days: seq<DayFrames>): real
  {
    if days == [] then 0.0 else Total(days[..|days| - 1]) + days[|days| - 1].frames
  }

  /** The first entry whose day string is not a date, if any. */
  function FirstBad(days: seq<DayFrames>, classify: Classifier): (r: Option<nat>)
    ensures r.None? <==> AllParse(days, classify)
    ensures r.Some? ==> r.value < |days| && classify(days[r.value].day).Err?
    ensures r.Some? ==> forall j :: 0 <= j < r.value ==> classify(days[j].day).Ok?
  {
    if days == [] then None
    else if classify(days[0].day).Err? then Some(0)
    else
      match FirstBad(days[1..], classify)
      case None => None
      case Some(i) => Some(i + 1)
  }

  /**
    `remove_weekends`: one pass keeping weekdays and adding up the frames
    of weekend days; the first day string that is not a date aborts it.
   */
  method RemoveWeekends(days: seq<DayFrames>) returns (r: Result<Split, DateError>)
    ensures r.Ok? <==> AllParse(days, IsWeekend)
    ensures r.Ok? ==> r.value.output == Weekdays(days, IsWeekend) && r.value.removed == WeekendFrames(days, IsWeekend)
    ensures r.Err? ==> r.error == IsWeekend(days[FirstBad(days, IsWeekend).value].day).error
  {
    var output: seq<DayFrames> := [];
    var removed := 0.0;
    var i := 0;
    while i < |days|
      invariant 0 <= i <= |days|
      invariant AllParse(days[..i], IsWeekend)
      invariant output == Weekdays(days[..i], IsWeekend) && removed == WeekendFrames(days[..i], IsWeekend)
    {
      var x := days[i];
      var w := IsWeekend(x.day);
      if w.Err? {
        FirstBadAt(days, i, IsWeekend);
        return Err(w.error);
      }
      Step(days, i, IsWeekend);
      if w.value {
        removed := removed + x.frames;
      } else {
        output := output + [x];
      }
      i := i + 1;
    }
    assert days[..i] == days;
    return Ok(Split(output, removed));
  }

  /** One more entry: the specifications of the longer prefix extend those of the shorter one. */
  lemma Step(days: seq<DayFrames>, i: nat, classify: Classifier)
    requires i < |days| && AllParse(days[..i], classify) && classify(days[i].day).Ok?
    ensures AllParse(days[..i + 1], classify)
    ensures Weekdays(days[..i + 1], classify) == Weekdays(days[..i], classify) + if classify(days[i].day).value then [] else [days[i]]
    ensures WeekendFrames(days[..i + 1], classify) == WeekendFrames(days[..i], classify) + if classify(days[i].day).value then days[i].frames else 0.0
  {
    assert days[..i + 1][..i] == days[..i];
  }

  /** The first failing position is the first index whose day does not parse. */
  lemma {:induction false} FirstBadAt(days: seq<DayFrames>, i: nat, classify: Classifier)
    requires i < |days| && AllParse(days[..i], classify) && classify(days[i].day).Err?
    ensures FirstBad(days, classify) == Some(i)
  {
    if i > 0 {
      assert classify(days[..i][0].day).Ok?;
      assert days[1..][..i - 1] == days[..i][1..];
      FirstBadAt(days[1..], i - 1, classify);
    }
  }

  /** Frames are neither created nor lost: kept plus removed is the total. */
  lemma {:induction false} Conservation(days: seq<DayFrames>, classify: Classifier)
    requires AllParse(days, classify)
    ensures Total(Weekdays(days, classify)) + WeekendFrames(days, classify) == Total(days)
  {
    if days != [] {
      var init := days[..|days| - 1];
      var x := days[|days| - 1];
      assert AllParse(init, classify);
      Conservation(init, classify);
      if !classify(x.day).value {
        var w := Weekdays(init, classify) + [x];
        assert Weekdays(days, classify) == w;
        assert w[..|w| - 1] == Weekdays(init, classify) && w[|w| - 1] == x;
      } else {
        assert Weekdays(days, classify) == Weekdays(init, classify);
      }
    }
  }

  /** Every day is either kept or counted as removed: the "removed %d days" figure is the weekend count. */
  lemma {:induction false} Count(days: seq<DayFrames>, classify: Classifier)
    requires AllParse(days, classify)
    ensures |Weekdays(days, classify)| + WeekendCount(days, classify) == |days|
  {
    if days != [] {
      assert AllParse(days[..|days| - 1], classify);
      Count(days[..|days| - 1], classify);
    }
  }

  /** The kept entries are exactly the weekday entries of the input. */
  lemma {:induction false} WeekdaysMembers(days: seq<DayFrames>, classify: Classifier)
    requires AllParse(days, classify)
    ensures forall x :: x in Weekdays(days, classify) <==> x in days && classify(x.day) == Ok(false)
  {
    if days != [] {
      var init := days[..|days| - 1];
      assert AllParse(init, classify);
      WeekdaysMembers(init, classify);
      assert days == init + [days[|days| - 1]];
      forall x | x in days ensures classify(x.day).Ok? {
        var i :| 0 <= i < |days| && days[i] == x;
      }
    }
  }

  /** Filtering commutes with concatenation, so the input order is kept. */
  lemma {:induction false} WeekdaysAppend(a: seq<DayFrames>, b: seq<DayFrames>, classify: Classifier)
    requires AllParse(a, classify) && AllParse(b, classify)
    ensures AllParse(a + b, classify) && Weekdays(a + b, classify) == Weekdays(a, classify) + Weekdays(b, classify)
  {
    assert AllParse(a + b, classify) by {
      forall i | 0 <= i < |a + b| ensures classify((a + b)[i].day).Ok? {
        if i >= |a| { assert (a + b)[i] == b[i - |a|]; }
      }
    }
    if b != [] {
      var binit := b[..|b| - 1];
      assert AllParse(binit, classify);
      assert (a + b)[..|a + b| - 1] == a + binit;
      WeekdaysAppend(a, binit, classify);
    } else {
      assert a + b == a;
    }
  }
}
