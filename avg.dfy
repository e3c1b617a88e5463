/**
  The older averaging script: the same grouping as the preparation
  script, but for twelve-digit file names only, with `%02d` years in the
  date strings, and with the 5-day groups of each period filed under the
  literal segment `period`.
 */
module Avg {
  import opened Wrappers
  import opened PyText
  import opened Calendar
  import opened Sun
  import M = Membership
  import P = Prepare

  /** `fn_to_date`: `YYMMDDhhmmss` read from fixed slices, whatever follows them. */
  function FnToDate(fn: string): (r: Result<DateTime, DateError>)
    ensures r.Ok? ==> Valid(r.value) && r.value.year > 1900
  {
    match PyInt(Slice(fn, 0, 2))
    case None => Err(NotANumber)
    case Some(y) =>
      TwoDigitYear(Slice(fn, 0, 2));
      P.ReadDate(fn, y + 2000, 2)
  }

  /** `int()` of at most two characters is above -100. */
  lemma TwoDigitYear(s: string)
    requires |s| <= 2 && PyInt(s).Some?
    ensures PyInt(s).value > -100
  {
    PyIntBound(s);
    Pow10Monotone(|s|, 2);
    assert Pow10(2) == 100;
  }

  /** `dt_string` with `%02d` for the year. */
  function DtString(d: DateTime): string
    requires Valid(d)
  {
    Pad(d.year, 2) + Pad(d.month, 2) + Pad(d.day, 2) + Pad(d.hour, 2) + Pad(d.minute, 2) + Pad(d.second, 2)
  }

  function DayString(d: DateTime): string
    requires Valid(d)
  {
    Pad(d.year, 2) + Pad(d.month, 2) + Pad(d.day, 2)
  }

  function MonthString(d: DateTime): string
    requires Valid(d)
  {
    Pad(d.year, 2) + Pad(d.month, 2)
  }

  /** The day string starts the stamp and the month string starts the day string. */
  lemma StringPrefixes(d: DateTime)
    requires Valid(d)
    ensures DayString(d) <= DtString(d) && MonthString(d) <= DayString(d)
  {
    var y, mo, dd := Pad(d.year, 2), Pad(d.month, 2), Pad(d.day, 2);
    var rest := Pad(d.hour, 2) + Pad(d.minute, 2) + Pad(d.second, 2);
    assert DtString(d) == DayString(d) + rest;
    assert DayString(d) == MonthString(d) + dd;
  }

  /** From year 1000 on, `%02d` and `%04d` print the year alike, so both scripts write the same strings. */
  lemma SameStrings(d: DateTime)
    requires Valid(d) && d.year >= 1000
    ensures DtString(d) == P.DtString(d) && DayString(d) == P.DayString(d) && MonthString(d) == P.MonthString(d)
  {
    assert Pow10(3) == 1000;
    NumDigitsLower(d.year, 3);
    PadWide(d.year, 2);
    PadWide(d.year, 4);
  }

  /** The `find_files` pattern `\d{12}\.jpg` under `re.match`: twelve digits and `.jpg` at the start, anything after. */
  predicate NameMatches(fn: string)
  {
    |fn| >= 16 && AllDigits(fn[..12]) && fn[12..16] == ".jpg"
  }

  /** A name the pattern accepts is read the same way by both scripts' `fn_to_date`, with no shift. */
  lemma MatchedNamesAgree(fn: string)
    requires NameMatches(fn)
    ensures FnToDate(fn) == P.FnToDate(fn, None)
  {
    var stem := fn[..12];
    assert '.' !in stem by {
      forall i | 0 <= i < |stem| ensures stem[i] != '.' { assert IsDigit(stem[i]); }
    }
    assert fn == stem + "." + fn[13..];
    BeforeDotNoDot(stem, fn[13..]);
    if PyInt(Slice(fn, 0, 2)).Some? {
      P.Layout(fn, PyInt(Slice(fn, 0, 2)).value);
    }
  }

  /** One name of the listing is kept when it names a regular file and matches the pattern. */
  predicate Accepted(path: string, isFile: set<string>, fn: string)
  {
    Join(path, fn) in isFile && NameMatches(fn)
  }

  /** The accepted names of a listing, in listing order. */
  function Kept(path: string, isFile: set<string>, raw: seq<string>): (r: seq<string>)
    ensures forall x :: x in r <==> x in raw && Accepted(path, isFile, x)
  {
    if raw == [] then []
    else
      var init := Kept(path, isFile, raw[..|raw| - 1]);
      assert forall x :: x in raw <==> x in raw[..|raw| - 1] || x == raw[|raw| - 1] by {
        assert raw == raw[..|raw| - 1] + [raw[|raw| - 1]];
      }
      if Accepted(path, isFile, raw[|raw| - 1]) then init + [raw[|raw| - 1]] else init
  }

  /** `find_files` over the listing `raw` of `path`; `isFile` is the set of paths that are regular files. */
  method FindFiles(path: string, raw: seq<string>, isFile: set<string>) returns (files: seq<string>)
    ensures files == Kept(path, isFile, raw)
    ensures forall fn :: fn in files ==> P.FnToDate(fn, None) == FnToDate(fn)
  {
    files := [];
    var i := 0;
    while i < |raw|
      invariant 0 <= i <= |raw|
      invariant files == Kept(path, isFile, raw[..i])
    {
      var fn := raw[i];
      var fp := Join(path, fn);
      assert raw[..i + 1][..i] == raw[..i];
      if fp in isFile && NameMatches(fn) {
        files := files + [fn];
      }
      i := i + 1;
    }
    assert raw[..i] == raw;
    forall fn | fn in files ensures P.FnToDate(fn, None) == FnToDate(fn) {
      MatchedNamesAgree(fn);
    }
  }

  /** The contribution of one file; the 5-day groups for a period all use the segment `period`. */
  function FileEntry(sunAt: DateTime -> SunTimes, src: string, fn: string): (r: Result<M.Entry<P.Details>, DateError>)
  {
    match FnToDate(fn)
    case Err(e) => Err(e)
    case Ok(dt) =>
      var period := DayPeriod(TimeOfDay(dt), sunAt(dt));
      var day, month := P.DayString(dt), P.MonthString(dt);
      match P.Window(dt)
      case Err(e) => Err(e)
      case Ok(others) =>
        Ok(M.Entry(P.Details(dt, period, day, month, Join(src, fn)),
                   M.GroupKeys(day, month, period.Name(), others, "period")))
  }

  function EntryOf(sunAt: DateTime -> SunTimes, src: string): string -> Result<M.Entry<P.Details>, DateError>
  {
    fn => FileEntry(sunAt, src, fn)
  }

  /**
    A photo goes to fourteen different groups, as in the preparation
    script except that its period-specific 5-day groups end in `period`.
   */
  lemma FileGroups(sunAt: DateTime -> SunTimes, src: string, fn: string)
    requires FileEntry(sunAt, src, fn).Ok?
    ensures var en := FileEntry(sunAt, src, fn).value;
      var dt := en.details.dt;
      FnToDate(fn) == Ok(dt) && P.Window(dt).Ok? &&
      en.details.period == DayPeriod(TimeOfDay(dt), sunAt(dt)) &&
      en.details.day == P.DayString(dt) && en.details.month == P.MonthString(dt) && en.details.orig == Join(src, fn) &&
      en.keys == M.GroupKeys(P.DayString(dt), P.MonthString(dt), en.details.period.Name(), P.Window(dt).value, "period") &&
      |en.keys| == 14 && Distinct(en.keys)
  {
    var dt := FnToDate(fn).value;
    var p := DayPeriod(TimeOfDay(dt), sunAt(dt)).Name();
    P.WindowDistinct(dt);
    P.DigitsSegment(P.DayString(dt));
    P.DigitsSegment(P.MonthString(dt));
    M.GroupKeysDistinct(P.DayString(dt), P.MonthString(dt), p, P.Window(dt).value, "period");
  }

  /** Two photos whose windows share their middle day share the tenth group, `5day/<day>/period`. */
  lemma SharedMiddle(d1: string, m1: string, p1: string, ws1: seq<string>, d2: string, m2: string, p2: string, ws2: seq<string>)
    requires |ws1| == 5 && |ws2| == 5 && ws1[2] == ws2[2]
    ensures M.GroupKeys(d1, m1, p1, ws1, "period")[9] == M.GroupKeys(d2, m2, p2, ws2, "period")[9]
  {
    M.WindowPair(ws1, "period", 2);
    M.WindowPair(ws2, "period", 2);
  }

  /**
    Photos from the same day but of different periods land in the same
    5-day `period` group, while their day groups for the period differ.
   */
  lemma PeriodsShareWindow(sunAt: DateTime -> SunTimes, src: string, f1: string, f2: string)
    requires FileEntry(sunAt, src, f1).Ok? && FileEntry(sunAt, src, f2).Ok?
    requires FileEntry(sunAt, src, f1).value.details.day == FileEntry(sunAt, src, f2).value.details.day
    requires FileEntry(sunAt, src, f1).value.details.period != FileEntry(sunAt, src, f2).value.details.period
    ensures FileEntry(sunAt, src, f1).value.keys[9] == FileEntry(sunAt, src, f2).value.keys[9]
    ensures FileEntry(sunAt, src, f1).value.keys[1] != FileEntry(sunAt, src, f2).value.keys[1]
  {
    FileGroups(sunAt, src, f1);
    FileGroups(sunAt, src, f2);
    var e1, e2 := FileEntry(sunAt, src, f1).value, FileEntry(sunAt, src, f2).value;
    var t1, t2 := e1.details.dt, e2.details.dt;
    P.WindowDistinct(t1);
    P.WindowDistinct(t2);
    NamesDiffer(e1.details.period, e2.details.period);
    P.DigitsSegment(e1.details.day);
    SameDayKeys(e1.details.day, P.MonthString(t1), P.MonthString(t2), e1.details.period.Name(), e2.details.period.Name(),
                P.Window(t1).value, P.Window(t2).value);
  }

  /** The keys of two photos of one day: the 5-day `period` group of that day is shared, the day-period groups differ with the period. */
  lemma SameDayKeys(day: string, m1: string, m2: string, q1: string, q2: string, ws1: seq<string>, ws2: seq<string>)
    requires |ws1| == 5 && |ws2| == 5 && ws1[2] == ws2[2] && '/' !in day && q1 != q2
    ensures M.GroupKeys(day, m1, q1, ws1, "period")[9] == M.GroupKeys(day, m2, q2, ws2, "period")[9]
    ensures M.GroupKeys(day, m1, q1, ws1, "period")[1] != M.GroupKeys(day, m2, q2, ws2, "period")[1]
  {
    SharedMiddle(day, m1, q1, ws1, day, m2, q2, ws2);
    assert M.GroupKeys(day, m1, q1, ws1, "period")[1] == M.Key("day", day, q1);
    assert M.GroupKeys(day, m2, q2, ws2, "period")[1] == M.Key("day", day, q2);
    if M.Key("day", day, q1) == M.Key("day", day, q2) {
      M.KeyInjective("day", day, q1, "day", day, q2);
    }
  }

  /** The `membership` list of one photo, built with string concatenation as the source does. */
  method MembershipList(dt: DateTime, day: string, month: string, p: string) returns (r: Result<seq<string>, DateError>)
    requires Valid(dt) && dt.year > 1900 && day == DayString(dt) && month == MonthString(dt)
    ensures r.Ok? <==> P.Window(dt).Ok?
    ensures r.Err? ==> r.error == P.Window(dt).error
    ensures r.Ok? ==> r.value == M.GroupKeys(day, month, p, P.Window(dt).value, "period")
  {
    var membership := Groups(day, month, p);
    var k := 0;
    while k < 5
      invariant 0 <= k <= 5
      invariant P.WindowDays(dt, -2, k).Ok?
      invariant membership == M.GroupKeys(day, month, p, P.WindowDays(dt, -2, k).value, "period")
    {
      var shifted := AddDays(dt, k - 2);
      NextWindowDay(dt, k);
      if shifted.Err? {
        return Err(shifted.error);
      }
      var other := DayString(shifted.value);
      M.GroupKeysSnoc(day, month, p, P.WindowDays(dt, -2, k).value, other, "period");
      membership := membership + WindowPair(other);
      k := k + 1;
    }
    return Ok(membership);
  }

  /** The next day of the window, printed with the `%02d` year, extends it; a day that overflows ends it with that error. */
  lemma NextWindowDay(dt: DateTime, k: nat)
    requires Valid(dt) && dt.year > 1900 && k < 5 && P.WindowDays(dt, -2, k).Ok?
    ensures AddDays(dt, k - 2).Err? ==> P.Window(dt).Err? && P.Window(dt).error == AddDays(dt, k - 2).error
    ensures AddDays(dt, k - 2).Ok? ==> Valid(AddDays(dt, k - 2).value)
    ensures AddDays(dt, k - 2).Ok? ==>
      P.WindowDays(dt, -2, k + 1) == Ok(P.WindowDays(dt, -2, k).value + [DayString(AddDays(dt, k - 2).value)])
  {
    if AddDays(dt, k - 2).Err? {
      assert P.DayAfter(dt, k - 2).Err?;
    } else {
      var shifted := AddDays(dt, k - 2).value;
      AddDaysMoves(dt, k - 2);
      ShiftYearBound(dt, k - 2);
      SameStrings(shifted);
      assert P.DayAfter(dt, -2 + (k + 1) - 1) == Ok(P.DayString(shifted));
    }
  }

  /** `'a/' + b + '/c'` is the group key a/b/c. */
  lemma Spelled(a: string, b: string, c: string)
    ensures (a + "/") + b + ("/" + c) == M.Key(a, b, c)
  {
  }

  /** The day and month groups, spelled as the source spells them. */
  function Groups(day: string, month: string, p: string): (ks: seq<string>)
    ensures ks == M.GroupKeys(day, month, p, [], "period")
  {
    assert "day/" == "day" + "/" && "month/" == "month" + "/" && "/all" == "/" + "all";
    Spelled("day", day, "all");
    Spelled("day", day, p);
    Spelled("month", month, "all");
    Spelled("month", month, p);
    ["day/" + day + "/all", "day/" + day + ("/" + p), "month/" + month + "/all", "month/" + month + ("/" + p)]
  }

  /** The two 5-day groups of one window day; the second ends in the literal `period`. */
  function WindowPair(other: string): (ks: seq<string>)
    ensures ks == [M.Key("5day", other, "all"), M.Key("5day", other, "period")]
  {
    assert "5day/" == "5day" + "/" && "/all" == "/" + "all" && "/period" == "/" + "period";
    Spelled("5day", other, "all");
    Spelled("5day", other, "period");
    ["5day/" + other + "/all", "5day/" + other + "/period"]
  }

  /** `build_mapping` of the older script. */
  method BuildMapping(sunAt: DateTime -> SunTimes, src: string, files: seq<string>)
    returns (r: Result<M.Mapping<P.Details>, DateError>)
    ensures r == M.Build(files, EntryOf(sunAt, src))
  {
    var mapping: map<string, P.Details> := map[];
    var average: map<string, seq<P.Details>> := map[];
    var i := 0;
    while i < |files|
      invariant 0 <= i <= |files|
      invariant M.Build(files[..i], EntryOf(sunAt, src)) == Ok(M.Mapping(mapping, average))
    {
      var fn := files[i];
      assert files[..i + 1][..i] == files[..i];
      var parsed := FnToDate(fn);
      if parsed.Err? {
        r := Err(parsed.error);
        M.BuildErrExtends(files, i + 1, EntryOf(sunAt, src));
        return;
      }
      var dt := parsed.value;
      var period := DayPeriod(TimeOfDay(dt), sunAt(dt));
      SameStrings(dt);
      var day := DayString(dt);
      var month := MonthString(dt);
      var details := P.Details(dt, period, day, month, Join(src, fn));
      mapping := mapping[fn := details];
      var membership := MembershipList(dt, day, month, period.Name());
      if membership.Err? {
        r := Err(membership.error);
        M.BuildErrExtends(files, i + 1, EntryOf(sunAt, src));
        return;
      }
      average := P.AddToGroups(average, membership.value, details);
      i := i + 1;
    }
    assert files[..i] == files;
    r := Ok(M.Mapping(mapping, average));
  }
}
