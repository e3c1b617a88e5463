/**
  The photo bookkeeping of the preparation script: camera file names are
  parsed into date-times, classified by the position of the sun, and each
  photo is filed into day, month and 5-day averaging groups; image
  fingerprints are memoised in a table that is saved relative to the
  output directory; and the days seen are listed in order.
 */
module Prepare {
  import opened Wrappers
  import opened PyText
  import opened Calendar
  import opened Sun
  import M = Membership

  // ---------------------------------------------------------------------
  // File names to date-times
  // ---------------------------------------------------------------------

  /** `int(fn[of:of+2])`. */
  function Field(fn: string, of: nat): Option<int>
  {
    PyInt(Slice(fn, of, of + 2))
  }

  /** Month to second read at layout offset `of`, then `datetime.datetime(...)`. */
  function ReadDate(fn: string, year: int, of: nat): (r: Result<DateTime, DateError>)
    ensures r.Ok? ==> Valid(r.value) && r.value.year == year
  {
    var mo, d, h, mi, s := Field(fn, of), Field(fn, of + 2), Field(fn, of + 4), Field(fn, of + 6), Field(fn, of + 8);
    if mo.None? || d.None? || h.None? || mi.None? || s.None? then Err(NotANumber)
    else Make(year, mo.value, d.value, h.value, mi.value, s.value)
  }

  /**
    `fn_to_date`: the stem before the first '.' decides the layout, twelve
    characters for `YYMMDDhhmmss` (years 2000 on) and fourteen for
    `YYYYMMDDhhmmss`; any other length fails the assertion (BadLength).
    A non-number is ValueError (NotANumber), an impossible date or time
    ValueError (OutOfRange), and a shift leaving the supported years
    OverflowError. The shift, in seconds, applies only when given and
    non-zero, as a zero timedelta is false.
   */
  function FnToDate(fn: string, shift: Option<int>): (r: Result<DateTime, DateError>)
    ensures r.Ok? ==> Valid(r.value)
    ensures r == Err(BadLength) <==> |BeforeDot(fn)| != 12 && |BeforeDot(fn)| != 14
  {
    var dp := BeforeDot(fn);
    var layout: Result<(int, nat), DateError> :=
      if |dp| == 12 then
        (match PyInt(Slice(fn, 0, 2)) case None => Err(NotANumber) case Some(y) => Ok((y + 2000, 2)))
      else if |dp| == 14 then
        (match PyInt(Slice(fn, 0, 4)) case None => Err(NotANumber) case Some(y) => Ok((y, 4)))
      else Err(BadLength);
    match layout
    case Err(e) => Err(e)
    case Ok((year, of)) =>
      match ReadDate(fn, year, of)
      case Err(e) => Err(e)
      case Ok(t) =>
        if shift.Some? && shift.value != 0 then
          AddSecondsMoves(t, shift.value);
          AddSecondsFails(t, shift.value);
          AddSeconds(t, shift.value)
        else Ok(t)
  }

  lemma AddSecondsFails(t: DateTime, s: int)
    requires Valid(t)
    ensures AddSeconds(t, s).Err? ==> AddSeconds(t, s).error == Overflow
  {
  }

  /** A slice of digits inside the string reads as its value. */
  lemma DigitsAt(fn: string, i: nat, j: nat)
    requires i < j <= |fn| && AllDigits(fn[i..j])
    ensures PyInt(Slice(fn, i, j)) == Some(Value(fn[i..j]))
  {
  }

  /** The date-time a fourteen-digit stamp `YYYYMMDDhhmmss` denotes. */
  function Stamp14(s: string): Result<DateTime, DateError>
    requires |s| == 14 && AllDigits(s)
  {
    Make(Value(s[..4]), Value(s[4..6]), Value(s[6..8]), Value(s[8..10]), Value(s[10..12]), Value(s[12..14]))
  }

  /**
    The twelve-character layout `YYMMDDhhmmss`: the century is 2000 and
    every field is a pair of digits from offset 2, so the stem names the
    date-time built from the six pairs (or the error `datetime` raises).
   */
  lemma FnToDateShort(fn: string, y: int, mo: int, d: int, h: int, mi: int, sec: int)
    requires |BeforeDot(fn)| == 12 && AllDigits(fn[..12])
    requires y == Value(fn[..12][..2]) && mo == Value(fn[..12][2..4]) && d == Value(fn[..12][4..6])
    requires h == Value(fn[..12][6..8]) && mi == Value(fn[..12][8..10]) && sec == Value(fn[..12][10..12])
    ensures FnToDate(fn, None) == Make(2000 + y, mo, d, h, mi, sec)
  {
    Year12(fn);
    Digits12(fn, 2, 4);
    Digits12(fn, 4, 6);
    Digits12(fn, 6, 8);
    Digits12(fn, 8, 10);
    Digits12(fn, 10, 12);
    Layout(fn, y);
    ReadFields(fn, 2000 + y, 2, mo, d, h, mi, sec);
  }

  /** The year read at the start of a twelve- or fourteen-character stem selects the layout. */
  lemma Layout(fn: string, y: int)
    ensures |BeforeDot(fn)| == 12 && PyInt(Slice(fn, 0, 2)) == Some(y) ==> FnToDate(fn, None) == ReadDate(fn, 2000 + y, 2)
    ensures |BeforeDot(fn)| == 14 && PyInt(Slice(fn, 0, 4)) == Some(y) ==> FnToDate(fn, None) == ReadDate(fn, y, 4)
  {
  }

  /** Five fields that read as numbers are the month to second passed to `datetime`. */
  lemma ReadFields(fn: string, year: int, of: nat, mo: int, d: int, h: int, mi: int, s: int)
    requires Field(fn, of) == Some(mo) && Field(fn, of + 2) == Some(d) && Field(fn, of + 4) == Some(h)
    requires Field(fn, of + 6) == Some(mi) && Field(fn, of + 8) == Some(s)
    ensures ReadDate(fn, year, of) == Make(year, mo, d, h, mi, s)
  {
  }

  lemma Year12(fn: string)
    requires 12 <= |fn| && AllDigits(fn[..12])
    ensures PyInt(Slice(fn, 0, 2)) == Some(Value(fn[..12][..2]))
  {
    Digits12(fn, 0, 2);
    assert fn[..12][0..2] == fn[..12][..2];
  }

  lemma Digits12(fn: string, i: nat, j: nat)
    requires i < j <= 12 <= |fn| && AllDigits(fn[..12])
    ensures PyInt(Slice(fn, i, j)) == Some(Value(fn[..12][i..j]))
  {
    assert fn[i..j] == fn[..12][i..j];
    DigitsAt(fn, i, j);
  }

  /** The fourteen-character layout: a four-digit year, then pairs of digits from offset 4. */
  lemma FnToDateLong(fn: string)
    requires |BeforeDot(fn)| == 14 && AllDigits(fn[..14])
    ensures FnToDate(fn, None) == Stamp14(fn[..14])
  {
    var s := fn[..14];
    Year14(fn);
    Layout(fn, Value(s[..4]));
    Digits14(fn, 4, 6);
    Digits14(fn, 6, 8);
    Digits14(fn, 8, 10);
    Digits14(fn, 10, 12);
    Digits14(fn, 12, 14);
    ReadFields(fn, Value(s[..4]), 4, Value(s[4..6]), Value(s[6..8]), Value(s[8..10]), Value(s[10..12]), Value(s[12..14]));
  }

  lemma Year14(fn: string)
    requires 14 <= |fn| && AllDigits(fn[..14])
    ensures PyInt(Slice(fn, 0, 4)) == Some(Value(fn[..14][..4]))
  {
    Digits14(fn, 0, 4);
    assert fn[..14][0..4] == fn[..14][..4];
  }

  lemma Digits14(fn: string, i: nat, j: nat)
    requires i < j <= 14 <= |fn| && AllDigits(fn[..14])
    ensures PyInt(Slice(fn, i, j)) == Some(Value(fn[..14][i..j]))
  {
    assert fn[i..j] == fn[..14][i..j];
    DigitsAt(fn, i, j);
  }

  /**
    The time shift: an absent or zero shift leaves the parsed date alone;
    any other shift moves it by exactly that many seconds, or overflows.
   */
  lemma FnToDateShift(fn: string, s: int)
    ensures FnToDate(fn, Some(0)) == FnToDate(fn, None)
    ensures FnToDate(fn, None).Err? ==> FnToDate(fn, Some(s)) == FnToDate(fn, None)
    ensures FnToDate(fn, None).Ok? && s != 0 ==>
      FnToDate(fn, Some(s)) == AddSeconds(FnToDate(fn, None).value, s)
    ensures FnToDate(fn, None).Ok? && FnToDate(fn, Some(s)).Ok? ==>
      Timeline(FnToDate(fn, Some(s)).value) == Timeline(FnToDate(fn, None).value) + s
  {
    if FnToDate(fn, None).Ok? {
      AddSecondsMoves(FnToDate(fn, None).value, s);
    }
  }

  // ---------------------------------------------------------------------
  // Date strings
  // ---------------------------------------------------------------------

  /** A number printed with `%0Nd` for a width it fits in. */
  lemma Fixed(n: nat, w: nat)
    requires 1 <= w && n < Pow10(w)
    ensures |Pad(n, w)| == w && AllDigits(Pad(n, w)) && Value(Pad(n, w)) == n
  {
    PadLength(n, w);
    PadValue(n, w);
  }

  lemma FieldsFit(d: DateTime)
    requires Valid(d)
    ensures |Pad(d.year, 4)| == 4 && AllDigits(Pad(d.year, 4)) && Value(Pad(d.year, 4)) == d.year
    ensures |Pad(d.month, 2)| == 2 && AllDigits(Pad(d.month, 2)) && Value(Pad(d.month, 2)) == d.month
    ensures |Pad(d.day, 2)| == 2 && AllDigits(Pad(d.day, 2)) && Value(Pad(d.day, 2)) == d.day
    ensures |Pad(d.hour, 2)| == 2 && AllDigits(Pad(d.hour, 2)) && Value(Pad(d.hour, 2)) == d.hour
    ensures |Pad(d.minute, 2)| == 2 && AllDigits(Pad(d.minute, 2)) && Value(Pad(d.minute, 2)) == d.minute
    ensures |Pad(d.second, 2)| == 2 && AllDigits(Pad(d.second, 2)) && Value(Pad(d.second, 2)) == d.second
  {
    assert Pow10(2) == 100;
    assert Pow10(4) == 10000;
    Fixed(d.year, 4);
    Fixed(d.month, 2);
    Fixed(d.day, 2);
    Fixed(d.hour, 2);
    Fixed(d.minute, 2);
    Fixed(d.second, 2);
  }

  /** `dt_string`: `YYYYMMDDhhmmss`, so fourteen digits for every supported date. */
  function DtString(d: DateTime): (s: string)
    requires Valid(d)
    ensures |s| == 14 && AllDigits(s)
  {
    FieldsFit(d);
    Pad(d.year, 4) + Pad(d.month, 2) + Pad(d.day, 2) + Pad(d.hour, 2) + Pad(d.minute, 2) + Pad(d.second, 2)
  }

  /** `day_string`: `YYYYMMDD`, the first eight characters of the full stamp. */
  function DayString(d: DateTime): (s: string)
    requires Valid(d)
    ensures |s| == 8 && AllDigits(s)
  {
    FieldsFit(d);
    Pad(d.year, 4) + Pad(d.month, 2) + Pad(d.day, 2)
  }

  /** `month_string`: `YYYYMM`, the first six characters of the day string. */
  function MonthString(d: DateTime): (s: string)
    requires Valid(d)
    ensures |s| == 6 && AllDigits(s)
  {
    FieldsFit(d);
    Pad(d.year, 4) + Pad(d.month, 2)
  }

  /** The day string is the first eight characters of the stamp, the month string the first six of the day string. */
  lemma StringPrefixes(d: DateTime)
    requires Valid(d)
    ensures DayString(d) == DtString(d)[..8]
    ensures MonthString(d) == DayString(d)[..6]
  {
    FieldsFit(d);
  }

  /** The stamp reads back as its fields. */
  lemma DtStringFields(d: DateTime)
    requires Valid(d)
    ensures var s := DtString(d);
      Value(s[..4]) == d.year && Value(s[4..6]) == d.month && Value(s[6..8]) == d.day &&
      Value(s[8..10]) == d.hour && Value(s[10..12]) == d.minute && Value(s[12..14]) == d.second
  {
    FieldsFit(d);
    var s := DtString(d);
    assert s[..4] == Pad(d.year, 4);
    assert s[4..6] == Pad(d.month, 2);
    assert s[6..8] == Pad(d.day, 2);
    assert s[8..10] == Pad(d.hour, 2);
    assert s[10..12] == Pad(d.minute, 2);
    assert s[12..14] == Pad(d.second, 2);
  }

  /** The file name written for a date parses back to that date. */
  lemma RoundTrip(d: DateTime)
    requires Valid(d)
    ensures FnToDate(DtString(d) + ".jpg", None) == Ok(d)
  {
    var s := DtString(d);
    StampName(s);
    FnToDateLong(s + ".jpg");
    StampFields(d);
  }

  /** A fourteen-digit stamp followed by `.jpg` is a file name in the long layout. */
  lemma StampName(s: string)
    requires |s| == 14 && AllDigits(s)
    ensures |BeforeDot(s + ".jpg")| == 14 && (s + ".jpg")[..14] == s
  {
    assert '.' !in s by {
      forall i | 0 <= i < |s| ensures s[i] != '.' { assert IsDigit(s[i]); }
    }
    assert s + ".jpg" == s + "." + "jpg";
    BeforeDotNoDot(s, "jpg");
  }

  /** The stamp of a date-time denotes that date-time. */
  lemma StampFields(d: DateTime)
    requires Valid(d)
    ensures Stamp14(DtString(d)) == Ok(d)
  {
    DtStringFields(d);
  }

  /** Two dates with the same day string fall on the same calendar day. */
  lemma DayStringInjective(a: DateTime, b: DateTime)
    requires Valid(a) && Valid(b) && DayString(a) == DayString(b)
    ensures a.year == b.year && a.month == b.month && a.day == b.day
  {
    DtStringFields(a);
    DtStringFields(b);
    var s := DayString(a);
    StringPrefixes(a);
    StringPrefixes(b);
    assert DtString(a)[..4] == s[..4] == DtString(b)[..4];
    assert DtString(a)[4..6] == s[4..6] == DtString(b)[4..6];
    assert DtString(a)[6..8] == s[6..8] == DtString(b)[6..8];
  }

  // ---------------------------------------------------------------------
  // Averaging groups
  // ---------------------------------------------------------------------

  /** The fields a photo carries in `mapping`: `dt`, `period`, `day`, `month` and `orig`. */
  datatype Details = Details(dt: DateTime, period: Period, day: string, month: string, orig: string)

  /** `day_string(dt + timedelta(k))`, or OverflowError when that day is outside the supported years. */
  function DayAfter(dt: DateTime, k: int): (r: Result<string, DateError>)
    requires Valid(dt)
    ensures r.Err? <==> AddDays(dt, k).Err?
    ensures r.Err? ==> r.error == Overflow
  {
    match AddDays(dt, k)
    case Err(_) => Err(Overflow)
    case Ok(o) =>
      AddDaysMoves(dt, k);
      Ok(DayString(o))
  }

  /** The day strings of the n days starting lo days from dt, stopping at the first overflow. */
  function WindowDays(dt: DateTime, lo: int, n: nat): (r: Result<seq<string>, DateError>)
    requires Valid(dt)
    ensures r.Ok? ==> |r.value| == n
    ensures r.Ok? ==> forall j :: 0 <= j < n ==> DayAfter(dt, lo + j) == Ok(r.value[j])
    ensures r.Err? <==> exists k :: lo <= k < lo + n && DayAfter(dt, k).Err?
    ensures r.Err? ==> r.error == Overflow
  {
    if n == 0 then Ok([])
    else
      match WindowDays(dt, lo, n - 1)
      case Err(e) => Err(e)
      case Ok(ws) =>
        match DayAfter(dt, lo + n - 1)
        case Err(e) => Err(e)
        case Ok(o) => Ok(ws + [o])
  }

  /** The five days from two before dt to two after it, dt itself in the middle. */
  function Window(dt: DateTime): Result<seq<string>, DateError>
    requires Valid(dt)
  {
    WindowDays(dt, -2, 5)
  }

  /** Digit strings are path segments. */
  lemma DigitsSegment(s: string)
    requires s != [] && AllDigits(s)
    ensures Segment(s)
  {
    assert '/' !in s by {
      forall i | 0 <= i < |s| ensures s[i] != '/' { assert IsDigit(s[i]); }
    }
  }

  /** Different calendar days have different day strings. */
  lemma DayStringsDiffer(a: DateTime, b: DateTime)
    requires Valid(a) && Valid(b) && Ordinal(a) != Ordinal(b)
    ensures DayString(a) != DayString(b)
  {
    if DayString(a) == DayString(b) {
      DayStringInjective(a, b);
    }
  }

  /** Position j of the window is the day j - 2 days from dt. */
  lemma WindowDay(dt: DateTime, j: int)
    requires Valid(dt) && Window(dt).Ok? && 0 <= j < 5
    ensures AddDays(dt, j - 2).Ok? && Valid(AddDays(dt, j - 2).value)
    ensures Window(dt).value[j] == DayString(AddDays(dt, j - 2).value)
    ensures Ordinal(AddDays(dt, j - 2).value) == Ordinal(dt) + j - 2
  {
    assert DayAfter(dt, -2 + j) == Ok(Window(dt).value[j]);
    AddDaysMoves(dt, j - 2);
  }

  /** The window holds five different day strings with the photo's own day in the middle. */
  lemma WindowDistinct(dt: DateTime)
    requires Valid(dt) && Window(dt).Ok?
    ensures Distinct(Window(dt).value) && M.AllSegments(Window(dt).value)
    ensures Window(dt).value[2] == DayString(dt)
  {
    var ws := Window(dt).value;
    WindowDay(dt, 2);
    forall i, j | 0 <= i < j < 5 ensures ws[i] != ws[j] {
      WindowDay(dt, i);
      WindowDay(dt, j);
      DayStringsDiffer(AddDays(dt, i - 2).value, AddDays(dt, j - 2).value);
    }
    forall i | 0 <= i < 5 ensures Segment(ws[i]) {
      WindowDay(dt, i);
      DigitsSegment(ws[i]);
    }
  }

  /**
    What one file contributes to `build_mapping`: its details, and its
    fourteen groups in the order the source appends to them.
   */
  function FileEntry(sunAt: DateTime -> SunTimes, src: string, shift: Option<int>, fn: string): (r: Result<M.Entry<Details>, DateError>)
  {
    match FnToDate(fn, shift)
    case Err(e) => Err(e)
    case Ok(dt) =>
      var period := DayPeriod(TimeOfDay(dt), sunAt(dt));
      var day, month := DayString(dt), MonthString(dt);
      match Window(dt)
      case Err(e) => Err(e)
      case Ok(others) =>
        Ok(M.Entry(Details(dt, period, day, month, Join(src, fn)),
                   M.GroupKeys(day, month, period.Name(), others, period.Name())))
  }

  function EntryOf(sunAt: DateTime -> SunTimes, src: string, shift: Option<int>): string -> Result<M.Entry<Details>, DateError>
  {
    fn => FileEntry(sunAt, src, shift, fn)
  }

  /** A file fails only when its name does not parse or a day of its window overflows. */
  lemma FileFails(sunAt: DateTime -> SunTimes, src: string, shift: Option<int>, fn: string)
    ensures FileEntry(sunAt, src, shift, fn).Err? <==>
      FnToDate(fn, shift).Err? || exists k :: -2 <= k <= 2 && AddDays(FnToDate(fn, shift).value, k).Err?
  {
    if FnToDate(fn, shift).Ok? {
      var dt := FnToDate(fn, shift).value;
      if Window(dt).Err? {
        var k :| -2 <= k < 3 && DayAfter(dt, k).Err?;
        assert AddDays(dt, k).Err?;
      } else {
        forall k | -2 <= k <= 2 ensures AddDays(dt, k).Ok? { WindowDay(dt, k + 2); }
      }
    }
  }

  /**
    A parsed photo goes to fourteen different groups: its day and its
    month, each for all periods and for its own period, and then the
    5-day windows of the days around it.
   */
  lemma FileGroups(sunAt: DateTime -> SunTimes, src: string, shift: Option<int>, fn: string)
    requires FileEntry(sunAt, src, shift, fn).Ok?
    ensures var en := FileEntry(sunAt, src, shift, fn).value;
      var dt := en.details.dt;
      FnToDate(fn, shift) == Ok(dt) && Window(dt).Ok? &&
      en.details.period == DayPeriod(TimeOfDay(dt), sunAt(dt)) &&
      en.details.day == DayString(dt) && en.details.month == MonthString(dt) && en.details.orig == Join(src, fn) &&
      en.keys == M.GroupKeys(DayString(dt), MonthString(dt), en.details.period.Name(), Window(dt).value, en.details.period.Name()) &&
      |en.keys| == 14 && Distinct(en.keys)
  {
    var dt := FnToDate(fn, shift).value;
    var p := DayPeriod(TimeOfDay(dt), sunAt(dt)).Name();
    WindowDistinct(dt);
    DigitsSegment(DayString(dt));
    DigitsSegment(MonthString(dt));
    M.GroupKeysDistinct(DayString(dt), MonthString(dt), p, Window(dt).value, p);
  }

  /** The 5-day groups of a photo are those of the days from two before it to two after it, in that order. */
  lemma WindowGroups(dt: DateTime, p: string)
    requires Valid(dt) && Window(dt).Ok?
    ensures forall j :: 0 <= j < 5 ==>
      DayAfter(dt, j - 2).Ok? &&
      M.WindowKeys(Window(dt).value, p)[2 * j] == M.Key("5day", DayAfter(dt, j - 2).value, "all") &&
      M.WindowKeys(Window(dt).value, p)[2 * j + 1] == M.Key("5day", DayAfter(dt, j - 2).value, p)
  {
    var others := Window(dt).value;
    forall j | 0 <= j < 5
      ensures DayAfter(dt, j - 2) == Ok(others[j])
      ensures M.WindowKeys(others, p)[2 * j] == M.Key("5day", others[j], "all")
      ensures M.WindowKeys(others, p)[2 * j + 1] == M.Key("5day", others[j], p)
    {
      assert DayAfter(dt, -2 + j) == Ok(others[j]);
      M.WindowPair(others, p, j);
    }
  }

  /**
    `build_mapping`: one pass over the files, each parsed, classified and
    appended to its groups; an exception for one file aborts the build.
   */
  method BuildMapping(sunAt: DateTime -> SunTimes, src: string, files: seq<string>, shift: Option<int>)
    returns (r: Result<M.Mapping<Details>, DateError>)
    ensures r == M.Build(files, EntryOf(sunAt, src, shift))
  {
    var mapping: map<string, Details> := map[];
    var average: map<string, seq<Details>> := map[];
    var i := 0;
    while i < |files|
      invariant 0 <= i <= |files|
      invariant M.Build(files[..i], EntryOf(sunAt, src, shift)) == Ok(M.Mapping(mapping, average))
    {
      var fn := files[i];
      assert files[..i + 1][..i] == files[..i];
      var parsed := FnToDate(fn, shift);
      if parsed.Err? {
        r := Err(parsed.error);
        M.BuildErrExtends(files, i + 1, EntryOf(sunAt, src, shift));
        return;
      }
      var dt := parsed.value;
      var period := DayPeriod(TimeOfDay(dt), sunAt(dt));
      var day := DayString(dt);
      var month := MonthString(dt);
      var details := Details(dt, period, day, month, Join(src, fn));
      mapping := mapping[fn := details];
      var membership := MembershipList(dt, day, month, period.Name());
      if membership.Err? {
        r := Err(membership.error);
        M.BuildErrExtends(files, i + 1, EntryOf(sunAt, src, shift));
        return;
      }
      average := AddToGroups(average, membership.value, details);
      i := i + 1;
    }
    assert files[..i] == files;
    r := Ok(M.Mapping(mapping, average));
  }

  /** The `membership` list of one photo: its day and month groups, then the loop over its window. */
  method MembershipList(dt: DateTime, day: string, month: string, p: string) returns (r: Result<seq<string>, DateError>)
    requires Valid(dt) && day == DayString(dt) && month == MonthString(dt) && Segment(p)
    ensures r.Ok? <==> Window(dt).Ok?
    ensures r.Err? ==> r.error == Window(dt).error
    ensures r.Ok? ==> r.value == M.GroupKeys(day, month, p, Window(dt).value, p)
  {
    DigitsSegment(day);
    DigitsSegment(month);
    var membership := Groups(day, month, p);
    var k := 0;
    while k < 5
      invariant 0 <= k <= 5
      invariant WindowDays(dt, -2, k).Ok?
      invariant membership == M.GroupKeys(day, month, p, WindowDays(dt, -2, k).value, p)
    {
      // k - 2 runs over -2..2; a past day is `dt - timedelta(2 - k)`, the same day as `dt + timedelta(k - 2)`
      var other := DayAfter(dt, k - 2);
      if other.Err? {
        assert Window(dt).Err?;
        return Err(other.error);
      }
      AddDaysMoves(dt, k - 2);
      DigitsSegment(other.value);
      var ws := WindowDays(dt, -2, k).value;
      assert WindowDays(dt, -2, k + 1) == Ok(ws + [other.value]);
      M.GroupKeysSnoc(day, month, p, ws, other.value, p);
      membership := membership + WindowPair(other.value, p);
      k := k + 1;
    }
    return Ok(membership);
  }

  /** The loop over `membership`: a new group starts as `[details]`, an existing one is appended to. */
  method AddToGroups(average: map<string, seq<Details>>, membership: seq<string>, details: Details)
    returns (a: map<string, seq<Details>>)
    ensures a == M.AddTo(average, membership, details)
  {
    a := average;
    var j := 0;
    while j < |membership|
      invariant 0 <= j <= |membership|
      invariant a == M.AddTo(average, membership[..j], details)
    {
      var entry := membership[j];
      ghost var prev := a;
      if entry !in a {
        assert M.Get(a, entry) + [details] == [details];
        a := a[entry := [details]];
      } else {
        a := a[entry := a[entry] + [details]];
      }
      assert a == prev[entry := M.Get(prev, entry) + [details]];
      assert membership[..j + 1][..j] == membership[..j];
      j := j + 1;
    }
    assert membership[..j] == membership;
  }

  /** The day and month groups, written with `os.path.join` as the source does. */
  function Groups(day: string, month: string, p: string): (ks: seq<string>)
    requires Segment(day) && Segment(month) && Segment(p)
    ensures ks == M.GroupKeys(day, month, p, [], p)
  {
    JoinPlain("day", day, "all");
    JoinPlain("day", day, p);
    JoinPlain("month", month, "all");
    JoinPlain("month", month, p);
    [Join(Join("day", day), "all"), Join(Join("day", day), p), Join(Join("month", month), "all"), Join(Join("month", month), p)]
  }

  /** The two 5-day groups of one window day, written with `os.path.join`. */
  function WindowPair(other: string, p: string): (ks: seq<string>)
    requires Segment(other) && Segment(p)
    ensures ks == [M.Key("5day", other, "all"), M.Key("5day", other, p)]
  {
    JoinPlain("5day", other, "all");
    JoinPlain("5day", other, p);
    [Join(Join("5day", other), "all"), Join(Join("5day", other), p)]
  }

  /**
    After a successful build every file is in `mapping` with its own
    details, and each group lists exactly the photos that belong to it,
    in the order of `files`.
   */
  lemma BuildMappingContents(sunAt: DateTime -> SunTimes, src: string, files: seq<string>, shift: Option<int>)
    requires M.Build(files, EntryOf(sunAt, src, shift)).Ok?
    ensures var m := M.Build(files, EntryOf(sunAt, src, shift)).value;
      (forall f :: f in m.mapping <==> f in files) &&
      (forall f :: f in m.mapping ==> FileEntry(sunAt, src, shift, f).Ok? && m.mapping[f] == FileEntry(sunAt, src, shift, f).value.details) &&
      (forall k :: M.Get(m.average, k) == M.Members(files, EntryOf(sunAt, src, shift), k))
  {
    var entry := EntryOf(sunAt, src, shift);
    forall f | entry(f).Ok? ensures Distinct(entry(f).value.keys) {
      FileGroups(sunAt, src, shift, f);
    }
    M.BuildContents(files, entry);
  }

  // ---------------------------------------------------------------------
  // Fingerprint memo table
  // ---------------------------------------------------------------------

  /** A fingerprint as `_fingerprint` returns it: the 27 channel values of a 3x3 thumbnail. */
  type Fp = seq<int>

  /** `cache_invalidate`: the table without that path; a path that is not there is left alone. */
  function Forget(cache: map<string, Fp>, path: string): (c: map<string, Fp>)
    ensures path !in c
    ensures forall k :: k != path ==> (k in c <==> k in cache)
    ensures forall k :: k in c ==> c[k] == cache[k]
  {
    if path in cache then cache - {path} else cache
  }

  /** The answer of one `fingerprint` call and the table after it. */
  datatype Lookup = Lookup(fp: Fp, cache: map<string, Fp>)

  /** `fingerprint`: the stored value when there is one, otherwise `compute` is consulted and its answer stored. */
  function Memo(cache: map<string, Fp>, path: string, compute: string -> Fp): (r: Lookup)
    ensures path in r.cache && r.fp == r.cache[path]
    ensures forall k :: k != path ==> (k in r.cache <==> k in cache)
    ensures forall k :: k in cache ==> k in r.cache && r.cache[k] == cache[k]
  {
    if path !in cache then Lookup(compute(path), cache[path := compute(path)]) else Lookup(cache[path], cache)
  }

  /** Once a path is looked up, later lookups answer the same and change nothing, whatever the oracle would say now. */
  lemma MemoStable(cache: map<string, Fp>, path: string, compute: string -> Fp, later: string -> Fp)
    ensures Memo(Memo(cache, path, compute).cache, path, later) == Memo(cache, path, compute)
  {
  }

  /** Only a path never seen, or invalidated since, is computed afresh. */
  lemma MemoComputes(cache: map<string, Fp>, path: string, compute: string -> Fp)
    ensures Memo(cache, path, compute).fp == if path in cache then cache[path] else compute(path)
    ensures Memo(Forget(cache, path), path, compute).fp == compute(path)
  {
  }

  /** Forgetting one path leaves the memoised answers for every other path standing. */
  lemma ForgetOthers(cache: map<string, Fp>, path: string, other: string, compute: string -> Fp)
    requires other != path && other in cache
    ensures Memo(Forget(cache, path), other, compute).fp == Memo(cache, other, compute).fp
  {
  }

  /** The table of fingerprints the script keeps for the whole run (`FP_CACHE`). */
  class FingerprintCache {
    var cache: map<string, Fp>

    constructor()
      ensures cache == map[]
    {
      cache := map[];
    }

    /** `cache_invalidate`. */
    method Invalidate(path: string)
      modifies this
      ensures cache == Forget(old(cache), path)
    {
      if path in cache {
        cache := cache - {path};
      }
    }

    /** `fingerprint`, with `_fingerprint` as the oracle `compute`. */
    method Fingerprint(path: string, compute: string -> Fp) returns (fp: Fp)
      modifies this
      ensures Lookup(fp, cache) == Memo(old(cache), path, compute)
    {
      if path !in cache {
        cache := cache[path := compute(path)];
      }
      fp := cache[path];
    }

    /**
      The table `fp_cache_save` writes for an output directory: the entries
      whose path starts with `root`, keyed by the rest of the path.
     */
    method SaveData(root: string) returns (data: map<string, Fp>)
      ensures forall k :: k in data <==> root + k in cache
      ensures forall k :: k in data ==> data[k] == cache[root + k]
    {
      data := map[];
      var rest := cache.Keys;
      while rest != {}
        invariant rest <= cache.Keys
        invariant forall k :: k in data <==> root + k in cache && root + k !in rest
        invariant forall k :: k in data ==> data[k] == cache[root + k]
        decreases rest
      {
        var f :| f in rest;
        if StartsWith(f, root) {
          var k := f[|root|..];
          assert root + k == f;
          data := data[k := cache[f]];
        }
        rest := rest - {f};
      }
    }
  }

  // ---------------------------------------------------------------------
  // Day list
  // ---------------------------------------------------------------------

  /** `day_list`: every `day` of the mapping once, in increasing order. */
  method DayList(mapping: map<string, Details>) returns (days: seq<string>)
    ensures StrictlySorted(days)
    ensures forall x :: x in days <==> exists f :: f in mapping && mapping[f].day == x
  {
    var seen: set<string> := {};
    var rest := mapping.Keys;
    while rest != {}
      invariant rest <= mapping.Keys
      invariant forall x :: x in seen <==> exists f :: f in mapping && f !in rest && mapping[f].day == x
      decreases rest
    {
      var f :| f in rest;
      seen := seen + {mapping[f].day};
      rest := rest - {f};
    }
    // sorted(days.keys())
    days := [];
    var todo := seen;
    while todo != {}
      invariant todo <= seen
      invariant StrictlySorted(days)
      invariant forall x :: x in days <==> x in seen && x !in todo
      decreases todo
    {
      var x :| x in todo;
      days := Insert(days, x);
      todo := todo - {x};
    }
  }
}
