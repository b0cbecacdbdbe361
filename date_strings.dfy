/** The `YYYYMMDD` date strings the userscript passes around, and their
    conversions to and from calendar dates: validity with its one-year search
    window, day addition, the dashed form, weekdays, flight durations, and the
    `YYYYMMDDFROMTO` query keys. */
module DateStrings {
  import opened Text
  import opened Calendar

  // ---------------------------------------------------------------
  // `new Date(y, m, d)` and the two directions of conversion
  // ---------------------------------------------------------------

  /** `new Date(y, mi, d)` with a zero-based month index: a year 0..99 means 19xx,
      and out-of-range months and days roll into neighbouring months and years. */
  function MakeDate(y: int, mi: int, d: int): (r: Date)
    ensures Valid(r)
  {
    var fy := if 0 <= y <= 99 then 1900 + y else y;
    AddDays(Date(fy + mi / 12, mi % 12 + 1, 1), d - 1)
  }

  /** The fields of a real date with a year of at least 100 are taken as they are. */
  lemma MakeDateFields(y: int, m: int, d: int)
    requires Valid(Date(y, m, d)) && (y < 0 || y > 99)
    ensures MakeDate(y, m - 1, d) == Date(y, m, d)
  {
  }

  /** Overflowing fields count on from the first of the normalised month. */
  lemma MakeDateOverflow(y: int, mi: int, d: int)
    requires y < 0 || y > 99
    ensures DayNumber(MakeDate(y, mi, d)) == DayNumber(Date(y + mi / 12, mi % 12 + 1, 1)) + d - 1
  {
    AddDaysNumber(Date(y + mi / 12, mi % 12 + 1, 1), d - 1);
  }

  /** `dateStringToDate`: the three fields go through `+`, so a field that is not a
      digit string makes an invalid date (None); an empty field reads as 0. */
  function DateStringToDate(s: string): Option<Date>
  {
    var y := ToNumber(Substring(s, 0, 4));
    var m := ToNumber(Substring(s, 4, 6));
    var d := ToNumber(Substring(s, 6, 8));
    if y.Some? && m.Some? && d.Some? then Some(MakeDate(y.value, m.value - 1, d.value)) else None
  }

  /** Parsing fails exactly when one of the three fields is not a digit string. */
  lemma DateStringParses(s: string)
    ensures DateStringToDate(s).Some? <==>
      AllDigits(Substring(s, 0, 4)) && AllDigits(Substring(s, 4, 6)) && AllDigits(Substring(s, 6, 8))
  {
  }

  /** `getFullYear()` as text; a negative year carries a minus sign. */
  function YearString(y: int): string
  {
    if y < 0 then "-" + NatToString(-y) else NatToString(y)
  }

  /** `dateToDateString`: the year as is, month and day padded to two digits. */
  function DateToDateString(d: Date): string
    requires Valid(d)
  {
    YearString(d.year) + PadStart2(NatToString(d.month)) + PadStart2(NatToString(d.day))
  }

  /** Eight digits (`/^\d{8}$/`). */
  predicate IsDateString(s: string)
  {
    |s| == 8 && AllDigits(s)
  }

  function YearField(s: string): nat
    requires IsDateString(s)
  {
    DigitsValue(s[..4])
  }

  function MonthField(s: string): nat
    requires IsDateString(s)
  {
    DigitsValue(s[4..6])
  }

  function DayField(s: string): nat
    requires IsDateString(s)
  {
    DigitsValue(s[6..])
  }

  /** The date a string spells out, field by field. */
  function Fields(s: string): Date
    requires IsDateString(s)
  {
    Date(YearField(s), MonthField(s), DayField(s))
  }

  /** A string naming a real calendar date with a four-digit year. */
  predicate IsRealDateString(s: string)
  {
    IsDateString(s) && 1000 <= YearField(s) && Valid(Fields(s))
  }

  lemma FourDigits(t: string)
    requires |t| == 4 && AllDigits(t)
    ensures DigitsValue(t) == 1000 * DigitValue(t[0]) + 100 * DigitValue(t[1]) + 10 * DigitValue(t[2]) + DigitValue(t[3])
  {
    var t3, t2, t1 := t[..3], t[..2], t[..1];
    assert t3[..2] == t2 && t2[..1] == t1 && t1[..0] == [];
    assert DigitsValue(t1) == DigitValue(t[0]);
    assert DigitsValue(t2) == 10 * DigitsValue(t1) + DigitValue(t[1]);
    assert DigitsValue(t3) == 10 * DigitsValue(t2) + DigitValue(t[2]);
  }

  lemma TwoDigits(t: string)
    requires |t| == 2 && AllDigits(t)
    ensures DigitsValue(t) == 10 * DigitValue(t[0]) + DigitValue(t[1])
  {
    var t1 := t[..1];
    assert t1[..0] == [];
    assert DigitsValue(t1) == DigitValue(t[0]);
  }

  lemma DigitCharValue(c: char)
    requires IsDigit(c)
    ensures DigitChar(DigitValue(c)) == c
  {
  }

  /** A two-digit field with a non-zero value is its own padded rendering. */
  lemma PadTwoDigits(t: string)
    requires |t| == 2 && AllDigits(t) && DigitsValue(t) >= 1
    ensures PadStart2(NatToString(DigitsValue(t))) == t
  {
    TwoDigits(t);
    if t[0] == '0' {
      DigitCharValue(t[1]);
      assert NatToString(DigitsValue(t)) == [t[1]];
      assert "0" + [t[1]] == t;
    } else {
      NatToStringCanonical(t);
    }
  }

  /** A padded month or day reads back as its value. */
  lemma PadValue(n: nat)
    requires 1 <= n <= 99
    ensures |PadStart2(NatToString(n))| == 2 && AllDigits(PadStart2(NatToString(n)))
    ensures DigitsValue(PadStart2(NatToString(n))) == n
  {
    NatToStringValue(n);
    if n >= 10 {
      assert NatToString(n) == NatToString(n / 10) + [DigitChar(n % 10)];
    } else {
      DigitsValueLeadingZero(NatToString(n));
    }
  }

  /** Parsing a real date string gives its fields, and writing that date out gives the string back. */
  lemma DateStringRoundTrip(s: string)
    requires IsRealDateString(s)
    ensures DateStringToDate(s) == Some(Fields(s))
    ensures DateToDateString(Fields(s)) == s
  {
    var y, m, d := s[..4], s[4..6], s[6..];
    assert AllDigits(y) && AllDigits(m) && AllDigits(d);
    MakeDateFields(YearField(s), MonthField(s), DayField(s));
    FourDigits(y);
    assert y[0] != '0';
    NatToStringCanonical(y);
    PadTwoDigits(m);
    PadTwoDigits(d);
    assert s == y + m + d;
    ParseDateString(s);
    assert YearString(YearField(s)) == y;
  }

  /** An eight-digit string parses to `new Date` of its three fields. */
  lemma ParseDateString(s: string)
    requires IsDateString(s)
    ensures DateStringToDate(s) == Some(MakeDate(YearField(s), MonthField(s) - 1, DayField(s)))
  {
    assert Substring(s, 0, 4) == s[..4] && Substring(s, 4, 6) == s[4..6] && Substring(s, 6, 8) == s[6..];
    assert AllDigits(s[..4]) && AllDigits(s[4..6]) && AllDigits(s[6..]);
  }

  /** Writing a date with a four-digit year gives a real date string that parses back to it. */
  lemma DateToDateStringRoundTrip(d: Date)
    requires Valid(d) && 1000 <= d.year <= 9999
    ensures IsRealDateString(DateToDateString(d)) && Fields(DateToDateString(d)) == d
    ensures DateStringToDate(DateToDateString(d)) == Some(d)
  {
    var y := NatToString(d.year);
    var m := PadStart2(NatToString(d.month));
    var dd := PadStart2(NatToString(d.day));
    NatToStringFourDigits(d.year);
    NatToStringValue(d.year);
    PadValue(d.month);
    PadValue(d.day);
    var s := y + m + dd;
    assert s[..4] == y && s[4..6] == m && s[6..] == dd;
    DateStringRoundTrip(s);
  }

  // ---------------------------------------------------------------
  // isValidDate
  // ---------------------------------------------------------------

  /** The search window: from one day before now to just under 366 days after it. */
  predicate InWindow(d: Date, now: int)
    requires Valid(d)
  {
    -86400000 <= DayMs(d) - now < 366 * 86400000
  }

  /** `isValidDate` as src/main.ts and cx.user.js write it: eight digits, the fields
      checked as written (year 1000..3000, month 1..12, day within the month under the
      leap rule), then the date no more than one day past and under 366 days ahead of `now`. */
  function IsValidDate(s: string, now: int): bool
  {
    if !IsDateString(s) then false
    else
      var year, month, day := YearField(s), MonthField(s), DayField(s);
      if year < 1000 || year > 3000 || month == 0 || month > 12 then false
      else if day <= 0 || day > MonthLength(year, month) then false
      else
        var diff := DayMs(MakeDate(year, month - 1, day)) - now;
        !(diff >= 366 * 86400000 || diff < -86400000)
  }

  /** An accepted string names a real date with a year up to 3000 inside the window,
      and it is exactly how that date is written. */
  lemma IsValidDateSound(s: string, now: int)
    requires IsValidDate(s, now)
    ensures IsRealDateString(s) && YearField(s) <= 3000 && InWindow(Fields(s), now)
    ensures DateToDateString(Fields(s)) == s
  {
    MakeDateFields(YearField(s), MonthField(s), DayField(s));
    DateStringRoundTrip(s);
  }

  /** Every real date with a year 1000..3000 inside the window is accepted. */
  lemma IsValidDateComplete(d: Date, now: int)
    requires Valid(d) && 1000 <= d.year <= 3000 && InWindow(d, now)
    ensures IsValidDate(DateToDateString(d), now)
  {
    DateToDateStringRoundTrip(d);
    MakeDateFields(d.year, d.month, d.day);
  }

  /** February 29th is accepted only in a leap year. */
  lemma IsValidDateLeapDay(s: string, now: int)
    requires IsDateString(s) && MonthField(s) == 2 && DayField(s) == 29
    requires IsValidDate(s, now)
    ensures IsLeap(YearField(s))
  {
  }

  /** `isValidDate` as src/utils.ts writes it: the fields are read back from
      `dateStringToDate`, after the JavaScript date has already rolled an
      impossible day or month into the next one. */
  function UtilsIsValidDate(s: string, now: int): bool
  {
    if !IsDateString(s) then false
    else
      var date := DateStringToDate(s);
      if date.None? then false
      else
        var d := date.value;
        if d.year < 1000 || d.year > 3000 || d.month == 0 || d.month > 12 then false
        else if d.day <= 0 || d.day > MonthLength(d.year, d.month) then false
        else
          var diff := DayMs(d) - now;
          !(diff >= 366 * 86400000 || diff < -86400000)
  }

  lemma Feb29Fields()
    ensures IsDateString("20230229") && Fields("20230229") == Date(2023, 2, 29)
  {
    var s := "20230229";
    assert s[..4] == "2023" && s[4..6] == "02" && s[6..] == "29";
    FourDigits("2023");
    TwoDigits("02");
    TwoDigits("29");
  }

  lemma Feb29Parses()
    ensures DateStringToDate("20230229") == Some(Date(2023, 3, 1))
  {
    Feb29Fields2023();
    Feb29Rolls();
  }

  lemma Feb29Fields2023()
    ensures DateStringToDate("20230229") == Some(MakeDate(2023, 1, 29))
  {
    Feb29Fields();
    ParseDateString("20230229");
  }

  /** `new Date(2023, 1, 29)` rolls over to 1 March 2023. */
  lemma Feb29Rolls()
    ensures MakeDate(2023, 1, 29) == Date(2023, 3, 1)
  {
    var feb := Date(2023, 2, 1);
    assert MonthLength(2023, 2) == 28;
    assert AddDays(feb, 28) == AddDays(Date(2023, 3, 1), 0);
  }

  /** "20230229" is not a real date, yet the src/utils.ts check accepts it on 1 March 2023,
      because `new Date(2023, 1, 29)` is 1 March; the src/main.ts check rejects it whatever the day. */
  lemma UtilsIsValidDateAcceptsFeb29(now: int)
    ensures !IsRealDateString("20230229")
    ensures UtilsIsValidDate("20230229", DayMs(Date(2023, 3, 1)))
    ensures !IsValidDate("20230229", now)
  {
    Feb29Fields();
    Feb29Parses();
  }

  /** The two checks agree on every string that names a real date. */
  lemma UtilsIsValidDateOnRealDates(s: string, now: int)
    requires IsRealDateString(s)
    ensures UtilsIsValidDate(s, now) == IsValidDate(s, now)
  {
    DateStringRoundTrip(s);
    MakeDateFields(YearField(s), MonthField(s), DayField(s));
  }

  // ---------------------------------------------------------------
  // dateAdd
  // ---------------------------------------------------------------

  /** `dateAdd(days, dateString?)`: from today's date when no string is given, otherwise
      from the parsed string; an unparsable string gives the text of an invalid date. */
  function DateAdd(days: int, date: Option<string>, today: Date): string
    requires Valid(today)
  {
    var base := if date.None? then Some(today) else DateStringToDate(date.value);
    if base.None? then "NaNNaNNaN" else DateToDateString(AddDays(base.value, days))
  }

  /** Adding no days gives back a real date string unchanged. */
  lemma DateAddZero(s: string, today: Date)
    requires Valid(today) && IsRealDateString(s)
    ensures DateAdd(0, Some(s), today) == s
  {
    DateStringRoundTrip(s);
  }

  /** `dateAdd(n, s)` names the date exactly `n` days after `s` (while the year keeps four digits). */
  lemma DateAddMoves(n: int, s: string, today: Date)
    requires Valid(today) && IsRealDateString(s)
    requires 1000 <= AddDays(Fields(s), n).year <= 9999
    ensures IsRealDateString(DateAdd(n, Some(s), today))
    ensures DayNumber(Fields(DateAdd(n, Some(s), today))) == DayNumber(Fields(s)) + n
  {
    DateStringRoundTrip(s);
    DateToDateStringRoundTrip(AddDays(Fields(s), n));
    AddDaysNumber(Fields(s), n);
  }

  /** Advancing one day at a time: one more day after `n` days is `n + 1` days. */
  lemma DateAddStep(n: int, s: string, today: Date)
    requires Valid(today) && IsRealDateString(s)
    requires 1000 <= AddDays(Fields(s), n).year <= 9999
    ensures DateAdd(1, Some(DateAdd(n, Some(s), today)), today) == DateAdd(n + 1, Some(s), today)
  {
    var d := Fields(s);
    DateStringRoundTrip(s);
    DateToDateStringRoundTrip(AddDays(d, n));
    AddDaysCompose(d, n, 1);
  }

  // ---------------------------------------------------------------
  // Dashed form, weekday, durations
  // ---------------------------------------------------------------

  /** `dateStringToDashedDateString`: `YYYY-MM-DD`. */
  function DashedDateString(s: string): string
  {
    Substring(s, 0, 4) + "-" + PadStart2(Substring(s, 4, 6)) + "-" + PadStart2(Substring(s, 6, 8))
  }

  /** On an eight-character string the dashes split it back into year, month and day. */
  lemma DashedDateStringSplits(s: string)
    requires |s| == 8 && '-' !in s
    ensures DashedDateString(s) == s[..4] + "-" + s[4..6] + "-" + s[6..]
    ensures Split(DashedDateString(s), '-') == [s[..4], s[4..6], s[6..]]
  {
    var parts := [s[..4], s[4..6], s[6..]];
    assert Substring(s, 0, 4) == s[..4] && Substring(s, 4, 6) == s[4..6] && Substring(s, 6, 8) == s[6..];
    assert Join(parts[2..], "-") == s[6..];
    assert Join(parts[1..], "-") == s[4..6] + "-" + s[6..];
    assert Join(parts, "-") == s[..4] + "-" + (s[4..6] + "-" + s[6..]);
    assert s == s[..4] + s[4..6] + s[6..];
    assert '-' !in s[..4] && '-' !in s[4..6] && '-' !in s[6..];
    assert DashedDateString(s) == Join(parts, ['-']);
    SplitJoin(parts, '-');
  }

  const WeekdayNames: seq<string> := ["Sun", "Mon", "Tue", "Wed", "Thu", "Fri", "Sat"]

  /** `dateToWeekday` */
  function DateToWeekday(d: Date): (r: string)
    requires Valid(d)
    ensures r in WeekdayNames
  {
    WeekdayNames[Weekday(d)]
  }

  /** `dateStringToWeekday`: the weekday of `new Date(+y, +m - 1, +d)`, undefined for an invalid date. */
  function DateStringToWeekday(s: string): Option<string>
  {
    var d := DateStringToDate(s);
    if d.None? then None else Some(DateToWeekday(d.value))
  }

  /** 1 January 2024 was a Monday. */
  lemma WeekdayAnchor()
    ensures DateToWeekday(Date(2024, 1, 1)) == "Mon"
  {
    assert DaysBeforeYear(2024) == 738885;
  }

  /** Each following day takes the next name in the week ... */
  lemma WeekdayNext(d: Date)
    requires Valid(d)
    ensures DateToWeekday(AddDays(d, 1)) == WeekdayNames[(Weekday(d) + 1) % 7]
  {
    WeekdayAddDays(d, 1);
  }

  /** ... so a week later the name is the same. */
  lemma WeekdayWeek(d: Date)
    requires Valid(d)
    ensures DateToWeekday(AddDays(d, 7)) == DateToWeekday(d)
  {
    var later := AddDays(d, 7);
    assert Weekday(later) == Weekday(d) by {
      WeekdayAddDays(d, 7);
      WeekMod(Weekday(d));
    }
  }

  lemma WeekMod(w: int)
    requires 0 <= w < 7
    ensures (w + 7) % 7 == w
  {
  }

  /** A duration in milliseconds written as `[<h>hr ]<m><unit>`: the hours are counted from
      the UTC day-of-month and hour of the timestamp, so they wrap after a month. The unit is
      `min` in src/utils.ts and `mins` in src/main.ts and cx.user.js. */
  function FlightDuration(ms: nat, unit: string): string
  {
    var utcDay := AddDays(Date(1970, 1, 1), ms / 86400000).day;
    var hours := (utcDay - 1) * 24 + ms % 86400000 / 3600000;
    var minutes := ms % 3600000 / 60000;
    (if hours > 0 then NatToString(hours) + "hr " else "") + NatToString(minutes) + unit
  }

  /** Under 31 days the hours are the whole hours of the duration, the minutes the
      minutes past the hour, and the `hr` part is left out exactly when the hours are 0. */
  lemma FlightDurationUnderMonth(ms: nat, unit: string)
    requires ms < 31 * 86400000
    ensures FlightDuration(ms, unit) ==
      (if ms / 3600000 > 0 then NatToString(ms / 3600000) + "hr " else "") + NatToString(ms / 60000 % 60) + unit
  {
    var days := ms / 86400000;
    assert AddDays(Date(1970, 1, 1), days) == Date(1970, 1, 1 + days);
    HoursOfDuration(ms);
    MinutesOfDuration(ms);
  }

  lemma HoursOfDuration(ms: nat)
    ensures ms / 86400000 * 24 + ms % 86400000 / 3600000 == ms / 3600000
  {
    var q, r := ms / 86400000, ms % 86400000;
    assert ms == q * 86400000 + r;
    assert ms == (q * 24 + r / 3600000) * 3600000 + r % 3600000;
  }

  lemma MinutesOfDuration(ms: nat)
    ensures ms % 3600000 / 60000 == ms / 60000 % 60
  {
    var q, r := ms / 3600000, ms % 3600000;
    assert ms == q * 3600000 + r;
    assert ms / 60000 == q * 60 + r / 60000;
  }

  // ---------------------------------------------------------------
  // Query keys
  // ---------------------------------------------------------------

  datatype Query = Query(date: string, from: string, to: string)

  datatype Segment = Segment(departureDate: string, origin: string, destination: string)

  /** `queryStringToQuery`: date, origin and destination from a `YYYYMMDDFROMTO` key. */
  function QueryStringToQuery(q: string): Query
  {
    Query(Substring(q, 0, 8), Substring(q, 8, 11), Substring(q, 11, 14))
  }

  /** `queryToQueryString` */
  function QueryToQueryString(q: Query): string
  {
    q.date + q.from + q.to
  }

  /** `queryToSegment` */
  function QueryToSegment(q: Query): Segment
  {
    Segment(q.date, q.from, q.to)
  }

  /** A 14-character key is rebuilt from its parts, and a query with parts of the
      right widths survives the trip through its key. */
  lemma QueryKeyRoundTrip(q: string, r: Query)
    requires |q| == 14
    requires |r.date| == 8 && |r.from| == 3 && |r.to| == 3
    ensures QueryToQueryString(QueryStringToQuery(q)) == q
    ensures QueryStringToQuery(QueryToQueryString(r)) == r
  {
    assert q == q[..8] + q[8..11] + q[11..14];
    var s := QueryToQueryString(r);
    assert s[..8] == r.date && s[8..11] == r.from && s[11..14] == r.to;
  }

  /** The segment built from a key departs on the key's date from its origin to its destination. */
  lemma QueryKeySegment(q: string)
    requires |q| == 14
    ensures QueryToSegment(QueryStringToQuery(q)) == Segment(q[..8], q[8..11], q[11..])
  {
  }
}
