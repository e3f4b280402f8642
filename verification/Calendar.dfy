// Timestamps of pulled documents (sync/pull.rs): day counting and the small ISO 8601
// reader whose results the dirty guard compares, next to the string order the
// watermark uses.
module Calendar {
  import opened Basics

  predicate IsLeap(year: int) {
    (year % 4 == 0 && year % 100 != 0) || year % 400 == 0
  }

  function DaysInMonth(year: int, month: int): (days: int)
    ensures 28 <= days <= 31
  {
    if month in {1, 3, 5, 7, 8, 10, 12} then 31
    else if month in {4, 6, 9, 11} then 30
    else if month == 2 then (if IsLeap(year) then 29 else 28)
    else 30
  }

  function YearLength(year: int): int { if IsLeap(year) then 366 else 365 }

  // Days in the years from 1970 up to, not including, `year`.
  function DaysBeforeYear(year: int): int
    decreases year - 1970
  {
    if year <= 1970 then 0 else DaysBeforeYear(year - 1) + YearLength(year - 1)
  }

  function DaysBeforeMonth(year: int, month: int): int
    decreases month
  {
    if month <= 1 then 0 else DaysBeforeMonth(year, month - 1) + DaysInMonth(year, month - 1)
  }

  function DayNumber(year: int, month: int, day: int): int {
    DaysBeforeYear(year) + DaysBeforeMonth(year, month) + day - 1
  }

  method DaysFromEpoch(year: int, month: int, day: int) returns (days: int)
    ensures days == DayNumber(year, month, day)
  {
    days := 0;
    var y := 1970;
    while y < year
      invariant days == DaysBeforeYear(y)
      invariant 1970 < year ==> y <= year
      invariant year <= 1970 ==> y == 1970
    {
      days := days + (if IsLeap(y) then 366 else 365);
      y := y + 1;
    }
    var m := 1;
    while m < month
      invariant days == DaysBeforeYear(year) + DaysBeforeMonth(year, m)
      invariant 1 < month ==> m <= month
      invariant month <= 1 ==> m == 1
    {
      days := days + DaysInMonth(year, m);
      m := m + 1;
    }
    days := days + day - 1;
  }

  // ---- The calendar it counts ---------------------------------------------------------

  datatype Date = Date(year: int, month: int, day: int)

  predicate ValidDate(d: Date) {
    1970 <= d.year && 1 <= d.month <= 12 && 1 <= d.day <= DaysInMonth(d.year, d.month)
  }

  function Days(d: Date): int { DayNumber(d.year, d.month, d.day) }

  // The next day of the calendar, without counting anything.
  function NextDay(d: Date): Date {
    if d.day < DaysInMonth(d.year, d.month) then d.(day := d.day + 1)
    else if d.month < 12 then Date(d.year, d.month + 1, 1)
    else Date(d.year + 1, 1, 1)
  }

  predicate Before(a: Date, b: Date) {
    a.year < b.year || (a.year == b.year && (a.month < b.month || (a.month == b.month && a.day < b.day)))
  }

  // Leap years up to and including year `y` of the Gregorian calendar.
  function LeapsThrough(y: int): int { y / 4 - y / 100 + y / 400 }

  lemma LeapsStep(y: int)
    ensures LeapsThrough(y) == LeapsThrough(y - 1) + (if IsLeap(y) then 1 else 0)
  {
    DivStep(y, 4);
    DivStep(y, 100);
    DivStep(y, 400);
    FoursInHundreds(y);
    HundredsInFourHundreds(y);
  }

  lemma FoursInHundreds(y: int)
    ensures y % 100 == 0 ==> y % 4 == 0
  {
    if y % 100 == 0 {
      assert y == 4 * (25 * (y / 100));
    }
  }

  lemma HundredsInFourHundreds(y: int)
    ensures y % 400 == 0 ==> y % 100 == 0
  {
    if y % 400 == 0 {
      assert y == 100 * (4 * (y / 400));
    }
  }

  lemma DivStep(y: int, k: int)
    requires k == 4 || k == 100 || k == 400
    ensures y / k == (y - 1) / k + (if y % k == 0 then 1 else 0)
  {
  }

  // The loop over the years equals the closed form with y/4 - y/100 + y/400.
  lemma {:induction false} DaysBeforeYearClosed(year: int)
    requires 1970 <= year
    ensures DaysBeforeYear(year) == 365 * (year - 1970) + LeapsThrough(year - 1) - LeapsThrough(1969)
    decreases year
  {
    if year > 1970 {
      DaysBeforeYearClosed(year - 1);
      LeapsStep(year - 1);
    }
  }

  lemma MonthsFillYear(year: int)
    ensures DaysBeforeMonth(year, 12) + DaysInMonth(year, 12) == YearLength(year)
  {
    assert DaysBeforeMonth(year, 3) == DaysBeforeMonth(year, 2) + DaysInMonth(year, 2);
    assert DaysBeforeMonth(year, 6) == DaysBeforeMonth(year, 3) + 31 + 30 + 31;
    assert DaysBeforeMonth(year, 9) == DaysBeforeMonth(year, 6) + 30 + 31 + 31;
    assert DaysBeforeMonth(year, 12) == DaysBeforeMonth(year, 9) + 30 + 31 + 30;
  }

  // The days of a year before the first of a month.
  lemma DaysBeforeMonthTable(year: int)
    ensures DaysBeforeMonth(year, 1) == 0 && DaysBeforeMonth(year, 2) == 31
    ensures var feb := if IsLeap(year) then 29 else 28;
      && DaysBeforeMonth(year, 3) == 31 + feb && DaysBeforeMonth(year, 4) == 62 + feb
      && DaysBeforeMonth(year, 5) == 92 + feb && DaysBeforeMonth(year, 6) == 123 + feb
      && DaysBeforeMonth(year, 7) == 153 + feb && DaysBeforeMonth(year, 8) == 184 + feb
      && DaysBeforeMonth(year, 9) == 215 + feb && DaysBeforeMonth(year, 10) == 245 + feb
      && DaysBeforeMonth(year, 11) == 276 + feb && DaysBeforeMonth(year, 12) == 306 + feb
  {
    assert DaysBeforeMonth(year, 3) == DaysBeforeMonth(year, 2) + DaysInMonth(year, 2);
    assert DaysBeforeMonth(year, 6) == DaysBeforeMonth(year, 5) + 31;
    assert DaysBeforeMonth(year, 9) == DaysBeforeMonth(year, 8) + 31;
    assert DaysBeforeMonth(year, 12) == DaysBeforeMonth(year, 11) + 30;
  }

  // The day number in closed form, with the year counted from March, so that the months
  // before the date have (153 m + 2) / 5 days and the leap day comes last.
  lemma DaysClosed(year: int, month: int, day: int)
    requires 1970 <= year && 1 <= month <= 12
    ensures month <= 2 ==> var y := year - 1;
      DayNumber(year, month, day) == 365 * y + y / 4 - y / 100 + y / 400 + (153 * (month + 9) + 2) / 5 + day - 719469
    ensures month > 2 ==> var y := year;
      DayNumber(year, month, day) == 365 * y + y / 4 - y / 100 + y / 400 + (153 * (month - 3) + 2) / 5 + day - 719469
  {
    DaysBeforeYearClosed(year);
    LeapsStep(year);
    DaysBeforeMonthTable(year);
    hide DaysBeforeYear, DaysBeforeMonth, IsLeap;
    assert LeapsThrough(1969) == 477;
  }

  lemma NextMonthStarts(year: int, month: int)
    requires 1 <= month
    ensures DayNumber(year, month + 1, 1) == DayNumber(year, month, DaysInMonth(year, month)) + 1
  {
    hide DaysBeforeYear, DaysInMonth;
  }

  lemma NextYearStarts(year: int)
    requires 1970 <= year
    ensures DayNumber(year + 1, 1, 1) == DayNumber(year, 12, DaysInMonth(year, 12)) + 1
  {
    MonthsFillYear(year);
    assert DaysBeforeYear(year + 1) == DaysBeforeYear(year) + YearLength(year);
    hide DaysBeforeMonth, DaysBeforeYear, DaysInMonth;
    FirstMonth(year + 1);
  }

  lemma FirstMonth(year: int)
    ensures DaysBeforeMonth(year, 1) == 0
  {
  }

  // One calendar day further is exactly one day number further.
  lemma NextDayCountsOne(d: Date)
    requires ValidDate(d)
    ensures ValidDate(NextDay(d)) && Days(NextDay(d)) == Days(d) + 1
    ensures Before(d, NextDay(d))
  {
    hide DaysBeforeMonth, DaysBeforeYear;
    if d.day == DaysInMonth(d.year, d.month) {
      if d.month < 12 {
        NextMonthStarts(d.year, d.month);
      } else {
        NextYearStarts(d.year);
      }
    }
  }

  lemma {:induction false} MonthsGrow(year: int, m: int, n: int)
    requires 1 <= m < n
    ensures DaysBeforeMonth(year, m) + DaysInMonth(year, m) <= DaysBeforeMonth(year, n)
    decreases n
  {
    if m + 1 < n {
      MonthsGrow(year, m, n - 1);
    }
  }

  lemma {:induction false} YearsGrow(y: int, z: int)
    requires 1970 <= y < z
    ensures DaysBeforeYear(y) + YearLength(y) <= DaysBeforeYear(z)
    decreases z
  {
    if y + 1 < z {
      YearsGrow(y, z - 1);
    }
  }

  lemma WithinYear(d: Date)
    requires ValidDate(d)
    ensures 0 <= DaysBeforeMonth(d.year, d.month) + d.day - 1 < YearLength(d.year)
  {
    MonthsFillYear(d.year);
    if d.month < 12 {
      MonthsGrow(d.year, d.month, 12);
    }
    if 1 < d.month {
      MonthsGrow(d.year, 1, d.month);
    }
  }

  lemma DaysIncrease(a: Date, b: Date)
    requires ValidDate(a) && ValidDate(b) && Before(a, b)
    ensures Days(a) < Days(b)
  {
    WithinYear(a);
    WithinYear(b);
    if a.year < b.year {
      YearsGrow(a.year, b.year);
    } else if a.month < b.month {
      MonthsGrow(a.year, a.month, b.month);
    }
  }

  // The day numbered `n`, found by walking the calendar from its start.
  function DateOf(n: nat): Date {
    if n == 0 then Date(1970, 1, 1) else NextDay(DateOf(n - 1))
  }

  lemma {:induction false} DateOfDays(n: nat)
    ensures ValidDate(DateOf(n)) && Days(DateOf(n)) == n
  {
    if n > 0 {
      DateOfDays(n - 1);
      NextDayCountsOne(DateOf(n - 1));
    }
  }

  // Day numbers and valid dates since 1970-01-01 correspond one to one, and in order.
  lemma DaysBijective(d: Date, e: Date)
    requires ValidDate(d) && ValidDate(e)
    ensures 0 <= Days(d) && DateOf(Days(d)) == d
    ensures Days(d) < Days(e) <==> Before(d, e)
    ensures forall n: nat :: ValidDate(DateOf(n)) && Days(DateOf(n)) == n
  {
    forall n: nat ensures ValidDate(DateOf(n)) && Days(DateOf(n)) == n {
      DateOfDays(n);
    }
    WithinYear(d);
    if 1970 < d.year {
      YearsGrow(1970, d.year);
    }
    DateOfDays(Days(d));
    var f := DateOf(Days(d));
    if Before(f, d) { DaysIncrease(f, d); }
    if Before(d, f) { DaysIncrease(d, f); }
    if Before(d, e) { DaysIncrease(d, e); }
    if Before(e, d) { DaysIncrease(e, d); }
  }

  // ---- Reading a timestamp -----------------------------------------------------------

  function FieldsMs(date: seq<string>, time: seq<string>): Option<int> {
    if |date| < 3 || |time| < 3 then None
    else
      match (ParseInt(date[0]), ParseInt(date[1]), ParseInt(date[2]), ParseInt(time[0]), ParseInt(time[1]),
        ParseInt(Split(time[2], '.')[0]))
      case (Some(year), Some(month), Some(day), Some(hour), Some(min), Some(sec)) =>
        Some((DayNumber(year, month, day) * 86400 + hour * 3600 + min * 60 + sec) * 1000)
      case _ => None
  }

  // Milliseconds since the epoch, with the fraction of the second dropped.
  function ParseMs(text: string): Option<int> {
    var s := TrimEnd(text, 'Z');
    if 'T' !in s then None
    else
      var t := IndexOf(s, 'T');
      FieldsMs(Split(s[..t], '-'), Split(s[t + 1..], ':'))
  }

  // A UTC timestamp in the form of section 5.6 of RFC 3339, with `fraction` as written.
  datatype Stamp = Stamp(date: Date, hour: nat, min: nat, sec: nat, fraction: string)

  predicate ValidStamp(s: Stamp) {
    ValidDate(s.date) && s.date.year < 10000 && s.hour < 24 && s.min < 60 && s.sec <= 60 && AllDigits(s.fraction)
  }

  function Seconds(s: Stamp): int { Days(s.date) * 86400 + s.hour * 3600 + s.min * 60 + s.sec }

  function FractionText(s: Stamp): string { if s.fraction == "" then "" else "." + s.fraction }

  function SecondText(s: Stamp, end: string): string
    requires ValidStamp(s)
  {
    assert Pow10(2) == 100;
    Pad(s.sec, 2) + (FractionText(s) + end)
  }

  function DateText(d: Date): string
    requires ValidDate(d) && d.year < 10000
  {
    assert Pow10(4) == 10000 && Pow10(2) == 100;
    Pad(d.year, 4) + "-" + (Pad(d.month, 2) + "-" + Pad(d.day, 2))
  }

  function TimeText(s: Stamp, end: string): string
    requires ValidStamp(s)
  {
    assert Pow10(2) == 100;
    Pad(s.hour, 2) + ":" + (Pad(s.min, 2) + ":" + SecondText(s, end))
  }

  function Render(s: Stamp): string
    requires ValidStamp(s)
  {
    DateText(s.date) + "T" + TimeText(s, "Z")
  }

  lemma ParsePad(n: nat, w: nat)
    requires 0 < w <= 4 && n < Pow10(w)
    ensures ParseInt(Pad(n, w)) == Some(n)
  {
    assert Pad(n, w)[0] in Pad(n, w);
  }

  lemma SplitDate(d: Date)
    requires ValidDate(d) && d.year < 10000
    ensures Pow10(4) == 10000 && Pow10(2) == 100
    ensures Split(DateText(d), '-') == [Pad(d.year, 4), Pad(d.month, 2), Pad(d.day, 2)]
    ensures 'T' !in DateText(d)
  {
    assert Pow10(4) == 10000 && Pow10(2) == 100;
    hide Pad, Split, DigitsValue, ValidDate;
    SplitThree(Pad(d.year, 4), Pad(d.month, 2), Pad(d.day, 2), '-');
  }

  lemma SplitSecond(s: Stamp)
    requires ValidStamp(s)
    ensures Pow10(2) == 100 && Split(SecondText(s, ""), '.')[0] == Pad(s.sec, 2) && ':' !in SecondText(s, "")
  {
    assert Pow10(2) == 100;
    hide ValidDate, Pad, DigitsValue, Split;
    var x := Pad(s.sec, 2);
    if s.fraction != "" {
      SplitHead(x, '.', s.fraction);
      assert SecondText(s, "") == x + ['.'] + s.fraction;
    } else {
      SplitWhole(x, '.');
      assert SecondText(s, "") == x;
    }
  }

  lemma SplitTime(s: Stamp)
    requires ValidStamp(s)
    ensures Pow10(2) == 100
    ensures Split(TimeText(s, ""), ':') == [Pad(s.hour, 2), Pad(s.min, 2), SecondText(s, "")]
  {
    SplitSecond(s);
    hide Pad, Split, DigitsValue, ValidDate, SecondText;
    SplitThree(Pad(s.hour, 2), Pad(s.min, 2), SecondText(s, ""), ':');
  }

  // Trimming takes the `Z` off and nothing else.
  lemma TrimSecond(s: Stamp)
    requires ValidStamp(s)
    ensures TrimEnd(SecondText(s, "Z"), 'Z') == SecondText(s, "")
  {
    assert Pow10(2) == 100;
    var x, f := Pad(s.sec, 2), FractionText(s);
    if s.fraction == "" {
      assert f + "Z" == "Z" && f + "" == "" && x + "" == x;
      assert x[1] in x;
      TrimEndOne(x, 'Z');
    } else {
      assert f[|f| - 1] in s.fraction;
      TrimEndOne(f, 'Z');
      TrimEndTail(x, f + "Z", 'Z');
      assert f + "" == f;
    }
  }

  lemma TrimTime(s: Stamp, head: string)
    requires ValidStamp(s)
    ensures TrimEnd(head + TimeText(s, "Z"), 'Z') == head + TimeText(s, "")
  {
    assert Pow10(2) == 100;
    TrimSecond(s);
    hide Pad, DigitsValue, TrimEnd, SecondText, ValidDate;
    var h, m := Pad(s.hour, 2) + ":", Pad(s.min, 2) + ":";
    TrimEndTail(m, SecondText(s, "Z"), 'Z');
    TrimEndTail(h, m + SecondText(s, "Z"), 'Z');
    TrimEndTail(head, TimeText(s, "Z"), 'Z');
  }

  lemma ParseHalves(text: string, d: string, t: string)
    requires 'T' !in d && TrimEnd(text, 'Z') == d + "T" + t
    ensures ParseMs(text) == FieldsMs(Split(d, '-'), Split(t, ':'))
  {
    IndexOfHead(d, 'T', t);
    assert (d + "T" + t)[..|d|] == d && (d + "T" + t)[|d| + 1..] == t;
  }

  // A text is not read if and only if it has fewer than three fields on either side of its
  // first `T`, or one of the six that count is no number.
  lemma UnreadIff(date: string, time: string)
    requires 'T' !in date && (time == "" || time[|time| - 1] != 'Z')
    ensures var d, t := Split(date, '-'), Split(time, ':');
      ParseMs(date + "T" + time).None? <==>
        || |d| < 3 || ParseInt(d[0]).None? || ParseInt(d[1]).None? || ParseInt(d[2]).None?
        || |t| < 3 || ParseInt(t[0]).None? || ParseInt(t[1]).None? || ParseInt(Split(t[2], '.')[0]).None?
  {
    hide Split, ParseInt, DayNumber, IndexOf, ParseMs;
    assert TrimEnd(date + "T" + time, 'Z') == date + "T" + time;
    ParseHalves(date + "T" + time, date, time);
  }

  lemma FieldsRead(date: seq<string>, time: seq<string>, s: Stamp)
    requires |date| == 3 && |time| == 3
    requires ParseInt(date[0]) == Some(s.date.year) && ParseInt(date[1]) == Some(s.date.month)
      && ParseInt(date[2]) == Some(s.date.day)
    requires ParseInt(time[0]) == Some(s.hour) && ParseInt(time[1]) == Some(s.min)
      && ParseInt(Split(time[2], '.')[0]) == Some(s.sec)
    ensures FieldsMs(date, time) == Some(Seconds(s) * 1000)
  {
    hide ParseInt, Split, DayNumber;
  }

  // Reading back a rendered timestamp gives its second, counted from the epoch.
  lemma ParseRender(s: Stamp)
    requires ValidStamp(s)
    ensures ParseMs(Render(s)) == Some(Seconds(s) * 1000)
  {
    SplitDate(s.date);
    SplitTime(s);
    SplitSecond(s);
    hide Pad, Split, DigitsValue, TimeText, DateText, ParseInt, TrimEnd, IndexOf, AllDigits, DayNumber, SecondText,
      ParseMs, FieldsMs, Seconds;
    ParsePad(s.date.year, 4);
    ParsePad(s.date.month, 2);
    ParsePad(s.date.day, 2);
    ParsePad(s.hour, 2);
    ParsePad(s.min, 2);
    ParsePad(s.sec, 2);
    TrimTime(s, DateText(s.date) + "T");
    ParseHalves(Render(s), DateText(s.date), TimeText(s, ""));
    FieldsRead(Split(DateText(s.date), '-'), Split(TimeText(s, ""), ':'), s);
  }

  // The same with the units written out; the fraction is dropped.
  lemma ParseUnits(s: Stamp)
    requires ValidStamp(s)
    ensures var days := DayNumber(s.date.year, s.date.month, s.date.day);
      ParseMs(Render(s)) == Some(1000 * (86400 * days + 3600 * s.hour + 60 * s.min + s.sec))
  {
    hide ParseMs, Render, DayNumber, ValidStamp, Seconds;
    ParseRender(s);
    SecondsUnits(s);
  }

  lemma SecondsUnits(s: Stamp)
    ensures Seconds(s) * 1000
      == 1000 * (86400 * DayNumber(s.date.year, s.date.month, s.date.day) + 3600 * s.hour + 60 * s.min + s.sec)
  {
    hide DayNumber;
  }

  lemma TwoDigits(n: nat)
    requires n < 100
    ensures Pow10(2) == 100 && Pad(n, 2) == [('0' as int + n / 10) as char, ('0' as int + n % 10) as char]
  {
    hide DigitsValue;
    assert Pow10(1) == 10 && Pow10(0) == 1;
    PadSplit(n, 2);
    PadSplit(n / 10, 1);
    assert Pad(n / 100, 0) == "";
  }

  lemma FourDigits(n: nat)
    requires n < 10000
    ensures Pow10(4) == 10000 && Pow10(2) == 100 && Pad(n, 4) == Pad(n / 100, 2) + Pad(n % 100, 2)
  {
    hide DigitsValue;
    assert Pow10(4) == 10000 && Pow10(3) == 1000 && Pow10(2) == 100;
    PadSplit(n, 4);
    PadSplit(n / 10, 3);
    TwoDigits(n % 100);
    assert n / 10 / 10 == n / 100 && n / 10 % 10 == n % 100 / 10 && n % 10 == n % 100 % 10;
  }

  lemma OneDate()
    ensures var d := Date(2024, 4, 15);
      ValidDate(d) && DateText(d) == "2024-04-15" && Days(d) == 19828
  {
    hide DateText;
    DaysClosed(2024, 4, 15);
    OneDateText();
  }

  lemma OneDateText()
    requires ValidDate(Date(2024, 4, 15))
    ensures DateText(Date(2024, 4, 15)) == "2024-04-15"
  {
    hide Pad, ValidDate, Pow10, DigitsValue;
    FourDigits(2024);
    TwoDigits(20);
    TwoDigits(24);
    TwoDigits(4);
    TwoDigits(15);
  }

  lemma OneTime(s: Stamp)
    requires ValidStamp(s) && s.hour == 12 && s.min == 34 && s.sec == 56 && s.fraction == "789"
    ensures TimeText(s, "Z") == "12:34:56.789Z"
  {
    TwoDigits(12);
    TwoDigits(34);
    TwoDigits(56);
    hide Pad, ValidStamp, ValidDate, DigitsValue, Pow10;
    assert SecondText(s, "Z") == "56" + (".789" + "Z");
  }

  // One timestamp, letter by letter and second by second.
  lemma OneStamp()
    ensures var s := Stamp(Date(2024, 4, 15), 12, 34, 56, "789");
      && ValidStamp(s) && Render(s) == "2024-04-15" + "T" + "12:34:56.789Z"
      && ParseMs(Render(s)) == Some(1713184496000)
  {
    var s := Stamp(Date(2024, 4, 15), 12, 34, 56, "789");
    OneDate();
    assert ValidStamp(s);
    OneTime(s);
    hide Pad, ParseMs, DayNumber, ValidStamp, ValidDate, TimeText, DateText, DigitsValue;
    ParseRender(s);
  }

  // ---- String order against time order --------------------------------------------------

  lemma FieldOrder(x: nat, y: nat, w: nat, sep: string, a: string, b: string)
    requires x < Pow10(w) && y < Pow10(w)
    ensures StrLt(Pad(x, w) + sep + a, Pad(y, w) + sep + b) <==> x < y || (x == y && StrLt(a, b))
  {
    PadOrder(x, y, w);
    StrLtHeads(Pad(x, w) + sep, a, Pad(y, w) + sep, b);
    StrLtHeads(Pad(x, w), sep, Pad(y, w), sep);
    StrLtTotal(sep, sep);
    if x != y {
      assert Pad(x, w) != Pad(y, w);
      assert (Pad(x, w) + sep)[..w] == Pad(x, w) && (Pad(y, w) + sep)[..w] == Pad(y, w);
    }
  }

  lemma DateOrder(a: Date, b: Date)
    requires ValidDate(a) && a.year < 10000 && ValidDate(b) && b.year < 10000
    ensures |DateText(a)| == |DateText(b)|
    ensures StrLt(DateText(a), DateText(b)) <==> Before(a, b)
  {
    assert Pow10(4) == 10000 && Pow10(2) == 100;
    hide Pad, DigitsValue, StrLt;
    PadOrder(a.day, b.day, 2);
    FieldOrder(a.month, b.month, 2, "-", Pad(a.day, 2), Pad(b.day, 2));
    FieldOrder(a.year, b.year, 4, "-", Pad(a.month, 2) + "-" + Pad(a.day, 2), Pad(b.month, 2) + "-" + Pad(b.day, 2));
  }

  predicate EarlierTime(a: Stamp, b: Stamp) {
    a.hour < b.hour || (a.hour == b.hour && (a.min < b.min || (a.min == b.min && a.sec <= b.sec)))
  }

  lemma SecondOrder(a: Stamp, b: Stamp)
    requires ValidStamp(a) && ValidStamp(b)
    ensures StrLt(SecondText(a, "Z"), SecondText(b, "Z")) ==> a.sec <= b.sec
  {
    assert Pow10(2) == 100;
    PadOrder(a.sec, b.sec, 2);
    StrLtHeads(Pad(a.sec, 2), FractionText(a) + "Z", Pad(b.sec, 2), FractionText(b) + "Z");
  }

  lemma TimeOrder(a: Stamp, b: Stamp)
    requires ValidStamp(a) && ValidStamp(b)
    ensures StrLt(TimeText(a, "Z"), TimeText(b, "Z")) ==> EarlierTime(a, b)
  {
    assert Pow10(2) == 100;
    hide Pad, StrLt, DigitsValue, ValidDate, SecondText;
    var sa, sb := SecondText(a, "Z"), SecondText(b, "Z");
    SecondOrder(a, b);
    FieldOrder(a.min, b.min, 2, ":", sa, sb);
    FieldOrder(a.hour, b.hour, 2, ":", Pad(a.min, 2) + ":" + sa, Pad(b.min, 2) + ":" + sb);
  }

  predicate MsLe(a: Option<int>, b: Option<int>) {
    a.Some? && b.Some? && a.value <= b.value
  }

  // The watermark compares timestamps as strings, the dirty guard as numbers. On UTC
  // timestamps they never disagree in direction: a later second is a later string.
  lemma StringOrderAgrees(a: Stamp, b: Stamp)
    requires ValidStamp(a) && ValidStamp(b)
    ensures StrLe(Render(a), Render(b)) ==> MsLe(ParseMs(Render(a)), ParseMs(Render(b)))
    ensures !MsLe(ParseMs(Render(b)), ParseMs(Render(a))) ==> StrLt(Render(a), Render(b))
  {
    ParseRender(a);
    ParseRender(b);
    hide ParseMs, StrLt, TimeText, DateText, DayNumber;
    StrLtTotal(Render(a), Render(b));
    LaterStringLaterSecond(a, b);
    LaterStringLaterSecond(b, a);
  }

  lemma LaterStringLaterSecond(a: Stamp, b: Stamp)
    requires ValidStamp(a) && ValidStamp(b)
    ensures StrLt(Render(a), Render(b)) ==> Seconds(a) <= Seconds(b)
  {
    hide StrLt, TimeText, DateText, DayNumber;
    var d, e := DateText(a.date), DateText(b.date);
    DateOrder(a.date, b.date);
    DateOrder(b.date, a.date);
    StrLtHeads(d + "T", TimeText(a, "Z"), e + "T", TimeText(b, "Z"));
    StrLtHeads(d, "T", e, "T");
    StrLtTotal("T", "T");
    StrLtTotal(d, e);
    TimeOrder(a, b);
    if Before(a.date, b.date) {
      DaysIncrease(a.date, b.date);
    } else if d + "T" == e + "T" {
      assert (d + "T")[..|d|] == d && (e + "T")[..|d|] == e;
      assert a.date == b.date;
    }
  }
}
