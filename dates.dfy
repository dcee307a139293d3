/**
 * Calendar dates, the wall clock and the two date formats the return tools
 * read and write: `datetime.strptime(s, "%Y-%m-%d")` and the whole days of
 * `now - delivery`, plus `strftime("%Y%m%d%H%M%S")` and `isoformat()`.
 */
module Dates {
  import opened PyValues

  datatype Date = Date(year: int, month: int, day: int)

  predicate IsLeap(y: int) {
    y % 4 == 0 && (y % 100 != 0 || y % 400 == 0)
  }

  function DaysInMonth(y: int, m: int): (n: int)
    requires 1 <= m <= 12
    ensures 28 <= n <= 31
  {
    if m == 2 then (if IsLeap(y) then 29 else 28)
    else if m == 4 || m == 6 || m == 9 || m == 11 then 30
    else 31
  }

  /** A date `datetime.date` accepts (years 1 to 9999). */
  predicate ValidDate(d: Date) {
    1 <= d.year <= 9999 && 1 <= d.month <= 12 && 1 <= d.day <= DaysInMonth(d.year, d.month)
  }

  function DaysBeforeYear(y: int): int
    requires y >= 1
  {
    var k := y - 1;
    365 * k + k / 4 - k / 100 + k / 400
  }

  function DaysBeforeMonth(y: int, m: int): int
    requires 1 <= m <= 12
  {
    [0, 31, 59, 90, 120, 151, 181, 212, 243, 273, 304, 334][m - 1]
    + (if m > 2 && IsLeap(y) then 1 else 0)
  }

  /** `date.toordinal()`: 1 January of year 1 is day 1. */
  function Ordinal(d: Date): int
    requires ValidDate(d)
  {
    DaysBeforeYear(d.year) + DaysBeforeMonth(d.year, d.month) + d.day
  }

  /** The calendar day after `d`. */
  function NextDay(d: Date): (r: Date)
    requires ValidDate(d)
  {
    if d.day < DaysInMonth(d.year, d.month) then Date(d.year, d.month, d.day + 1)
    else if d.month < 12 then Date(d.year, d.month + 1, 1)
    else Date(d.year + 1, 1, 1)
  }

  lemma YearLength(y: int)
    requires y >= 1
    ensures DaysBeforeYear(y + 1) == DaysBeforeYear(y) + (if IsLeap(y) then 366 else 365)
  {
    var k := y - 1;
    assert (k + 1) / 4 - k / 4 == (if y % 4 == 0 then 1 else 0);
    assert (k + 1) / 100 - k / 100 == (if y % 100 == 0 then 1 else 0);
    assert (k + 1) / 400 - k / 400 == (if y % 400 == 0 then 1 else 0);
  }

  /** Consecutive calendar days have consecutive ordinals, so the ordinal
      difference of two dates is the number of days between them. */
  lemma OrdinalNextDay(d: Date)
    requires ValidDate(d) && ValidDate(NextDay(d))
    ensures Ordinal(NextDay(d)) == Ordinal(d) + 1
  {
    if d.day == DaysInMonth(d.year, d.month) && d.month == 12 {
      YearLength(d.year);
    }
  }

  /** The date `n` days after `d`, counted one day at a time. */
  function AddDays(d: Date, n: nat): (r: Date)
    requires ValidDate(d)
    ensures ValidDate(r) || r.year == 10000
  {
    if n == 0 then d
    else
      var e := AddDays(d, n - 1);
      if ValidDate(e) then NextDay(e) else e
  }

  lemma {:induction false} OrdinalAddDays(d: Date, n: nat)
    requires ValidDate(d) && ValidDate(AddDays(d, n))
    ensures Ordinal(AddDays(d, n)) == Ordinal(d) + n
  {
    if n > 0 {
      var e := AddDays(d, n - 1);
      if ValidDate(e) {
        OrdinalAddDays(d, n - 1);
        OrdinalNextDay(e);
      } else {
        assert false;
      }
    }
  }

  // ---------------------------------------------------------------------
  // datetime.strptime(s, "%Y-%m-%d")

  /** `%m` matches `1[0-2]|0[1-9]|[1-9]`, the first alternative that fits,
      starting at `i`; yields the month and where the match ends. */
  function MonthToken(s: string, i: nat): (r: Option<(int, nat)>)
    ensures r.Some? ==> 1 <= r.value.0 <= 12 && i < r.value.1 <= |s|
  {
    if i + 1 < |s| && s[i] == '1' && '0' <= s[i + 1] <= '2' then
      Some((10 + DigitValue(s[i + 1]), i + 2))
    else if i + 1 < |s| && s[i] == '0' && '1' <= s[i + 1] <= '9' then
      Some((DigitValue(s[i + 1]), i + 2))
    else if i < |s| && '1' <= s[i] <= '9' then
      Some((DigitValue(s[i]), i + 1))
    else None
  }

  /** `%d` matches `3[01]|[12]\d|0[1-9]|[1-9]| [1-9]`, the first alternative
      that fits, starting at `i`. */
  function DayToken(s: string, i: nat): (r: Option<(int, nat)>)
    ensures r.Some? ==> 1 <= r.value.0 <= 31 && i < r.value.1 <= |s|
  {
    if i + 1 < |s| && s[i] == '3' && '0' <= s[i + 1] <= '1' then
      Some((30 + DigitValue(s[i + 1]), i + 2))
    else if i + 1 < |s| && '1' <= s[i] <= '2' && IsDigit(s[i + 1]) then
      Some((10 * DigitValue(s[i]) + DigitValue(s[i + 1]), i + 2))
    else if i + 1 < |s| && s[i] == '0' && '1' <= s[i + 1] <= '9' then
      Some((DigitValue(s[i + 1]), i + 2))
    else if i < |s| && '1' <= s[i] <= '9' then
      Some((DigitValue(s[i]), i + 1))
    else if i + 1 < |s| && s[i] == ' ' && '1' <= s[i + 1] <= '9' then
      Some((DigitValue(s[i + 1]), i + 2))
    else None
  }

  /** `datetime.strptime(s, "%Y-%m-%d")`; `None` stands for the ValueError
      it raises: the text does not match, text is left over after the day,
      or the date does not exist. */
  function ParseDate(s: string): (r: Option<Date>)
    ensures r.Some? ==> ValidDate(r.value)
  {
    if |s| < 5 || !AllDigits(s[..4]) || s[4] != '-' then None
    else
      match MonthToken(s, 5)
      case None => None
      case Some((m, j)) =>
        if j >= |s| || s[j] != '-' then None
        else
          match DayToken(s, j + 1)
          case None => None
          case Some((d, k)) =>
            var y := DigitsValue(s[..4]);
            DigitsValueBound(s[..4]);
            if k != |s| then None
            else if 1 <= y && d <= DaysInMonth(y, m) then Some(Date(y, m, d))
            else None
  }

  /** `d.strftime("%Y-%m-%d")` */
  function FormatDate(d: Date): string
    requires ValidDate(d)
  {
    Pad(d.year, 4) + "-" + Pad(d.month, 2) + "-" + Pad(d.day, 2)
  }

  /** Reading back a date written as YYYY-MM-DD gives the same date. */
  lemma ParseFormatRoundTrip(d: Date)
    requires ValidDate(d)
    ensures ParseDate(FormatDate(d)) == Some(d)
  {
    var s := FormatDate(d);
    assert Pow10(4) == 10000 && Pow10(2) == 100;
    PadProperties(d.year, 4);
    Pad2Digits(d.month);
    Pad2Digits(d.day);
    var ys := Pad(d.year, 4);
    assert s[..4] == ys;
    assert s[4] == '-';
    assert s[5] == DigitChar(d.month / 10) && s[6] == DigitChar(d.month % 10);
    assert MonthToken(s, 5) == Some((d.month, 7));
    assert s[7] == '-';
    assert s[8] == DigitChar(d.day / 10) && s[9] == DigitChar(d.day % 10);
    assert DayToken(s, 8) == Some((d.day, 10));
  }

  /** How a month or day field is written: "%02d", "%d", or "%2d". */
  datatype FieldStyle = ZeroPadded | Unpadded | SpacePadded

  function FieldText(n: nat, style: FieldStyle): string {
    match style
    case ZeroPadded => Pad(n, 2)
    case Unpadded => NatToString(n)
    case SpacePadded => if n < 10 then " " + NatToString(n) else NatToString(n)
  }

  /** The decimal text of a number below 100 is its one or two digits. */
  lemma {:induction false} TwoDigitText(n: nat)
    requires n < 100
    ensures n < 10 ==> NatToString(n) == [DigitChar(n)]
    ensures n >= 10 ==> NatToString(n) == [DigitChar(n / 10), DigitChar(n % 10)]
    ensures Pad(n, 2) == [DigitChar(n / 10), DigitChar(n % 10)]
  {
    Pad2Digits(n);
    if n >= 10 {
      assert NatToString(n / 10) == [DigitChar(n / 10)];
    }
  }

  /** `%m` reads a month written with or without its leading zero, up to
      the "-" that follows it. */
  lemma MonthTokenAt(s: string, i: nat, m: int, style: FieldStyle)
    requires 1 <= m <= 12 && style != SpacePadded
    requires var ms := FieldText(m, style);
             i + |ms| < |s| && s[i..i + |ms|] == ms && s[i + |ms|] == '-'
    ensures MonthToken(s, i) == Some((m, i + |FieldText(m, style)|))
  {
    TwoDigitText(m);
    var ms := FieldText(m, style);
    assert s[i] == ms[0];
    if |ms| == 2 {
      assert s[i + 1] == ms[1];
    }
  }

  /** `%d` reads a day written in any of the three styles, to the end. */
  lemma DayTokenAt(s: string, i: nat, day: int, style: FieldStyle)
    requires 1 <= day <= 31
    requires var ds := FieldText(day, style);
             i + |ds| == |s| && s[i..] == ds
    ensures DayToken(s, i) == Some((day, |s|))
  {
    TwoDigitText(day);
    var ds := FieldText(day, style);
    assert s[i] == ds[0];
    if |ds| == 2 {
      assert s[i + 1] == ds[1];
    }
  }

  /** The parser accepts every valid date with its month written with or
      without the leading zero and its day zero-padded, unpadded or
      space-padded, as the `%m` and `%d` patterns allow; a space-padded
      one-digit month is refused. */
  lemma ParseLenient(d: Date, monthStyle: FieldStyle, dayStyle: FieldStyle)
    requires ValidDate(d)
    ensures var s := Pad(d.year, 4) + "-" + FieldText(d.month, monthStyle) + "-" + FieldText(d.day, dayStyle);
            && (monthStyle != SpacePadded ==> ParseDate(s) == Some(d))
            && (monthStyle == SpacePadded && d.month < 10 ==> ParseDate(s) == None)
  {
    var ys, ms, ds := Pad(d.year, 4), FieldText(d.month, monthStyle), FieldText(d.day, dayStyle);
    var s := ys + "-" + ms + "-" + ds;
    assert Pow10(4) == 10000;
    PadProperties(d.year, 4);
    DashSeparated(ys, ms, ds);
    if monthStyle != SpacePadded {
      MonthTokenAt(s, 5, d.month, monthStyle);
      DayTokenAt(s, 6 + |ms|, d.day, dayStyle);
      ParseAccepts(s, d, 5 + |ms|);
    } else if d.month < 10 {
      TwoDigitText(d.month);
      assert s[5] == ms[0] == ' ';
    }
  }

  /** Where the pieces of "a-b-c" sit. */
  lemma DashSeparated(a: string, b: string, c: string)
    ensures var s := a + "-" + b + "-" + c;
            && s[..|a|] == a && s[|a|] == '-' && s[|a| + 1..|a| + 1 + |b|] == b
            && s[|a| + 1 + |b|] == '-' && s[|a| + 2 + |b|..] == c
            && |s| == |a| + |b| + |c| + 2
  {
  }

  /** The text is accepted when its year, month and day fields read as
      the date's, and nothing follows the day. */
  lemma ParseAccepts(s: string, d: Date, j: nat)
    requires ValidDate(d) && |s| >= 5 && AllDigits(s[..4]) && DigitsValue(s[..4]) == d.year && s[4] == '-'
    requires MonthToken(s, 5) == Some((d.month, j)) && j < |s| && s[j] == '-'
    requires DayToken(s, j + 1) == Some((d.day, |s|))
    ensures ParseDate(s) == Some(d)
  {
  }

  /** Concrete readings: the canonical form, one-digit fields and a
      space-padded day are accepted; 29 February of a common year, day 32
      and trailing text are refused. */
  lemma ParseExamples()
    ensures ParseDate("2025-9-5") == Some(Date(2025, 9, 5))
    ensures ParseDate("2025-10- 5") == Some(Date(2025, 10, 5))
    ensures ParseDate("2025-10-05") == Some(Date(2025, 10, 5))
    ensures ParseDate("2025-02-29") == None
    ensures ParseDate("2025-10-32") == None
    ensures ParseDate("2025-10-5 ") == None
  {
    assert DigitsValue("2025") == 2025 by {
      assert "2025"[..3] == "202" && "202"[..2] == "20" && "20"[..1] == "2" && "2"[..0] == "";
    }
    assert "2025-9-5"[..4] == "2025";
    assert "2025-10- 5"[..4] == "2025";
    assert "2025-10-05"[..4] == "2025";
    assert "2025-02-29"[..4] == "2025";
    assert "2025-10-32"[..4] == "2025";
    assert "2025-10-5 "[..4] == "2025";
  }

  // ---------------------------------------------------------------------
  // The wall clock

  /** The value of `datetime.now()`. */
  datatype Clock = Clock(date: Date, hour: int, minute: int, second: int, microsecond: int)

  predicate ValidClock(c: Clock) {
    ValidDate(c.date) && 0 <= c.hour < 24 && 0 <= c.minute < 60 && 0 <= c.second < 60
    && 0 <= c.microsecond < 1000000
  }

  const MicrosPerDay: int := 86400000000

  function MicrosOfDay(c: Clock): (r: int)
    requires ValidClock(c)
    ensures 0 <= r < MicrosPerDay
  {
    ((c.hour * 60 + c.minute) * 60 + c.second) * 1000000 + c.microsecond
  }

  /** `(now - datetime(delivered.year, delivered.month, delivered.day)).days`:
      a timedelta keeps whole days and a non-negative remainder, so its
      `days` is the floor of the difference. */
  function TimedeltaDays(now: Clock, delivered: Date): int
    requires ValidClock(now) && ValidDate(delivered)
  {
    ((Ordinal(now.date) - Ordinal(delivered)) * MicrosPerDay + MicrosOfDay(now)) / MicrosPerDay
  }

  /** The elapsed whole days are the difference of the calendar days,
      whatever the time of day and also when the delivery is in the future. */
  lemma TimedeltaDaysIsOrdinalDifference(now: Clock, delivered: Date)
    requires ValidClock(now) && ValidDate(delivered)
    ensures TimedeltaDays(now, delivered) == Ordinal(now.date) - Ordinal(delivered)
  {
    var diff := Ordinal(now.date) - Ordinal(delivered);
    var t := MicrosOfDay(now);
    assert diff * MicrosPerDay + t == MicrosPerDay * diff + t;
  }

  /** `now.strftime("%Y%m%d%H%M%S")` */
  function Timestamp(c: Clock): string
    requires ValidClock(c)
  {
    Pad(c.date.year, 4) + Pad(c.date.month, 2) + Pad(c.date.day, 2)
    + Pad(c.hour, 2) + Pad(c.minute, 2) + Pad(c.second, 2)
  }

  /** The time of day as HHMMSS. */
  function TimeOfDay(c: Clock): (r: string)
    requires ValidClock(c)
    ensures |r| == 6 && AllDigits(r)
  {
    assert Pow10(2) == 100;
    PadProperties(c.hour, 2);
    PadProperties(c.minute, 2);
    PadProperties(c.second, 2);
    Pad(c.hour, 2) + Pad(c.minute, 2) + Pad(c.second, 2)
  }

  /** The last six characters of the timestamp are the time of day. */
  lemma TimestampSuffix(c: Clock)
    requires ValidClock(c)
    ensures |Timestamp(c)| >= 6
    ensures Timestamp(c)[|Timestamp(c)| - 6..] == TimeOfDay(c)
  {
    var prefix := Pad(c.date.year, 4) + Pad(c.date.month, 2) + Pad(c.date.day, 2);
    assert Timestamp(c) == prefix + TimeOfDay(c);
  }

  /** The time of day determines the hour, minute and second. */
  lemma TimeOfDayInjective(a: Clock, b: Clock)
    requires ValidClock(a) && ValidClock(b)
    ensures TimeOfDay(a) == TimeOfDay(b) <==>
            a.hour == b.hour && a.minute == b.minute && a.second == b.second
  {
    if TimeOfDay(a) == TimeOfDay(b) {
      assert Pow10(2) == 100;
      PadProperties(a.hour, 2);
      PadProperties(a.minute, 2);
      PadProperties(a.second, 2);
      PadProperties(b.hour, 2);
      PadProperties(b.minute, 2);
      PadProperties(b.second, 2);
      assert TimeOfDay(a)[0..2] == Pad(a.hour, 2) && TimeOfDay(b)[0..2] == Pad(b.hour, 2);
      assert TimeOfDay(a)[2..4] == Pad(a.minute, 2) && TimeOfDay(b)[2..4] == Pad(b.minute, 2);
      assert TimeOfDay(a)[4..6] == Pad(a.second, 2) && TimeOfDay(b)[4..6] == Pad(b.second, 2);
    }
  }

  /** `now.isoformat()`: the fraction is written only when it is not zero. */
  function IsoFormat(c: Clock): string
    requires ValidClock(c)
  {
    Pad(c.date.year, 4) + "-" + Pad(c.date.month, 2) + "-" + Pad(c.date.day, 2)
    + "T" + Pad(c.hour, 2) + ":" + Pad(c.minute, 2) + ":" + Pad(c.second, 2)
    + (if c.microsecond != 0 then "." + Pad(c.microsecond, 6) else "")
  }
}
