/**
 * Instants and calendar days. An instant is a number of milliseconds since
 * 1970-01-01T00:00:00Z; the server's local time zone is taken to be UTC, so
 * `setHours` and the date-only parse both work on UTC days.
 */
module Dates {
  import opened Wrappers
  import opened Text

  type Instant = int

  const DAY_MS: int := 86_400_000

  /** Number of days from 1970-01-01 to the given proleptic Gregorian date;
      a day past the end of its month rolls over into the next month, as
      `Date.UTC` does. */
  function DaysFromCivil(year: int, month: int, day: int): int
    requires 1 <= month <= 12
  {
    YearStart(if month <= 2 then year - 1 else year) + MonthOffset(month) + day - 1
  }

  /** Day number of 1 March of the given year: whole 400-year eras of
      146097 days, then 365 days a year plus a leap day every fourth year
      but not every hundredth. */
  function YearStart(year: int): int {
    var era := year / 400;
    var yoe := year - era * 400;
    era * 146097 + yoe * 365 + yoe / 4 - yoe / 100 - 719468
  }

  /** Days from 1 March to the first of the given month, counting January
      and February at the end of the year that starts in March. */
  function MonthOffset(month: int): int
    requires 1 <= month <= 12
  {
    match month
    case 3 => 0 case 4 => 31 case 5 => 61 case 6 => 92 case 7 => 122 case 8 => 153
    case 9 => 184 case 10 => 214 case 11 => 245 case 12 => 275 case 1 => 306 case _ => 337
  }

  /** A run of one or two decimal digits. */
  predicate ShortNumber(s: string) {
    1 <= |s| <= 2 && AllDigits(s)
  }

  /** `new Date(s)` for a date written `YYYY-MM-DD` (or with one-digit month or
      day): midnight at the start of that day. Any other text is an Invalid
      Date, here `None`. */
  function ParseDate(s: string): (r: Option<Instant>)
    ensures r.Some? ==> r.value % DAY_MS == 0
  {
    var parts := Split(s, '-');
    if |parts| == 3 && |parts[0]| == 4 && AllDigits(parts[0])
       && ShortNumber(parts[1]) && ShortNumber(parts[2])
    then
      var year, month, day := DigitsValue(parts[0]), DigitsValue(parts[1]), DigitsValue(parts[2]);
      if 1 <= month <= 12 && 1 <= day <= 31 then
        var days := DaysFromCivil(year, month, day);
        DayStart(days);
        Some(days * DAY_MS)
      else None
    else None
  }

  /** Midnight of a day is a whole number of days after the epoch. */
  lemma DayStart(days: int)
    ensures (days * DAY_MS) / DAY_MS == days && (days * DAY_MS) % DAY_MS == 0
  {
  }

  /** A year, month and day written as digit groups read as that day:
      midnight, `DaysFromCivil` days after the epoch. */
  lemma ParseDateOf(y: string, m: string, d: string)
    requires |y| == 4 && AllDigits(y) && ShortNumber(m) && ShortNumber(d)
    requires 1 <= DigitsValue(m) <= 12 && 1 <= DigitsValue(d) <= 31
    ensures ParseDate(y + "-" + m + "-" + d) ==
      Some(DaysFromCivil(DigitsValue(y), DigitsValue(m), DigitsValue(d)) * DAY_MS)
  {
    DigitsHaveNoDash(y);
    DigitsHaveNoDash(m);
    DigitsHaveNoDash(d);
    JoinThree(y, m, d, '-');
    SplitJoin([y, m, d], '-');
  }

  /** Conversely, a text that reads as a date is three digit groups joined by
      dashes: four digits of year, then a month in 1..12 and a day in 1..31 of
      one or two digits each. */
  lemma ParseDateReads(s: string)
    requires ParseDate(s).Some?
    ensures var p := Split(s, '-');
      && |p| == 3 && s == p[0] + "-" + p[1] + "-" + p[2]
      && |p[0]| == 4 && AllDigits(p[0]) && ShortNumber(p[1]) && ShortNumber(p[2])
      && 1 <= DigitsValue(p[1]) <= 12 && 1 <= DigitsValue(p[2]) <= 31
      && ParseDate(s).value == DaysFromCivil(DigitsValue(p[0]), DigitsValue(p[1]), DigitsValue(p[2])) * DAY_MS
  {
    var p := Split(s, '-');
    JoinSplit(s, '-');
    assert p == [p[0], p[1], p[2]];
    JoinThree(p[0], p[1], p[2], '-');
  }

  lemma DigitsHaveNoDash(s: string)
    requires AllDigits(s)
    ensures '-' !in s
  {
  }

  /** Gregorian leap years. */
  predicate LeapYear(year: int) {
    year % 4 == 0 && (year % 100 != 0 || year % 400 == 0)
  }

  function DaysInMonth(year: int, month: int): (n: int)
    requires 1 <= month <= 12
    ensures 28 <= n <= 31
  {
    if month == 2 then (if LeapYear(year) then 29 else 28)
    else if month == 4 || month == 6 || month == 9 || month == 11 then 30
    else 31
  }

  /** The calendar day after a valid date. */
  function NextDay(year: int, month: int, day: int): (r: (int, int, int))
    requires 1 <= month <= 12 && 1 <= day <= DaysInMonth(year, month)
    ensures 1 <= r.1 <= 12 && 1 <= r.2 <= DaysInMonth(r.0, r.1)
  {
    if day < DaysInMonth(year, month) then (year, month, day + 1)
    else if month < 12 then (year, month + 1, 1)
    else (year + 1, 1, 1)
  }

  /** The epoch is day 0. */
  lemma EpochIsDayZero()
    ensures DaysFromCivil(1970, 1, 1) == 0
  {
  }

  /** Consecutive calendar days are consecutive day numbers, across month
      ends, February of leap years and year ends alike; with the epoch this
      fixes the day number of every valid date. */
  lemma DaysFromCivilNextDay(year: int, month: int, day: int)
    requires 1 <= month <= 12 && 1 <= day <= DaysInMonth(year, month)
    ensures var (y, m, d) := NextDay(year, month, day);
      DaysFromCivil(y, m, d) == DaysFromCivil(year, month, day) + 1
  {
    if day == DaysInMonth(year, month) {
      if month == 2 {
        YearStartStep(year - 1);
      } else if month < 12 {
        MonthOffsetStep(month);
      }
    }
  }

  /** Within the year that starts in March, each month begins where the one
      before it ends. */
  lemma MonthOffsetStep(month: int)
    requires 1 <= month < 12 && month != 2
    ensures MonthOffset(month + 1) == MonthOffset(month) + DaysInMonth(0, month)
  {
  }

  /** A year that starts in March lasts 366 days when the following
      February has a leap day, and 365 days otherwise. */
  lemma YearStartStep(year: int)
    ensures YearStart(year + 1) == YearStart(year) + (if LeapYear(year + 1) then 366 else 365)
  {
    if year % 400 == 399 {
      EraEnds(year);
    } else {
      WithinEra(year);
    }
  }

  /** The last year of a 400-year era is followed by a leap February. */
  lemma EraEnds(year: int)
    requires year % 400 == 399
    ensures LeapYear(year + 1) && YearStart(year + 1) == YearStart(year) + 366
  {
    var era := year / 400;
    Quotient(year + 1, 400, era + 1, 0);
    Quotient(year + 1, 4, 100 * (era + 1), 0);
    assert YearStart(year + 1) == (era + 1) * 146097 - 719468;
    assert YearStart(year) == era * 146097 + 399 * 365 + 99 - 3 - 719468;
  }

  lemma WithinEra(year: int)
    requires year % 400 != 399
    ensures YearStart(year + 1) == YearStart(year) + (if LeapYear(year + 1) then 366 else 365)
  {
    var era, yoe := year / 400, year % 400;
    var next := yoe + 1;
    Quotient(year + 1, 400, era, next);
    Quotient(year + 1, 4, 100 * era + next / 4, next % 4);
    Quotient(year + 1, 100, 4 * era + next / 100, next % 100);
    assert LeapYear(year + 1) <==> next % 4 == 0 && next % 100 != 0;
    assert YearStart(year + 1) == era * 146097 + next * 365 + next / 4 - next / 100 - 719468;
    assert YearStart(year) == era * 146097 + yoe * 365 + yoe / 4 - yoe / 100 - 719468;
    assert next / 4 - yoe / 4 == (if next % 4 == 0 then 1 else 0);
    assert next / 100 - yoe / 100 == (if next % 100 == 0 then 1 else 0);
  }

  /** Euclidean division by the calendar's constants, from a witness. */
  lemma Quotient(x: int, d: int, q: int, s: int)
    requires d == 4 || d == 100 || d == 400
    requires x == d * q + s && 0 <= s < d
    ensures x / d == q && x % d == s
  {
    if d == 4 {
      assert x == 4 * q + s;
    } else if d == 100 {
      assert x == 100 * q + s;
    } else {
      assert x == 400 * q + s;
    }
  }

  /** `d.setHours(23, 59, 59, 999)`: the last millisecond of the day of `t`.
      It stays on that day, and every instant of that day is at or before it
      while every later day starts after it. */
  function EndOfDay(t: Instant): (e: Instant)
    ensures t <= e && e / DAY_MS == t / DAY_MS
    ensures forall s: Instant {:trigger s / DAY_MS} :: s / DAY_MS <= t / DAY_MS <==> s <= e
  {
    t - t % DAY_MS + DAY_MS - 1
  }

  lemma ExampleDigits()
    ensures AllDigits("2023") && ShortNumber("01") && ShortNumber("10")
    ensures DigitsValue("2023") == 2023 && DigitsValue("01") == 1 && DigitsValue("10") == 10
  {
    assert "2023"[..3] == "202" && "202"[..2] == "20" && "20"[..1] == "2" && "2"[..0] == "";
    assert "01"[..1] == "0" && "10"[..1] == "1" && "0"[..0] == "" && "1"[..0] == "";
  }

  /** The first day of the upload format's example reads as 2023-01-10. */
  lemma ExampleDate()
    ensures ParseDate("2023-01-10") == Some(19367 * DAY_MS)
  {
    var parts := ["2023", "01", "10"];
    assert Join(parts, '-') == "2023-01-10";
    SplitJoin(parts, '-');
    ExampleDigits();
    assert DaysFromCivil(2023, 1, 10) == 19367;
  }
}
