/** The civil calendar behind the log paths (src/logging.rs): era arithmetic from a day count to a
    date and back, proved against a Gregorian calendar that only knows how to step one day.
    Section 5.7 and Appendix C of RFC 3339 give the month lengths and the leap-year rule. */
module CivilCalendar {

  const DAY: nat := 86_400

  datatype Date = Date(year: int, month: int, day: int)

  datatype Clock = Clock(hour: nat, minute: nat, second: nat)

  // ---------- the naive calendar ----------

  predicate IsLeap(year: int) {
    year % 4 == 0 && (year % 100 != 0 || year % 400 == 0)
  }

  function MonthLength(year: int, month: int): int {
    if month == 2 then (if IsLeap(year) then 29 else 28)
    else if month in {4, 6, 9, 11} then 30
    else 31
  }

  predicate IsDate(d: Date) {
    1 <= d.month <= 12 && 1 <= d.day <= MonthLength(d.year, d.month)
  }

  function NextDay(d: Date): Date
    requires IsDate(d)
  {
    if d.day < MonthLength(d.year, d.month) then d.(day := d.day + 1)
    else if d.month < 12 then Date(d.year, d.month + 1, 1)
    else Date(d.year + 1, 1, 1)
  }

  /** The date reached by stepping `n` days from 1970-01-01. */
  function StepDays(n: nat): (d: Date)
    ensures IsDate(d) && d.year >= 1970
  {
    if n == 0 then Date(1970, 1, 1) else NextDay(StepDays(n - 1))
  }

  predicate Before(a: Date, b: Date) {
    a.year < b.year
    || (a.year == b.year && (a.month < b.month || (a.month == b.month && a.day < b.day)))
  }

  // ---------- the product's arithmetic ----------

  /** The year of the 400-year era (March-based) that a day of the era falls in. */
  function YearOfEra(doe: int): int {
    (doe - doe / 1_460 + doe / 36_524 - doe / 146_096) / 365
  }

  /** The date of a day of an era: the year of the era, the day of that year, then month and day. */
  function CivilOfEra(era: int, doe: int): Date {
    var yoe := YearOfEra(doe);
    var y := yoe + era * 400;
    var doy := doe - (365 * yoe + yoe / 4 - yoe / 100);
    var mp := (5 * doy + 2) / 153;
    var d := doy - (153 * mp + 2) / 5 + 1;
    var m := if mp < 10 then mp + 3 else mp - 9;
    Date(if m <= 2 then y + 1 else y, m, d)
  }

  /** The date half of `day_and_clock`, from a day count. */
  function CivilFromDays(days: int): Date {
    var z := days + 719_468;
    CivilOfEra(z / 146_097, z % 146_097)
  }

  function DayAndClock(unixSeconds: nat): (Date, Clock) {
    var secs := unixSeconds % DAY;
    (CivilFromDays(unixSeconds / DAY), Clock(secs / 3600, (secs % 3600) / 60, secs % 60))
  }

  /** The day number of a civil date; `day_start` is this many whole days. */
  function DayNumber(year: int, month: int, day: int): int {
    var y := if month <= 2 then year - 1 else year;
    var era := y / 400;
    var yoe := y - era * 400;
    var mp := if month > 2 then month - 3 else month + 9;
    var doy := (153 * mp + 2) / 5 + day - 1;
    var doe := yoe * 365 + yoe / 4 - yoe / 100 + doy;
    era * 146_097 + doe - 719_468
  }

  function DayStart(year: int, month: int, day: int): int {
    DayNumber(year, month, day) * DAY
  }

  // ---------- year of the era ----------

  /** The first day of a March-based year within its era. */
  function YearStart(yoe: int): int {
    365 * yoe + yoe / 4 - yoe / 100
  }

  /** The last day (0-based) of March-based year `yoe`: 365 when the February that ends it is leap. */
  function LastDayOfYear(yoe: int): int {
    if (yoe + 1) % 4 == 0 && ((yoe + 1) % 100 != 0 || (yoe + 1) % 400 == 0) then 365 else 364
  }

  lemma YearOfEraInverts(yoe: int, doy: int)
    requires 0 <= yoe < 400 && 0 <= doy <= LastDayOfYear(yoe)
    ensures 0 <= YearStart(yoe) + doy < 146_097
    ensures YearOfEra(YearStart(yoe) + doy) == yoe
  {
    var century := yoe / 100;
    var quad := yoe % 100 / 4;
    var inQuad := yoe % 4;
    assert yoe == 100 * century + 4 * quad + inQuad;
    var doe := YearStart(yoe) + doy;
    EraQuotients(century, quad, inQuad, doy);
  }

  /** The three corrections of `YearOfEra`, with the year split as 100 * c + 4 * q + k. */
  lemma EraQuotients(c: int, q: int, k: int, doy: int)
    requires 0 <= c < 4 && 0 <= q < 25 && 0 <= k < 4 && 0 <= doy <= 365
    requires doy == 365 ==> k == 3 && (q < 24 || c == 3)
    ensures var doe := 36_524 * c + 1_461 * q + 365 * k + doy;
            0 <= doe < 146_097 && YearOfEra(doe) == 100 * c + 4 * q + k
  {
    var r := 1_461 * q + 365 * k + doy;
    var doe := 36_524 * c + r;
    var extra := if 24 * c + q + 365 * k + doy >= 1_460 then 1 else 0;
    assert doe == 1_460 * (25 * c + q + extra) + (24 * c + q + 365 * k + doy - 1_460 * extra);
    assert doe / 1_460 == 25 * c + q + extra;
    if r == 36_524 {
      assert q == 24 && k == 3 && doy == 365;
      assert doe / 36_524 == 4;
    } else {
      assert r < 36_524;
      assert doe / 36_524 == c;
    }
    assert doe / 36_524 - doe / 146_096 == c;
    assert doe - doe / 1_460 + c == 365 * (100 * c + 4 * q + k) + (doy - extra);
  }

  // ---------- month and day ----------

  function DayOfYear(month: int, day: int): int {
    var mp := if month > 2 then month - 3 else month + 9;
    (153 * mp + 2) / 5 + day - 1
  }

  lemma MonthInverts(month: int, day: int, leap: bool)
    requires 1 <= month <= 12
    requires 1 <= day <= MonthLength(if leap then 4 else 1, month)
    ensures var doy := DayOfYear(month, day);
            var mp := (5 * doy + 2) / 153;
            && 0 <= doy <= (if leap then 365 else 364)
            && (month > 2 ==> doy <= 305)
            && mp == (if month > 2 then month - 3 else month + 9)
            && doy - (153 * mp + 2) / 5 + 1 == day
  {
    if
    case month == 1 => case month == 2 => case month == 3 => case month == 4 =>
    case month == 5 => case month == 6 => case month == 7 => case month == 8 =>
    case month == 9 => case month == 10 => case month == 11 => case month == 12 =>
  }

  /** Whether the February that ends a March-based year is leap depends on the year of its era only. */
  lemma LeapWithinEra(era: int, yoe: int)
    requires 0 <= yoe < 400
    ensures LastDayOfYear(yoe) == if IsLeap(400 * era + yoe + 1) then 365 else 364
  {
    var y := 400 * era + yoe + 1;
    assert y % 4 == (yoe + 1) % 4 by { Shift(era * 100, yoe + 1, 4); }
    assert y % 100 == (yoe + 1) % 100 by { Shift(era * 4, yoe + 1, 100); }
    assert y % 400 == (yoe + 1) % 400 by { Shift(era, yoe + 1, 400); }
  }

  lemma Shift(k: int, r: int, m: nat)
    requires m in {4, 100, 400}
    ensures (m * k + r) % m == r % m
  {
  }

  lemma EraOfSum(era: int, doe: int)
    requires 0 <= doe < 146_097
    ensures (era * 146_097 + doe) / 146_097 == era && (era * 146_097 + doe) % 146_097 == doe
  {
  }

  /** The shifted year splits into its era and the year of the era. */
  lemma SplitYear(y: int) returns (era: int, yoe: int)
    ensures era == y / 400 && yoe == y - y / 400 * 400 && 0 <= yoe < 400 && y == 400 * era + yoe
  {
    era := y / 400;
    yoe := y % 400;
  }

  lemma EraDate(era: int, yoe: int, d: Date)
    requires IsDate(d) && 0 <= yoe < 400
    requires (if d.month <= 2 then d.year - 1 else d.year) == 400 * era + yoe
    ensures var doe := YearStart(yoe) + DayOfYear(d.month, d.day);
            0 <= doe < 146_097 && CivilOfEra(era, doe) == d
  {
    var doy := DayOfYear(d.month, d.day);
    MonthInverts(d.month, d.day, IsLeap(d.year));
    LeapWithinEra(era, yoe);
    assert doy <= LastDayOfYear(yoe);
    YearOfEraInverts(yoe, doy);
    hide YearOfEra, IsLeap, MonthLength, LastDayOfYear;
  }

  lemma NumberOfEra(d: Date, era: int, yoe: int)
    requires 0 <= yoe < 400
    requires (if d.month <= 2 then d.year - 1 else d.year) == 400 * era + yoe
    ensures DayNumber(d.year, d.month, d.day) + 719_468 == era * 146_097 + (YearStart(yoe) + DayOfYear(d.month, d.day))
  {
    var y := if d.month <= 2 then d.year - 1 else d.year;
    assert y / 400 == era;
  }

  /** `day_start` then `day_and_clock` names the date again, for every civil date. */
  lemma NumberThenDate(d: Date)
    requires IsDate(d)
    ensures CivilFromDays(DayNumber(d.year, d.month, d.day)) == d
  {
    hide CivilOfEra, DayNumber, YearStart, DayOfYear, IsDate;
    var era, yoe := SplitYear(if d.month <= 2 then d.year - 1 else d.year);
    EraDate(era, yoe, d);
    NumberOfEra(d, era, yoe);
    EraOfSum(era, YearStart(yoe) + DayOfYear(d.month, d.day));
  }

  /** The arithmetic advances by one exactly when the calendar does. */
  lemma NumberOfNextDay(d: Date)
    requires IsDate(d)
    ensures var n := NextDay(d);
            DayNumber(n.year, n.month, n.day) == DayNumber(d.year, d.month, d.day) + 1
  {
    if d.day < MonthLength(d.year, d.month) {
    } else if d.month < 12 {
      if d.month == 2 {
        NumberAtMarch(d.year);
      }
    }
  }

  lemma NumberAtMarch(year: int)
    ensures DayNumber(year, 3, 1) == DayNumber(year, 2, if IsLeap(year) then 29 else 28) + 1
  {
    var era, yoe := SplitYear(year - 1);
    LeapWithinEra(era, yoe);
    var next := yoe + 1;
    YearGrows(yoe);
    if next == 400 {
      assert year == 400 * (era + 1) && year / 400 == era + 1;
    } else {
      assert year / 400 == era;
    }
  }

  lemma YearGrows(yoe: int)
    requires 0 <= yoe < 400
    ensures YearStart(yoe + 1) == YearStart(yoe) + LastDayOfYear(yoe) + 1 - (if yoe == 399 then 1 else 0)
  {
  }

  // ---------- main results ----------

  lemma {:induction false} NumberOfStepped(n: nat)
    ensures var d := StepDays(n); DayNumber(d.year, d.month, d.day) == n
  {
    if n == 0 {
    } else {
      NumberOfStepped(n - 1);
      NumberOfNextDay(StepDays(n - 1));
    }
  }

  /** For every timestamp the product's date is the one reached by walking the naive calendar one day
      at a time, and the clock is the only one within a day that adds up to the second of the day. */
  lemma DayAndClockIsTheSteppedCalendar(unixSeconds: nat)
    ensures DayAndClock(unixSeconds).0 == StepDays(unixSeconds / DAY)
    ensures var c := DayAndClock(unixSeconds).1;
            && c.hour < 24 && c.minute < 60 && c.second < 60
            && unixSeconds == unixSeconds / DAY * DAY + c.hour * 3600 + c.minute * 60 + c.second
  {
    hide CivilFromDays, DayNumber, IsDate;
    NumberOfStepped(unixSeconds / DAY);
    NumberThenDate(StepDays(unixSeconds / DAY));
    ClockAddsUp(unixSeconds % DAY);
  }

  lemma ClockAddsUp(secs: nat)
    requires secs < DAY
    ensures secs / 3600 < 24 && secs % 3600 / 60 < 60
    ensures secs == secs / 3600 * 3600 + secs % 3600 / 60 * 60 + secs % 60
  {
    var h, rest := secs / 3600, secs % 3600;
    assert secs == h * 3600 + rest;
    assert rest == rest / 60 * 60 + rest % 60;
    assert secs == (h * 60 + rest / 60) * 60 + rest % 60;
  }

  /** `day_start` inverts `day_and_clock`: it returns the second the timestamp's day began. */
  lemma DayStartInverts(unixSeconds: nat)
    ensures var d := DayAndClock(unixSeconds).0;
            IsDate(d) && DayStart(d.year, d.month, d.day) == unixSeconds - unixSeconds % DAY
  {
    hide CivilFromDays, DayNumber, StepDays;
    DayAndClockIsTheSteppedCalendar(unixSeconds);
    NumberOfStepped(unixSeconds / DAY);
  }

  lemma {:induction false} SteppingMovesForward(m: nat, n: nat)
    requires m < n
    ensures Before(StepDays(m), StepDays(n))
  {
    if m < n - 1 {
      SteppingMovesForward(m, n - 1);
    }
  }

  /** Every civil date from 1970 on is reached by stepping, so it starts at a non-negative second. */
  lemma EveryDateIsStepped(d: Date)
    requires IsDate(d)
    ensures d.year >= 1970 <==> DayNumber(d.year, d.month, d.day) >= 0
    ensures d.year >= 1970 ==> StepDays(DayNumber(d.year, d.month, d.day)) == d
  {
    hide CivilFromDays, DayNumber;
    YearSign(d);
    if d.year >= 1970 {
      var n := DayNumber(d.year, d.month, d.day);
      NumberOfStepped(n);
      NumberThenDate(StepDays(n));
      NumberThenDate(d);
    }
  }

  lemma DayOfYearRange(d: Date)
    requires IsDate(d)
    ensures 0 <= DayOfYear(d.month, d.day) <= 365
    ensures d.month > 2 <==> DayOfYear(d.month, d.day) <= 305
  {
    MonthInverts(d.month, d.day, IsLeap(d.year));
  }

  lemma YearSign(d: Date)
    requires IsDate(d)
    ensures d.year >= 1970 <==> DayNumber(d.year, d.month, d.day) >= 0
  {
    var era, yoe := SplitYear(if d.month <= 2 then d.year - 1 else d.year);
    DayOfYearRange(d);
    NumberOfEra(d, era, yoe);
    hide DayNumber, DayOfYear, IsDate;
    assert 0 <= YearStart(yoe) <= 146_000;
    assert (yoe <= 368 ==> YearStart(yoe) <= 134_409) && (yoe >= 370 ==> YearStart(yoe) >= 135_139);
    assert YearStart(369) == 134_774;
    hide YearStart;
    if era == 4 && yoe == 369 {
      assert d.year >= 1970 <==> d.month <= 2;
    } else {
      assert d.year >= 1970 <==> era > 4 || (era == 4 && yoe >= 370);
    }
  }

  /** Date order is day-number order. */
  lemma OrderOfNumbers(a: Date, b: Date)
    requires IsDate(a) && IsDate(b) && a.year >= 1970 && b.year >= 1970
    ensures Before(a, b) <==> DayNumber(a.year, a.month, a.day) < DayNumber(b.year, b.month, b.day)
  {
    hide DayNumber, CivilFromDays;
    EveryDateIsStepped(a);
    EveryDateIsStepped(b);
    var m, n := DayNumber(a.year, a.month, a.day), DayNumber(b.year, b.month, b.day);
    if m < n {
      SteppingMovesForward(m, n);
    } else if n < m {
      SteppingMovesForward(n, m);
    }
  }
}
