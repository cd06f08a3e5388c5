/** Days since 1970-01-01 and proleptic Gregorian dates, by closed formulas over all integers. */
module Dates {

  datatype Date = Date(year: int, month: int, day: int)

  // --- the calendar -------------------------------------------------------

  predicate Leap(year: int) { year % 4 == 0 && (year % 100 != 0 || year % 400 == 0) }

  function MonthLength(year: int, month: int): int {
    if month == 2 then if Leap(year) then 29 else 28
    else if month == 4 || month == 6 || month == 9 || month == 11 then 30
    else 31
  }

  predicate Exists(date: Date) {
    1 <= date.month <= 12 && 1 <= date.day <= MonthLength(date.year, date.month)
  }

  function DayAfter(date: Date): Date {
    if date.day < MonthLength(date.year, date.month) then date.(day := date.day + 1)
    else if date.month < 12 then Date(date.year, date.month + 1, 1)
    else Date(date.year + 1, 1, 1)
  }

  // --- the formulas -------------------------------------------------------

  // Division as the machine does it: toward zero.
  function Quotient(a: int, b: int): int
    requires b > 0
  {
    if a >= 0 then a / b else -(-a / b)
  }

  function Era(year: int): int { Quotient(if year >= 0 then year else year - 399, 400) }

  // The first day of the year of an era, in years that start in March.
  function YearStart(yearOfEra: int): int { yearOfEra * 365 + yearOfEra / 4 - yearOfEra / 100 }

  function MonthStart(monthFromMarch: int): int { (153 * monthFromMarch + 2) / 5 }

  function DaysFromCivil(date: Date): int {
    var y := if date.month <= 2 then date.year - 1 else date.year;
    var era := Era(y);
    var yearOfEra := y - era * 400;
    var monthFromMarch := (date.month + 9) % 12;
    var dayOfYear := MonthStart(monthFromMarch) + date.day - 1;
    var dayOfEra := YearStart(yearOfEra) + dayOfYear;
    era * 146_097 + dayOfEra - 719_468
  }

  function YearOf(dayOfEra: int): int {
    (dayOfEra - dayOfEra / 1_460 + dayOfEra / 36_524 - dayOfEra / 146_096) / 365
  }

  function CivilFromDays(days: int): Date {
    var z := days + 719_468;
    var era := z / 146_097;
    var dayOfEra := z % 146_097;
    var yearOfEra := YearOf(dayOfEra);
    var dayOfYear := dayOfEra - YearStart(yearOfEra);
    var monthFromMarch := (5 * dayOfYear + 2) / 153;
    var day := dayOfYear - MonthStart(monthFromMarch) + 1;
    var month := if monthFromMarch < 10 then monthFromMarch + 3 else monthFromMarch - 9;
    Date(yearOfEra + era * 400 + (if month <= 2 then 1 else 0), month, day)
  }

  // --- why they meet ------------------------------------------------------

  // The truncating division acts as the floor, for negative years too.
  lemma EraIsFloor(year: int)
    ensures Era(year) == year / 400 && 0 <= year - Era(year) * 400 < 400
  {
  }

  // The days of a March year: one more when the February at its end is a leap one.
  function YearLength(yearOfEra: int): int { if Leap(yearOfEra + 1) then 366 else 365 }

  lemma YearStartStep(y: int)
    requires 0 <= y < 400
    ensures YearStart(y) + YearLength(y) == if y == 399 then 146_097 else YearStart(y + 1)
  {
  }

  // A day of an era as century, leap cycle, year of the cycle and day of the year.
  lemma YearOfDigits(c: int, q: int, r: int, dayOfYear: int)
    requires 0 <= c < 4 && 0 <= q < 25 && 0 <= r < 4
    requires 0 <= dayOfYear < (if r == 3 && (q < 24 || c == 3) then 366 else 365)
    ensures YearOf(36_524 * c + 1_461 * q + 365 * r + dayOfYear) == 100 * c + 4 * q + r
  {
    var dayOfEra := 36_524 * c + 1_461 * q + 365 * r + dayOfYear;
    var over := if 24 * c + q + 365 * r + dayOfYear >= 1_460 then 1 else 0;
    var last := if dayOfEra == 146_096 then 1 else 0;
    assert dayOfEra / 1_460 == 25 * c + q + over;
    assert dayOfEra / 36_524 == c + last;
    assert dayOfEra / 146_096 == last;
    assert 0 <= dayOfYear - over < 365;
  }

  lemma YearOfIsTheOne(dayOfEra: int, y: int)
    requires 0 <= y < 400 && YearStart(y) <= dayOfEra < YearStart(y) + YearLength(y)
    ensures 0 <= dayOfEra < 146_097 && YearOf(dayOfEra) == y
  {
    var c, q, r := y / 100, y % 100 / 4, y % 4;
    assert y / 4 == 25 * c + q;
    YearOfDigits(c, q, r, dayOfEra - YearStart(y));
  }

  lemma {:induction false} SomeYear(dayOfEra: int, y: int) returns (found: int)
    requires 0 <= y < 400 && YearStart(y) <= dayOfEra < 146_097
    ensures 0 <= found < 400 && YearStart(found) <= dayOfEra < YearStart(found) + YearLength(found)
    decreases 400 - y
  {
    YearStartStep(y);
    if dayOfEra < YearStart(y) + YearLength(y) {
      found := y;
    } else {
      found := SomeYear(dayOfEra, y + 1);
    }
  }

  lemma YearOfFits(dayOfEra: int)
    requires 0 <= dayOfEra < 146_097
    ensures 0 <= YearOf(dayOfEra) < 400
    ensures YearStart(YearOf(dayOfEra)) <= dayOfEra < YearStart(YearOf(dayOfEra)) + YearLength(YearOf(dayOfEra))
  {
    var y := SomeYear(dayOfEra, 0);
    YearOfIsTheOne(dayOfEra, y);
  }

  // The months from March, as the formula lays them out.
  lemma MonthsFit(dayOfYear: int)
    requires 0 <= dayOfYear < 366
    ensures var m := (5 * dayOfYear + 2) / 153;
      0 <= m < 12 && MonthStart(m) <= dayOfYear && (m < 11 ==> dayOfYear < MonthStart(m + 1))
  {
  }

  // A March year and a day of it are a date of the calendar.
  function MarchDate(era: int, yearOfEra: int, dayOfYear: int): Date {
    var monthFromMarch := (5 * dayOfYear + 2) / 153;
    var month := if monthFromMarch < 10 then monthFromMarch + 3 else monthFromMarch - 9;
    Date(yearOfEra + era * 400 + (if month <= 2 then 1 else 0), month, dayOfYear - MonthStart(monthFromMarch) + 1)
  }

  lemma LeapRepeats(era: int, yearOfEra: int)
    ensures Leap(yearOfEra + era * 400) == Leap(yearOfEra)
  {
    var year := yearOfEra + era * 400;
    assert year / 400 == yearOfEra / 400 + era && year / 100 == yearOfEra / 100 + 4 * era
      && year / 4 == yearOfEra / 4 + 100 * era;
  }

  lemma MarchDateExists(era: int, yearOfEra: int, dayOfYear: int)
    requires 0 <= yearOfEra < 400 && 0 <= dayOfYear < YearLength(yearOfEra)
    ensures var date := MarchDate(era, yearOfEra, dayOfYear);
      Exists(date) && DaysFromCivil(date) == era * 146_097 + YearStart(yearOfEra) + dayOfYear - 719_468
  {
    hide YearStart, Era, Leap;
    MonthsFit(dayOfYear);
    LeapRepeats(era, yearOfEra + 1);
    EraIsFloor(yearOfEra + era * 400);
  }

  // Every day is a date of the calendar, and that date's day.
  lemma DayOfDate(days: int)
    ensures Exists(CivilFromDays(days)) && DaysFromCivil(CivilFromDays(days)) == days
  {
    hide YearOf, YearStart, YearLength, DaysFromCivil, Exists, MonthStart;
    var z := days + 719_468;
    var dayOfEra := z % 146_097;
    YearOfFits(dayOfEra);
    MarchDateExists(z / 146_097, YearOf(dayOfEra), dayOfEra - YearStart(YearOf(dayOfEra)));
  }

  lemma DayInYear(date: Date, era: int, yearOfEra: int)
    requires Exists(date) && yearOfEra == (if date.month <= 2 then date.year - 1 else date.year) - era * 400
    ensures var month := (date.month + 9) % 12; var dayOfYear := MonthStart(month) + date.day - 1;
      && 0 <= dayOfYear < YearLength(yearOfEra) && (5 * dayOfYear + 2) / 153 == month
      && 1 <= date.month <= 12
  {
    LeapRepeats(era, yearOfEra + 1);
    assert yearOfEra + 1 + era * 400 == (if date.month <= 2 then date.year else date.year + 1);
    hide Leap;
  }

  // Every date of the calendar, before and after the epoch, comes back from its day.
  lemma DateOfDay(date: Date)
    requires Exists(date)
    ensures CivilFromDays(DaysFromCivil(date)) == date
  {
    hide YearOf, YearStart, YearLength, Era, Exists, MonthStart;
    var y := if date.month <= 2 then date.year - 1 else date.year;
    var era := Era(y);
    var yearOfEra, month := y - era * 400, (date.month + 9) % 12;
    var dayOfYear := MonthStart(month) + date.day - 1;
    EraIsFloor(y);
    DayInYear(date, era, yearOfEra);
    YearOfIsTheOne(YearStart(yearOfEra) + dayOfYear, yearOfEra);
    var z := DaysFromCivil(date) + 719_468;
    assert z == era * 146_097 + (YearStart(yearOfEra) + dayOfYear);
    assert z / 146_097 == era && z % 146_097 == YearStart(yearOfEra) + dayOfYear;
  }

  // The day of the first of March.
  function MarchFirst(year: int): int { Era(year) * 146_097 + YearStart(year - Era(year) * 400) - 719_468 }

  lemma MarchToMarch(year: int)
    ensures MarchFirst(year + 1) == MarchFirst(year) + if Leap(year + 1) then 366 else 365
  {
    var y := year - Era(year) * 400;
    EraIsFloor(year);
    EraIsFloor(year + 1);
    LeapRepeats(Era(year), y + 1);
    YearStartStep(y);
    assert Era(year + 1) == if y == 399 then Era(year) + 1 else Era(year);
    hide Era, Leap;
  }

  // The next date of the calendar has the next day.
  lemma DaysCountDates(date: Date)
    requires Exists(date)
    ensures Exists(DayAfter(date)) && DaysFromCivil(DayAfter(date)) == DaysFromCivil(date) + 1
  {
    hide DaysFromCivil, MarchFirst, MonthStart, Leap;
    FromMarch(date);
    FromMarch(DayAfter(date));
    MonthEnds(date.year, date.month);
    MarchToMarch(date.year - 1);
  }

  lemma FromMarch(date: Date)
    ensures DaysFromCivil(date) ==
      MarchFirst(if date.month <= 2 then date.year - 1 else date.year) + MonthStart((date.month + 9) % 12)
        + date.day - 1
  {
    hide Era, YearStart, MonthStart;
  }

  // A month ends where the next begins, and February where the year from March does.
  lemma MonthEnds(year: int, month: int)
    requires 1 <= month <= 12
    ensures MonthStart(0) == 0
    ensures if month == 2 then MonthStart(11) + MonthLength(year, 2) == if Leap(year) then 366 else 365
      else MonthStart((month % 12 + 10) % 12) == MonthStart((month + 9) % 12) + MonthLength(year, month)
  {
    hide Leap;
    assert MonthStart(0) == 0 && MonthStart(1) == 31 && MonthStart(2) == 61 && MonthStart(3) == 92;
    assert MonthStart(4) == 122 && MonthStart(5) == 153 && MonthStart(6) == 184 && MonthStart(7) == 214;
    assert MonthStart(8) == 245 && MonthStart(9) == 275 && MonthStart(10) == 306 && MonthStart(11) == 337;
  }

  // The day after day z has the date after z's date, under the 4/100/400 leap rule.
  lemma NextDayNextDate(days: int)
    ensures CivilFromDays(days + 1) == DayAfter(CivilFromDays(days))
  {
    hide CivilFromDays, DaysFromCivil, DayAfter, Exists;
    DayOfDate(days);
    DaysCountDates(CivilFromDays(days));
    DateOfDay(DayAfter(CivilFromDays(days)));
  }

  predicate Before(a: Date, b: Date) {
    a.year < b.year || (a.year == b.year && (a.month < b.month || (a.month == b.month && a.day < b.day)))
  }

  lemma {:induction false} LaterDaysLaterDates(days: int, more: nat)
    requires more > 0
    ensures Before(CivilFromDays(days), CivilFromDays(days + more))
  {
    hide CivilFromDays;
    DayOfDate(days + more - 1);
    NextDayNextDate(days + more - 1);
    if more > 1 {
      LaterDaysLaterDates(days, more - 1);
    }
  }

  // Days order dates of the calendar as years, months and days do.
  lemma DaysOrderDates(a: Date, b: Date)
    requires Exists(a) && Exists(b)
    ensures DaysFromCivil(a) < DaysFromCivil(b) <==> Before(a, b)
  {
    hide CivilFromDays, DaysFromCivil, Exists;
    var m, n := DaysFromCivil(a), DaysFromCivil(b);
    DateOfDay(a);
    DateOfDay(b);
    if m < n {
      LaterDaysLaterDates(m, n - m);
    } else if n < m {
      LaterDaysLaterDates(n, m - n);
    }
  }

  lemma Epoch()
    ensures CivilFromDays(0) == Date(1970, 1, 1) && CivilFromDays(-719_469) == Date(0, 2, 29)
  {
    hide CivilFromDays, DaysFromCivil;
    KnownDays();
    DateOfDay(Date(1970, 1, 1));
    DateOfDay(Date(0, 2, 29));
  }

  lemma KnownDays()
    ensures DaysFromCivil(Date(1970, 1, 1)) == 0 && DaysFromCivil(Date(0, 2, 29)) == -719_469
  {
    hide Era, YearStart, MonthStart;
    KnownParts();
  }

  lemma KnownParts()
    ensures Era(1969) == 4 && YearStart(369) == 134_774 && MonthStart(10) == 306
    ensures Era(-1) == -1 && YearStart(399) == 145_731 && MonthStart(11) == 337
  {
  }
}
