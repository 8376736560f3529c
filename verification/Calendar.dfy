/**
 Day numbers and Gregorian dates. The closed form that names a day is proved to be
 the date reached by stepping day by day from 1 January 1970, and the closed form
 that reads a date back is proved to be its inverse.
 */
module Calendar {

  datatype Date = Date(year: int, month: int, day: int)

  const EPOCH: Date := Date(1970, 1, 1)

  predicate IsLeap(year: int) {
    year % 4 == 0 && (year % 100 != 0 || year % 400 == 0)
  }

  function DaysIn(year: int, month: int): int {
    if month == 2 then (if IsLeap(year) then 29 else 28)
    else if month == 4 || month == 6 || month == 9 || month == 11 then 30
    else 31
  }

  predicate IsDate(d: Date) {
    1 <= d.month <= 12 && 1 <= d.day <= DaysIn(d.year, d.month)
  }

  function NextDay(d: Date): Date {
    if d.day < DaysIn(d.year, d.month) then d.(day := d.day + 1)
    else if d.month < 12 then Date(d.year, d.month + 1, 1)
    else Date(d.year + 1, 1, 1)
  }

  /** The date `n` days after the epoch, one day at a time. */
  function DaysOn(n: nat): Date {
    if n == 0 then EPOCH else NextDay(DaysOn(n - 1))
  }

  /** Division as the program's language does it: toward zero. */
  function Quotient(a: int, b: int): int
    requires b > 0
  {
    if a >= 0 then a / b else -((-a) / b)
  }

  /** Division of a possibly negative number, rounded down by a correction before the truncation. */
  function Floored(a: int, b: int): int
    requires b > 0
  {
    Quotient(if a >= 0 then a else a - (b - 1), b)
  }

  function YearOfEra(doe: int): int {
    Quotient(doe - Quotient(doe, 1460) + Quotient(doe, 36_524) - Quotient(doe, 146_096), 365)
  }

  function DayOfYear(doe: int, yoe: int): int {
    doe - (365 * yoe + Quotient(yoe, 4) - Quotient(yoe, 100))
  }

  /** The date of day `doy` of the year that starts on 1 March of year `y`. */
  function FromMarch(y: int, doy: int): Date {
    var mp := Quotient(5 * doy + 2, 153);
    var day := doy - Quotient(153 * mp + 2, 5) + 1;
    var month := mp + (if mp < 10 then 3 else -9);
    Date(y + (if month <= 2 then 1 else 0), month, day)
  }

  function FromEra(era: int, doe: int): Date {
    var yoe := YearOfEra(doe);
    FromMarch(yoe + era * 400, DayOfYear(doe, yoe))
  }

  /** The date of a day number, in closed form. */
  function CivilFromDays(days: int): Date {
    var z := days + 719_468;
    var era := Floored(z, 146_097);
    FromEra(era, z - era * 146_097)
  }

  /** The day number of a date, in closed form. */
  function DaysFromCivil(d: Date): int {
    var y := d.year - (if d.month <= 2 then 1 else 0);
    var era := Floored(y, 400);
    var yoe := y - era * 400;
    var mp := d.month + (if d.month > 2 then -3 else 9);
    var doy := Quotient(153 * mp + 2, 5) + d.day - 1;
    var doe := yoe * 365 + Quotient(yoe, 4) - Quotient(yoe, 100) + doy;
    era * 146_097 + doe - 719_468
  }

  /** Days before month `mp` of a year counted from March. */
  function MonthStart(mp: int): int {
    (153 * mp + 2) / 5
  }

  /** The program's way of flooring a possibly negative quotient. */
  lemma FlooredIsFloor(a: int, b: int)
    requires b > 0
    ensures Floored(a, b) == a / b
  {
    if a < 0 {
      DivIs(b - 1 - a, b, -(a / b), b - 1 - a % b);
    }
  }

  lemma MultipleAtLeast(b: nat, k: nat)
    requires k >= 1
    ensures b * k >= b
  {
    assert b * k == b + b * (k - 1);
  }

  lemma DivIs(a: int, b: int, q: int, r: int)
    requires b > 0 && a == b * q + r && 0 <= r < b
    ensures a / b == q
  {
    var p := a / b;
    assert b * p + a % b == a;
    if p > q {
      assert b * (p - q) == b * p - b * q;
      MultipleAtLeast(b, p - q);
      assert false;
    } else if p < q {
      assert b * (q - p) == b * q - b * p;
      MultipleAtLeast(b, q - p);
      assert false;
    }
  }

  /** Centuries, four-year cycles and years of an era, and the day of the year from March. */
  predicate InEra(c: int, q: int, r: int, doy: int) {
    && 0 <= c <= 3 && 0 <= q <= 24 && 0 <= r <= 3 && 0 <= doy <= 365
    && (doy == 365 ==> r == 3 && (q < 24 || c == 3))
  }

  function DayOfEra(c: int, q: int, r: int, doy: int): int {
    36_524 * c + 1461 * q + 365 * r + doy
  }

  /** The year of the era is recovered from the day of the era. */
  lemma YearRecovered(c: int, q: int, r: int, doy: int)
    requires InEra(c, q, r, doy)
    ensures var doe := DayOfEra(c, q, r, doy);
            0 <= doe < 146_097 && YearOfEra(doe) == 100 * c + 4 * q + r
  {
    var doe := DayOfEra(c, q, r, doy);
    var late := if 24 * c + q + 365 * r + doy >= 1460 then 1 else 0;
    DivIs(doe, 1460, 25 * c + q + late, 24 * c + q + 365 * r + doy - 1460 * late);
    var last := if doe == 146_096 then 1 else 0;
    DivIs(doe, 36_524, c + last, 1461 * q + 365 * r + doy - 36_524 * last);
    DivIs(doe, 146_096, last, doe - 146_096 * last);
    DivIs(doe - doe / 1460 + doe / 36_524 - doe / 146_096, 365, 100 * c + 4 * q + r, doy - late);
  }

  /** A year of the era in centuries, cycles and years, and what precedes it. */
  lemma SplitYear(yoe: int) returns (c: int, q: int, r: int)
    requires 0 <= yoe < 400
    ensures 0 <= c <= 3 && 0 <= q <= 24 && 0 <= r <= 3 && yoe == 100 * c + 4 * q + r
    ensures yoe / 100 == c && yoe / 4 == 25 * c + q
    ensures 365 * yoe + yoe / 4 - yoe / 100 == DayOfEra(c, q, r, 0)
    ensures IsLeap(yoe + 1) <==> r == 3 && (q < 24 || c == 3)
  {
    c := yoe / 100;
    q := (yoe - 100 * c) / 4;
    r := yoe - 100 * c - 4 * q;
    DivIs(yoe, 4, 25 * c + q, r);
    if r == 3 {
      assert yoe + 1 == 4 * (25 * c + q + 1);
      if q == 24 {
        assert yoe + 1 == 100 * (c + 1);
      } else {
        DivIs(yoe + 1, 100, c, 4 * q + 4);
      }
    } else {
      DivIs(yoe + 1, 4, 25 * c + q, r + 1);
    }
  }

  /** Days before 1 March of year `y`, counted from 1 March of year 0. */
  function DaysBefore(y: int): int {
    365 * y + y / 4 - y / 100 + y / 400
  }

  lemma DaysBeforeByEra(y: int)
    ensures DaysBefore(y) == y / 400 * 146_097 + (365 * (y % 400) + y % 400 / 4 - y % 400 / 100)
  {
    var era, yoe := y / 400, y % 400;
    DivIs(y, 4, 100 * era + yoe / 4, yoe % 4);
    DivIs(y, 100, 4 * era + yoe / 100, yoe % 100);
  }

  function MarchYear(d: Date): int { d.year - (if d.month <= 2 then 1 else 0) }

  function MarchMonth(d: Date): int { d.month + (if d.month > 2 then -3 else 9) }

  /** The closed form as a sum of whole years, whole months and days. */
  lemma DaysFromCivilAdds(d: Date)
    requires 1 <= d.month <= 12
    ensures DaysFromCivil(d) == DaysBefore(MarchYear(d)) + MonthStart(MarchMonth(d)) + d.day - 1 - 719_468
  {
    var y := MarchYear(d);
    FlooredIsFloor(y, 400);
    DaysBeforeByEra(y);
  }

  lemma LeapRepeats(year: int, era: int)
    ensures IsLeap(year + 400 * era) == IsLeap(year)
  {
    DivIs(year + 400 * era, 4, year / 4 + 100 * era, year % 4);
    DivIs(year + 400 * era, 100, year / 100 + 4 * era, year % 100);
    DivIs(year + 400 * era, 400, year / 400 + era, year % 400);
  }

  lemma NextQuotient(y: int, b: int)
    requires b > 0
    ensures (y + 1) / b == y / b + if (y + 1) % b == 0 then 1 else 0
  {
    if y % b == b - 1 {
      DivIs(y + 1, b, y / b + 1, 0);
    } else {
      DivIs(y + 1, b, y / b, y % b + 1);
    }
  }

  lemma YearLength(y: int)
    ensures DaysBefore(y + 1) - DaysBefore(y) == if IsLeap(y + 1) then 366 else 365
  {
    NextQuotient(y, 4);
    NextQuotient(y, 100);
    NextQuotient(y, 400);
    if (y + 1) % 100 == 0 {
      DivIs(y + 1, 4, 25 * ((y + 1) / 100), 0);
    }
    if (y + 1) % 400 == 0 {
      DivIs(y + 1, 100, 4 * ((y + 1) / 400), 0);
    }
  }

  /** Months counted from March start and end where the closed form says. */
  lemma MonthLength(year: int, month: int)
    requires 1 <= month <= 12 && month != 2
    ensures var mp := month + (if month > 2 then -3 else 9);
            MonthStart(mp + 1) - MonthStart(mp) == DaysIn(year, month)
  {}

  /** Days up to a date, counted from 1 March of year 0. */
  function MarchCount(d: Date): int {
    DaysBefore(MarchYear(d)) + MonthStart(MarchMonth(d)) + d.day
  }

  lemma NextDayCountsOn(d: Date)
    requires IsDate(d)
    ensures IsDate(NextDay(d)) && MarchCount(NextDay(d)) == MarchCount(d) + 1
  {
    if d.day < DaysIn(d.year, d.month) {
      assert MarchCount(NextDay(d)) == MarchCount(d) + 1;
    } else if d.month == 2 {
      YearLength(d.year - 1);
    } else {
      MonthLength(d.year, d.month);
    }
  }

  lemma NextDayIsOneMore(d: Date)
    requires IsDate(d)
    ensures IsDate(NextDay(d)) && DaysFromCivil(NextDay(d)) == DaysFromCivil(d) + 1
  {
    NextDayCountsOn(d);
    DaysFromCivilAdds(d);
    DaysFromCivilAdds(NextDay(d));
  }

  lemma MonthOfDay(d: Date)
    requires IsDate(d)
    ensures var doy := MonthStart(MarchMonth(d)) + d.day - 1;
            0 <= doy <= 365 && (5 * doy + 2) / 153 == MarchMonth(d) && (doy == 365 ==> d.month == 2 && d.day == 29)
  {
    var mp, doy := MarchMonth(d), MonthStart(MarchMonth(d)) + d.day - 1;
    assert 0 <= 5 * doy + 2 - 153 * mp < 153;
    DivIs(5 * doy + 2, 153, mp, 5 * doy + 2 - 153 * mp);
  }

  /** Where a date lies in its era. */
  lemma PlaceInEra(d: Date) returns (era: int, c: int, q: int, r: int)
    requires IsDate(d)
    ensures var doy := MonthStart(MarchMonth(d)) + d.day - 1;
            && InEra(c, q, r, doy) && MarchYear(d) == 100 * c + 4 * q + r + era * 400
            && DaysFromCivil(d) + 719_468 == era * 146_097 + DayOfEra(c, q, r, doy)
            && DayOfYear(DayOfEra(c, q, r, doy), 100 * c + 4 * q + r) == doy
  {
    var y := MarchYear(d);
    era := y / 400;
    DaysFromCivilAdds(d);
    DaysBeforeByEra(y);
    MonthOfDay(d);
    LeapRepeats(y % 400 + 1, era);
    c, q, r := SplitYear(y % 400);
  }

  lemma EraAndYear(d: Date) returns (era: int, doe: int, yoe: int)
    requires IsDate(d)
    ensures DaysFromCivil(d) + 719_468 == era * 146_097 + doe && 0 <= doe < 146_097 && MarchYear(d) == yoe + era * 400
    ensures YearOfEra(doe) == yoe && DayOfYear(doe, yoe) == MonthStart(MarchMonth(d)) + d.day - 1
  {
    var c, q, r;
    era, c, q, r := PlaceInEra(d);
    var doy := MonthStart(MarchMonth(d)) + d.day - 1;
    doe, yoe := DayOfEra(c, q, r, doy), 100 * c + 4 * q + r;
    YearRecovered(c, q, r, doy);
  }

  lemma FromMarchIs(d: Date)
    requires IsDate(d)
    ensures FromMarch(MarchYear(d), MonthStart(MarchMonth(d)) + d.day - 1) == d
  {
    MonthOfDay(d);
  }

  /** Naming the day of a date gives that date back. */
  lemma CivilRoundTrip(d: Date)
    requires IsDate(d)
    ensures CivilFromDays(DaysFromCivil(d)) == d
  {
    var era, doe, yoe := EraAndYear(d);
    FromMarchIs(d);
    PartsName(d, DaysFromCivil(d), era, doe, yoe, MonthStart(MarchMonth(d)) + d.day - 1);
  }

  lemma PartsName(d: Date, days: int, era: int, doe: int, yoe: int, doy: int)
    requires days + 719_468 == era * 146_097 + doe && 0 <= doe < 146_097
    requires YearOfEra(doe) == yoe && DayOfYear(doe, yoe) == doy
    requires MarchYear(d) == yoe + era * 400 && FromMarch(MarchYear(d), doy) == d
    ensures CivilFromDays(days) == d
  {
    EraRecovered(days, era, doe, yoe, doy);
  }

  lemma EraRecovered(days: int, era: int, doe: int, yoe: int, doy: int)
    requires days + 719_468 == era * 146_097 + doe && 0 <= doe < 146_097
    requires YearOfEra(doe) == yoe && DayOfYear(doe, yoe) == doy
    ensures CivilFromDays(days) == FromMarch(yoe + era * 400, doy)
  {
    EraOf(days + 719_468, era, doe);
    ByParts(days, era, doe);
    ByYear(era, doe, yoe, doy);
  }

  lemma EraOf(z: int, era: int, doe: int)
    requires z == era * 146_097 + doe && 0 <= doe < 146_097
    ensures Floored(z, 146_097) == era
  {
    FlooredIsFloor(z, 146_097);
    DivIs(z, 146_097, era, doe);
  }

  lemma ByParts(days: int, era: int, doe: int)
    requires days + 719_468 == era * 146_097 + doe && Floored(days + 719_468, 146_097) == era
    ensures CivilFromDays(days) == FromEra(era, doe)
  {
    assert days + 719_468 - era * 146_097 == doe;
  }

  lemma ByYear(era: int, doe: int, yoe: int, doy: int)
    requires YearOfEra(doe) == yoe && DayOfYear(doe, yoe) == doy
    ensures FromEra(era, doe) == FromMarch(yoe + era * 400, doy)
  {}

  /** Day by day from the epoch, every date is a date and its closed-form number counts the days. */
  lemma {:induction false} DaysOnCounts(n: nat)
    ensures IsDate(DaysOn(n)) && DaysFromCivil(DaysOn(n)) == n
  {
    if n == 0 {
      EpochIsDayZero();
    } else {
      DaysOnCounts(n - 1);
      NextDayIsOneMore(DaysOn(n - 1));
    }
  }

  lemma EpochIsDayZero()
    ensures IsDate(EPOCH) && DaysFromCivil(EPOCH) == 0
  {
    DaysFromCivilAdds(EPOCH);
    assert DaysBefore(1969) == 719_162 && MonthStart(10) == 306;
  }

  /**
   The closed form is the calendar: for every day number it names the date reached by
   stepping day by day from 1 January 1970, and reading that date back gives the number.
   */
  lemma ClosedFormIsCalendar(n: nat)
    ensures CivilFromDays(n) == DaysOn(n) && IsDate(CivilFromDays(n)) && DaysFromCivil(CivilFromDays(n)) == n
  {
    DaysOnCounts(n);
    CivilRoundTrip(DaysOn(n));
  }
}
