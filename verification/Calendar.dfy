/**
  The calendar conversion behind record timestamps, against the proleptic
  Gregorian calendar, and the ordering of the timestamps it makes.
*/
module Calendar {

  // -- the calendar ----------------------------------------------------------

  datatype Date = Date(year: int, month: int, day: int)

  predicate IsLeap(year: int) {
    year % 4 == 0 && (year % 100 != 0 || year % 400 == 0)
  }

  function DaysInMonth(year: int, month: int): int
    requires 1 <= month <= 12
  {
    if month == 2 then (if IsLeap(year) then 29 else 28)
    else if month == 4 || month == 6 || month == 9 || month == 11 then 30
    else 31
  }

  predicate Valid(date: Date) {
    1 <= date.month <= 12 && 1 <= date.day <= DaysInMonth(date.year, date.month)
  }

  /** The day after, by the rules of the calendar. */
  function Successor(date: Date): Date
    requires Valid(date)
  {
    if date.day < DaysInMonth(date.year, date.month) then date.(day := date.day + 1)
    else if date.month < 12 then Date(date.year, date.month + 1, 1)
    else Date(date.year + 1, 1, 1)
  }

  function DaysBeforeMonth(year: int, month: int): int
    requires 1 <= month <= 12
  {
    if month == 1 then 0 else DaysBeforeMonth(year, month - 1) + DaysInMonth(year, month - 1)
  }

  /** Leap years in the years 1 to `year`, counted on below zero. */
  function LeapYearsThrough(year: int): int {
    year / 4 - year / 100 + year / 400
  }

  /** The days from 1970-01-01 to a date. */
  function DaysFromCivil(date: Date): int
    requires 1 <= date.month <= 12
  {
    365 * (date.year - 1970) + LeapYearsThrough(date.year - 1) - LeapYearsThrough(1969) +
    DaysBeforeMonth(date.year, date.month) + date.day - 1
  }

  ghost predicate Before(a: Date, b: Date) {
    || a.year < b.year
    || (a.year == b.year && (a.month < b.month || (a.month == b.month && a.day < b.day)))
  }

  // -- the conversion --------------------------------------------------------

  /** Integer division toward zero; it is `/` when nothing is negative. */
  function TruncatedDiv(a: int, b: int): int
    requires b > 0
  {
    if a >= 0 then a / b else -((-a) / b)
  }

  function Era(z: int): int {
    TruncatedDiv(if z >= 0 then z else z - 146096, 146097)
  }

  function YearOfEra(dayOfEra: nat): int {
    (dayOfEra - dayOfEra / 1460 + dayOfEra / 36524 - dayOfEra / 146096) / 365
  }

  /** The day counted from the first of March, in a year of the era. */
  function DayOfYear(dayOfEra: nat, yearOfEra: int): int {
    dayOfEra - (365 * yearOfEra + yearOfEra / 4 - yearOfEra / 100)
  }

  /** The civil fields of day `d`, counted from the first of March, of the
      year that starts in March of `year`. */
  function FromMarch(year: int, d: nat): Date {
    var monthPrime := (5 * d + 2) / 153;
    var day := d - (153 * monthPrime + 2) / 5 + 1;
    var month := monthPrime + (if monthPrime < 10 then 3 else -9);
    Date(year + (if month <= 2 then 1 else 0), month, day)
  }

  /** The conversion yields a date of the calendar, and the one whose day
      number it was given. */
  function CivilFromDays(daysSinceEpoch: int): (date: Date)
    ensures Valid(date) && DaysFromCivil(date) == daysSinceEpoch
  {
    var z := daysSinceEpoch + 719468;
    EraIsFloor(z);
    var era := Era(z);
    var dayOfEra := z - era * 146097;
    var yearOfEra := YearOfEra(dayOfEra);
    var dayOfYear := DayOfYear(dayOfEra, yearOfEra);
    EraIsTheDate(era, dayOfEra, yearOfEra, dayOfYear);
    FromMarch(yearOfEra + era * 400, dayOfYear)
  }

  lemma EraIsFloor(z: int)
    ensures 0 <= z - Era(z) * 146097 < 146097
  {
  }

  lemma LargerMultiple(b: int, p: int, q: int)
    requires b > 0 && p < q
    ensures b * p + b <= b * q
  {
    assert b * (p + 1) <= b * q;
  }

  lemma QuotientIs(a: int, b: int, q: int)
    requires b > 0 && b * q <= a < b * q + b
    ensures a / b == q && a % b == a - b * q
  {
    var p := a / b;
    assert b * p <= a < b * p + b;
    if p < q {
      LargerMultiple(b, p, q);
    } else if q < p {
      LargerMultiple(b, q, p);
    }
  }

  /** Every day of a 400-year era, split into century, four-year cycle, year
      and day, with the short last cycle of a century and of the era. */
  lemma SplitDayOfEra(dayOfEra: nat) returns (c: int, q: int, r: int, d: int)
    requires dayOfEra < 146097
    ensures dayOfEra == 36524 * c + 1461 * q + 365 * r + d
    ensures 0 <= c < 4 && 0 <= q < 25 && 0 <= r < 4 && 0 <= d <= 365
    ensures d == 365 ==> r == 3 && (q < 24 || c == 3)
  {
    c := if dayOfEra / 36524 == 4 then 3 else dayOfEra / 36524;
    var inCentury := dayOfEra - 36524 * c;
    q := inCentury / 1461;
    var inCycle := inCentury - 1461 * q;
    r := if inCycle / 365 == 4 then 3 else inCycle / 365;
    d := inCycle - 365 * r;
  }

  lemma YearOfEraIs(c: int, q: int, r: int, d: int)
    requires 0 <= c < 4 && 0 <= q < 25 && 0 <= r < 4 && 0 <= d <= 365
    requires d == 365 ==> r == 3 && (q < 24 || c == 3)
    ensures YearOfEra(36524 * c + 1461 * q + 365 * r + d) == 100 * c + 4 * q + r
  {
    var dayOfEra := 36524 * c + 1461 * q + 365 * r + d;
    var last := if c == 3 && q == 24 && r == 3 && d == 365 then 1 else 0;
    QuotientIs(dayOfEra, 36524, c + last);
    QuotientIs(dayOfEra, 146096, last);
    var e := if 24 * c + q + 365 * r + d >= 1460 then 1 else 0;
    QuotientIs(dayOfEra, 1460, 25 * c + q + e);
    QuotientIs(365 * (100 * c + 4 * q + r) + d - e, 365, 100 * c + 4 * q + r);
  }

  lemma DayOfYearIs(c: int, q: int, r: int, d: int)
    requires 0 <= c < 4 && 0 <= q < 25 && 0 <= r < 4 && 0 <= d
    ensures DayOfYear(36524 * c + 1461 * q + 365 * r + d, 100 * c + 4 * q + r) == d
  {
    var y := 100 * c + 4 * q + r;
    QuotientIs(y, 4, 25 * c + q);
    QuotientIs(y, 100, c);
  }

  // -- the spec counts days --------------------------------------------------

  lemma DaysBeforeMonthTable(year: int)
    ensures var leap := if IsLeap(year) then 1 else 0;
            && DaysBeforeMonth(year, 1) == 0
            && DaysBeforeMonth(year, 2) == 31
            && DaysBeforeMonth(year, 3) == 59 + leap
            && DaysBeforeMonth(year, 4) == 90 + leap
            && DaysBeforeMonth(year, 5) == 120 + leap
            && DaysBeforeMonth(year, 6) == 151 + leap
            && DaysBeforeMonth(year, 7) == 181 + leap
            && DaysBeforeMonth(year, 8) == 212 + leap
            && DaysBeforeMonth(year, 9) == 243 + leap
            && DaysBeforeMonth(year, 10) == 273 + leap
            && DaysBeforeMonth(year, 11) == 304 + leap
            && DaysBeforeMonth(year, 12) == 334 + leap
  {
    var leap := if IsLeap(year) then 1 else 0;
    assert DaysBeforeMonth(year, 2) == 31;
    assert DaysBeforeMonth(year, 3) == 59 + leap;
    assert DaysBeforeMonth(year, 4) == 90 + leap;
    assert DaysBeforeMonth(year, 5) == 120 + leap;
    assert DaysBeforeMonth(year, 6) == 151 + leap;
    assert DaysBeforeMonth(year, 7) == 181 + leap;
    assert DaysBeforeMonth(year, 8) == 212 + leap;
    assert DaysBeforeMonth(year, 9) == 243 + leap;
    assert DaysBeforeMonth(year, 10) == 273 + leap;
    assert DaysBeforeMonth(year, 11) == 304 + leap;
  }

  lemma MultiplesNest(year: int)
    ensures year % 400 == 0 ==> year % 100 == 0
    ensures year % 100 == 0 ==> year % 4 == 0
  {
    if year % 400 == 0 {
      QuotientIs(year, 100, 4 * (year / 400));
    }
    if year % 100 == 0 {
      QuotientIs(year, 4, 25 * (year / 100));
    }
  }

  lemma LeapYearsStep(year: int)
    ensures LeapYearsThrough(year) == LeapYearsThrough(year - 1) + if IsLeap(year) then 1 else 0
  {
    MultiplesNest(year);
    assert year / 4 - (year - 1) / 4 == if year % 4 == 0 then 1 else 0;
    assert year / 100 - (year - 1) / 100 == if year % 100 == 0 then 1 else 0;
    assert year / 400 - (year - 1) / 400 == if year % 400 == 0 then 1 else 0;
  }

  /** The specification gives consecutive days consecutive numbers. */
  lemma SuccessorIsNextDay(date: Date)
    requires Valid(date)
    ensures Valid(Successor(date))
    ensures DaysFromCivil(Successor(date)) == DaysFromCivil(date) + 1
  {
    DaysBeforeMonthTable(date.year);
    LeapYearsStep(date.year);
  }

  lemma YearBounds(date: Date)
    requires Valid(date)
    ensures var start := 365 * (date.year - 1970) + LeapYearsThrough(date.year - 1) - LeapYearsThrough(1969);
            start <= DaysFromCivil(date) < start + 365 + if IsLeap(date.year) then 1 else 0
  {
    DaysBeforeMonthTable(date.year);
  }

  lemma {:induction false} LaterYearStartsLater(year: int, later: int)
    requires year <= later
    ensures 365 * year + LeapYearsThrough(year - 1) <= 365 * later + LeapYearsThrough(later - 1)
    decreases later - year
  {
    if year < later {
      LeapYearsStep(later - 1);
      LaterYearStartsLater(year, later - 1);
    }
  }

  lemma {:induction false} LaterMonthStartsLater(year: int, month: int, later: int)
    requires 1 <= month < later <= 12
    ensures DaysBeforeMonth(year, month) + DaysInMonth(year, month) <= DaysBeforeMonth(year, later)
    decreases later
  {
    if month < later - 1 {
      LaterMonthStartsLater(year, month, later - 1);
    }
  }

  /** Later dates have larger day numbers. */
  lemma DaysFollowDates(a: Date, b: Date)
    requires Valid(a) && Valid(b) && Before(a, b)
    ensures DaysFromCivil(a) < DaysFromCivil(b)
  {
    if a.year < b.year {
      YearBounds(a);
      YearBounds(b);
      LeapYearsStep(a.year);
      LaterYearStartsLater(a.year + 1, b.year);
    } else if a.month < b.month {
      LaterMonthStartsLater(a.year, a.month, b.month);
    }
  }

  // -- the conversion inverts the spec ---------------------------------------

  /** The month of a day counted from March, with the days before it. */
  lemma MonthFromMarch(d: nat, m: int)
    requires d <= 365 && m == (5 * d + 2) / 153
    ensures 0 <= m <= 11 && (153 * m + 2) / 5 <= d && (m < 11 ==> d < (153 * (m + 1) + 2) / 5)
  {
  }

  lemma FromMarchValid(year: int, d: nat, m: int)
    requires d <= 365 && (d == 365 ==> IsLeap(year + 1)) && m == (5 * d + 2) / 153
    ensures Valid(FromMarch(year, d))
  {
    MonthFromMarch(d, m);
  }

  lemma FromMarchCounts(year: int, d: nat, m: int)
    requires d <= 365 && m == (5 * d + 2) / 153
    ensures DaysFromCivil(FromMarch(year, d)) == DaysFromCivil(Date(year, 3, 1)) + d
  {
    MonthFromMarch(d, m);
    DaysBeforeMonthTable(year);
    DaysBeforeMonthTable(year + 1);
    LeapYearsStep(year);
  }

  lemma FromMarchIsValid(year: int, d: nat)
    requires d <= 365 && (d == 365 ==> IsLeap(year + 1))
    ensures Valid(FromMarch(year, d))
    ensures DaysFromCivil(FromMarch(year, d)) == DaysFromCivil(Date(year, 3, 1)) + d
  {
    FromMarchValid(year, d, (5 * d + 2) / 153);
    FromMarchCounts(year, d, (5 * d + 2) / 153);
  }

  lemma MarchOfEra(era: int, y: int)
    requires 0 <= y < 400
    ensures DaysFromCivil(Date(400 * era + y, 3, 1)) == 146097 * era + 365 * y + y / 4 - y / 100 - 719468
  {
    var year := 400 * era + y;
    DaysBeforeMonthTable(year);
    LeapYearsStep(year);
    assert year / 4 == 100 * era + y / 4;
    assert year / 100 == 4 * era + y / 100;
    assert year / 400 == era;
  }

  lemma LeapOfEra(era: int, c: int, q: int)
    requires 0 <= c < 4 && 0 <= q < 25 && (q < 24 || c == 3)
    ensures IsLeap(400 * era + 100 * c + 4 * q + 4)
  {
    var year := 400 * era + 100 * c + 4 * q + 4;
    QuotientIs(year, 4, 100 * era + 25 * c + q + 1);
    if q < 24 {
      QuotientIs(year, 100, 4 * era + c);
    } else {
      QuotientIs(year, 400, era + 1);
    }
  }

  lemma EraDateIsTheDate(era: int, year: int, c: int, q: int, r: int, d: nat)
    requires 0 <= c < 4 && 0 <= q < 25 && 0 <= r < 4 && d <= 365
    requires d == 365 ==> r == 3 && (q < 24 || c == 3)
    requires year == 100 * c + 4 * q + r + era * 400
    ensures Valid(FromMarch(year, d))
    ensures DaysFromCivil(FromMarch(year, d)) == 146097 * era + 36524 * c + 1461 * q + 365 * r + d - 719468
  {
    var y := 100 * c + 4 * q + r;
    if d == 365 {
      LeapOfEra(era, c, q);
    }
    FromMarchIsValid(year, d);
    MarchOfEra(era, y);
    QuotientIs(y, 4, 25 * c + q);
    QuotientIs(y, 100, c);
  }

  /** A day of an era converts to the date that has its day number. */
  lemma EraIsTheDate(era: int, dayOfEra: nat, yearOfEra: int, d: int)
    requires dayOfEra < 146097 && yearOfEra == YearOfEra(dayOfEra) && d == DayOfYear(dayOfEra, yearOfEra)
    ensures d >= 0 && Valid(FromMarch(yearOfEra + era * 400, d))
    ensures DaysFromCivil(FromMarch(yearOfEra + era * 400, d)) == 146097 * era + dayOfEra - 719468
  {
    var c, q, r, e := SplitDayOfEra(dayOfEra);
    YearOfEraIs(c, q, r, e);
    DayOfYearIs(c, q, r, e);
    EraDateIsTheDate(era, yearOfEra + era * 400, c, q, r, e);
  }

  /** Day numbers and calendar dates determine each other. */
  lemma DateIsTheCivil(days: int, date: Date)
    ensures CivilFromDays(days) == date <==> Valid(date) && DaysFromCivil(date) == days
  {
    var other := CivilFromDays(days);
    if Valid(date) {
      if Before(other, date) {
        DaysFollowDates(other, date);
      } else if Before(date, other) {
        DaysFollowDates(date, other);
      }
    }
  }

  /** The epoch has day number 0, so day 0 converts to it. */
  lemma EpochIsDayZero(epoch: Date)
    requires epoch == Date(1970, 1, 1)
    ensures DaysFromCivil(epoch) == 0
  {
  }

  /** The next day's date is the date's successor in the calendar. */
  lemma CivilFollowsTheCalendar(days: int)
    ensures CivilFromDays(days + 1) == Successor(CivilFromDays(days))
  {
    var today := CivilFromDays(days);
    SuccessorIsNextDay(today);
    DateIsTheCivil(days + 1, Successor(today));
  }

  lemma DatesFollowDays(a: Date, b: Date)
    requires Valid(a) && Valid(b) && DaysFromCivil(a) < DaysFromCivil(b)
    ensures Before(a, b)
  {
    if Before(b, a) {
      DaysFollowDates(b, a);
    }
  }

  lemma CivilIsMonotone(a: int, b: int)
    requires a < b
    ensures Before(CivilFromDays(a), CivilFromDays(b))
  {
    DatesFollowDays(CivilFromDays(a), CivilFromDays(b));
  }

  // -- timestamps ------------------------------------------------------------

  datatype Timestamp = Timestamp(date: Date, hour: int, minute: int, second: int, millis: int)

  function TimestampOf(unixMs: nat): Timestamp {
    var seconds := unixMs / 1000;
    var secondOfDay := seconds % 86400;
    Timestamp(CivilFromDays(seconds / 86400), secondOfDay / 3600, (secondOfDay % 3600) / 60, secondOfDay % 60,
              unixMs % 1000)
  }

  ghost predicate Earlier(a: Timestamp, b: Timestamp) {
    || Before(a.date, b.date)
    || (a.date == b.date && a.hour < b.hour)
    || (a.date == b.date && a.hour == b.hour && a.minute < b.minute)
    || (a.date == b.date && a.hour == b.hour && a.minute == b.minute && a.second < b.second)
    || (a.date == b.date && a.hour == b.hour && a.minute == b.minute && a.second == b.second && a.millis < b.millis)
  }

  ghost predicate InRange(t: Timestamp) {
    && Valid(t.date)
    && 0 <= t.hour < 24 && 0 <= t.minute < 60 && 0 <= t.second < 60 && 0 <= t.millis < 1000
  }

  lemma TimestampInRange(unixMs: nat)
    ensures InRange(TimestampOf(unixMs))
  {
  }

  lemma EarlierIsStrict(a: Timestamp, b: Timestamp)
    ensures Earlier(a, b) ==> !Earlier(b, a) && a != b
  {
  }

  /** Quotients keep an order, and equal quotients leave it to remainders. */
  lemma DigitsOrder(p: nat, q: nat, b: nat)
    requires b > 0 && p < q
    ensures p / b <= q / b
    ensures p / b == q / b ==> p % b < q % b
  {
    var d, e := p / b, q / b;
    assert p == b * d + p % b && q == b * e + q % b;
    if e < d {
      LargerMultiple(b, e, d);
    }
  }

  lemma SecondOfMinute(x: nat)
    ensures x % 3600 % 60 == x % 60
  {
    var h, u := x / 3600, x % 3600;
    QuotientIs(x, 60, 60 * h + u / 60);
  }

  /** Seconds of a day order by hour, then minute, then second. */
  lemma SecondsOrder(x: nat, y: nat)
    requires x < y
    ensures x / 3600 <= y / 3600
    ensures x / 3600 == y / 3600 ==> x % 3600 / 60 <= y % 3600 / 60
    ensures x / 3600 == y / 3600 && x % 3600 / 60 == y % 3600 / 60 ==> x % 60 < y % 60
  {
    DigitsOrder(x, y, 3600);
    if x / 3600 == y / 3600 {
      DigitsOrder(x % 3600, y % 3600, 60);
      SecondOfMinute(x);
      SecondOfMinute(y);
    }
  }

  /** Times of one day order by the clock, and times of one second by their
      milliseconds. */
  lemma ClockIsMonotone(a: nat, b: nat)
    requires a < b && a / 1000 / 86400 == b / 1000 / 86400
    ensures Earlier(TimestampOf(a), TimestampOf(b))
  {
    DigitsOrder(a, b, 1000);
    var s, t := a / 1000, b / 1000;
    if s < t {
      DigitsOrder(s, t, 86400);
      SecondsOrder(s % 86400, t % 86400);
    }
  }

  /** The fields keep the order of time, and so never repeat. */
  lemma TimestampKeepsOrder(a: nat, b: nat)
    ensures a < b <==> Earlier(TimestampOf(a), TimestampOf(b))
    ensures a == b <==> TimestampOf(a) == TimestampOf(b)
  {
    EarlierIsStrict(TimestampOf(a), TimestampOf(b));
    EarlierIsStrict(TimestampOf(b), TimestampOf(a));
    if a < b {
      TimestampIsMonotone(a, b);
    } else if b < a {
      TimestampIsMonotone(b, a);
    }
  }

  lemma TimestampIsMonotone(a: nat, b: nat)
    requires a < b
    ensures Earlier(TimestampOf(a), TimestampOf(b))
  {
    var m, n := a / 1000 / 86400, b / 1000 / 86400;
    assert m <= n;
    if m < n {
      CivilIsMonotone(m, n);
    } else {
      ClockIsMonotone(a, b);
    }
  }
}
