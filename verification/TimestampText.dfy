/**
  Timestamps as text. RFC 3339, section 5.1, promises that timestamps in one
  zone sort as strings; that holds through year 9999 and no further.
*/
module TimestampText {
  import opened Calendar

  function Digit(n: nat): char
    requires n < 10
  {
    ((('0' as int) + n) as char)
  }

  /** A number in decimal, padded with zeros to a width. */
  function Decimal(n: nat, width: nat): string {
    if n < 10 && width <= 1 then [Digit(n)]
    else Decimal(n / 10, if width == 0 then 0 else width - 1) + [Digit(n % 10)]
  }

  function Clock(t: Timestamp): string
    requires InRange(t)
  {
    "T" + Decimal(t.hour, 2) + ":" + Decimal(t.minute, 2) + ":" + Decimal(t.second, 2) + "." +
    Decimal(t.millis, 3) + "Z"
  }

  /** Year, month and day as fields of four and two digits; a year here is
      never negative, for times are counted from 1970. */
  function DateText(date: Date): string
    requires Valid(date) && date.year >= 0
  {
    assert date.day >= 0;
    Decimal(date.year, 4) + "-" + Decimal(date.month, 2) + "-" + Decimal(date.day, 2)
  }

  lemma YearFromEpoch(days: nat)
    ensures CivilFromDays(days).year >= 1970
  {
    var date := Date(1970, 1, 1);
    EpochIsDayZero(date);
    YearOfDay(days, date);
  }

  lemma YearsFromEpoch(unixMs: nat)
    ensures InRange(TimestampOf(unixMs))
    ensures TimestampOf(unixMs).date.year >= 1970
  {
    TimestampInRange(unixMs);
    YearFromEpoch(unixMs / 1000 / 86400);
  }

  function Rfc3339Millis(unixMs: nat): string {
    YearsFromEpoch(unixMs);
    var t := TimestampOf(unixMs);
    DateText(t.date) + Clock(t)
  }

  // -- string order ----------------------------------------------------------

  ghost predicate Sorts(s: string, t: string)
    decreases |s|
  {
    && t != []
    && (s == [] || s[0] < t[0] || (s[0] == t[0] && Sorts(s[1..], t[1..])))
  }

  lemma {:induction false} SortsByPrefix(s: string, t: string, x: string, y: string)
    requires |s| == |t| && Sorts(s, t)
    ensures Sorts(s + x, t + y)
    decreases |s|
  {
    assert s != [];
    assert (s + x)[1..] == s[1..] + x && (t + y)[1..] == t[1..] + y;
    if s[0] == t[0] {
      SortsByPrefix(s[1..], t[1..], x, y);
    }
  }

  lemma {:induction false} SortsAfterPrefix(s: string, x: string, y: string)
    requires Sorts(x, y)
    ensures Sorts(s + x, s + y)
  {
    if s == [] {
      assert s + x == x && s + y == y;
    } else {
      assert (s + x)[1..] == s[1..] + x && (s + y)[1..] == s[1..] + y;
      SortsAfterPrefix(s[1..], x, y);
    }
  }

  lemma {:induction false} SortsIsStrict(s: string, t: string)
    requires Sorts(s, t)
    ensures !Sorts(t, s)
    decreases |s|
  {
    if s != [] && s[0] == t[0] {
      SortsIsStrict(s[1..], t[1..]);
    }
  }

  function Power10(width: nat): nat {
    if width == 0 then 1 else 10 * Power10(width - 1)
  }

  lemma {:induction false} DecimalWidth(n: nat, width: nat)
    requires width > 0 && n < Power10(width)
    ensures |Decimal(n, width)| == width
  {
    if width > 1 {
      DecimalWidth(n / 10, width - 1);
    }
  }

  /** Numbers that fit a width sort as text by value. */
  lemma {:induction false} DecimalSorts(a: nat, b: nat, width: nat)
    requires width > 0 && a < b < Power10(width)
    ensures |Decimal(a, width)| == width == |Decimal(b, width)|
    ensures Sorts(Decimal(a, width), Decimal(b, width))
  {
    DecimalWidth(a, width);
    DecimalWidth(b, width);
    if width > 1 {
      DecimalWidth(a / 10, width - 1);
      DecimalWidth(b / 10, width - 1);
      var x, y := Decimal(a / 10, width - 1), Decimal(b / 10, width - 1);
      if a / 10 < b / 10 {
        DecimalSorts(a / 10, b / 10, width - 1);
        SortsByPrefix(x, y, [Digit(a % 10)], [Digit(b % 10)]);
      } else {
        assert a / 10 == b / 10 && a % 10 < b % 10;
        SortsAfterPrefix(x, [Digit(a % 10)], [Digit(b % 10)]);
      }
    }
  }

  /** A field before any tail: an earlier value sorts first whatever follows,
      an equal one leaves it to what follows. */
  lemma FieldSorts(a: nat, b: nat, width: nat, x: string, y: string)
    requires width > 0 && a < Power10(width) && b < Power10(width)
    requires a < b || (a == b && Sorts(x, y))
    ensures Sorts(Decimal(a, width) + x, Decimal(b, width) + y)
  {
    if a < b {
      DecimalSorts(a, b, width);
      SortsByPrefix(Decimal(a, width), Decimal(b, width), x, y);
    } else {
      SortsAfterPrefix(Decimal(a, width), x, y);
    }
  }

  lemma Powers()
    ensures Power10(2) == 100 && Power10(3) == 1000 && Power10(4) == 10000
  {
    assert Power10(1) == 10;
    assert Power10(2) == 100;
    assert Power10(3) == 1000;
  }

  lemma SeparatedSorts(separator: string, x: string, y: string, a: nat, b: nat, width: nat)
    requires width > 0 && a < Power10(width) && b < Power10(width)
    requires a < b || (a == b && Sorts(x, y))
    ensures Sorts(separator + (Decimal(a, width) + x), separator + (Decimal(b, width) + y))
  {
    FieldSorts(a, b, width, x, y);
    SortsAfterPrefix(separator, Decimal(a, width) + x, Decimal(b, width) + y);
  }

  function SecondsText(t: Timestamp): string
    requires InRange(t)
  {
    ":" + (Decimal(t.second, 2) + ("." + (Decimal(t.millis, 3) + "Z")))
  }

  function MinutesText(t: Timestamp): string
    requires InRange(t)
  {
    ":" + (Decimal(t.minute, 2) + SecondsText(t))
  }

  lemma ClockRegroups(t: Timestamp)
    requires InRange(t)
    ensures Clock(t) == "T" + (Decimal(t.hour, 2) + MinutesText(t))
  {
  }

  lemma ClockSorts(a: Timestamp, b: Timestamp)
    requires InRange(a) && InRange(b) && a.date == b.date && Earlier(a, b)
    ensures Sorts(Clock(a), Clock(b))
  {
    Powers();
    ClockRegroups(a);
    ClockRegroups(b);
    if a.hour == b.hour {
      if a.minute == b.minute {
        if a.second == b.second {
          SeparatedSorts(".", "Z", "Z", a.millis, b.millis, 3);
        }
        SeparatedSorts(":", "." + (Decimal(a.millis, 3) + "Z"),
                       "." + (Decimal(b.millis, 3) + "Z"), a.second, b.second, 2);
      }
      SeparatedSorts(":", SecondsText(a), SecondsText(b), a.minute, b.minute, 2);
    }
    SeparatedSorts("T", MinutesText(a), MinutesText(b), a.hour, b.hour, 2);
  }

  lemma DateSorts(a: Date, b: Date, x: string, y: string)
    requires Valid(a) && Valid(b) && 0 <= a.year < 10000 && 0 <= b.year < 10000 && Before(a, b)
    ensures Sorts(DateText(a) + x, DateText(b) + y)
  {
    Powers();
    var da, db := Decimal(a.day, 2) + x, Decimal(b.day, 2) + y;
    var ma, mb := Decimal(a.month, 2) + ("-" + da), Decimal(b.month, 2) + ("-" + db);
    assert DateText(a) + x == Decimal(a.year, 4) + ("-" + ma);
    assert DateText(b) + y == Decimal(b.year, 4) + ("-" + mb);
    if a.year == b.year {
      if a.month == b.month {
        SeparatedSorts("-", x, y, a.day, b.day, 2);
      }
      SeparatedSorts("-", "-" + da, "-" + db, a.month, b.month, 2);
    }
    FieldSorts(a.year, b.year, 4, "-" + ma, "-" + mb);
  }

  /** The first millisecond of year 10000. */
  const YEAR_10000: nat := 253402300800000

  lemma LastFourDigitYear(unixMs: nat)
    ensures TimestampOf(unixMs).date.year < 10000 <==> unixMs < YEAR_10000
  {
    var date := Date(10000, 1, 1);
    FirstDayOf10000(date);
    YearOfDay(unixMs / 1000 / 86400, date);
  }

  /** A year is reached on its first day and not before. */
  lemma YearOfDay(days: int, date: Date)
    requires date.month == 1 && date.day == 1
    ensures CivilFromDays(days).year < date.year <==> days < DaysFromCivil(date)
  {
    var at := CivilFromDays(days);
    if days < DaysFromCivil(date) {
      DatesFollowDays(at, date);
    } else if days > DaysFromCivil(date) {
      DatesFollowDays(date, at);
    } else {
      DateIsTheCivil(DaysFromCivil(date), date);
    }
  }

  /** Timestamps through year 9999 sort as strings exactly as in time. */
  lemma TextKeepsOrder(a: nat, b: nat)
    requires a < YEAR_10000 && b < YEAR_10000
    ensures a < b <==> Sorts(Rfc3339Millis(a), Rfc3339Millis(b))
  {
    if a < b {
      TextIsMonotone(a, b);
    } else if Sorts(Rfc3339Millis(a), Rfc3339Millis(b)) {
      SortsIsStrict(Rfc3339Millis(a), Rfc3339Millis(b));
      if b < a {
        TextIsMonotone(b, a);
      }
    }
  }

  lemma TextIsMonotone(a: nat, b: nat)
    requires a < b < YEAR_10000
    ensures Sorts(Rfc3339Millis(a), Rfc3339Millis(b))
  {
    YearsFromEpoch(a);
    YearsFromEpoch(b);
    LastFourDigitYear(a);
    LastFourDigitYear(b);
    TimestampKeepsOrder(a, b);
    var s, t := TimestampOf(a), TimestampOf(b);
    if s.date == t.date {
      ClockSorts(s, t);
      SortsAfterPrefix(DateText(s.date), Clock(s), Clock(t));
    } else {
      DateSorts(s.date, t.date, Clock(s), Clock(t));
    }
  }

  lemma TextStartsWithYear(unixMs: nat, date: Date)
    requires Valid(date) && 1000 <= date.year < 100000
    requires unixMs / 1000 / 86400 == DaysFromCivil(date)
    ensures Rfc3339Millis(unixMs) != ""
    ensures Rfc3339Millis(unixMs)[0] == Digit(if date.year < 10000 then date.year / 1000 else date.year / 10000)
  {
    YearsFromEpoch(unixMs);
    DateIsTheCivil(DaysFromCivil(date), date);
    assert TimestampOf(unixMs).date == date;
    YearText(date, Clock(TimestampOf(unixMs)));
  }

  lemma YearText(date: Date, x: string)
    requires Valid(date) && 1000 <= date.year < 100000
    ensures DateText(date) + x != ""
    ensures (DateText(date) + x)[0] == Digit(if date.year < 10000 then date.year / 1000 else date.year / 10000)
  {
    if date.year < 10000 {
      FourDigits(date.year);
    } else {
      FiveDigits(date.year);
    }
  }

  lemma LastDayOf9999(date: Date)
    requires date == Date(9999, 12, 31)
    ensures DaysFromCivil(date) == 2932896
  {
    DaysBeforeMonthTable(date.year);
  }

  lemma FirstDayOf10000(date: Date)
    requires date == Date(10000, 1, 1)
    ensures DaysFromCivil(date) == 2932897
  {
  }

  lemma NineBeforeTenThousand(a: nat, b: nat, last: Date, first: Date)
    requires Valid(last) && last.year == 9999 && a / 1000 / 86400 == DaysFromCivil(last)
    requires Valid(first) && first.year == 10000 && b / 1000 / 86400 == DaysFromCivil(first)
    ensures !Sorts(Rfc3339Millis(a), Rfc3339Millis(b))
  {
    TextStartsWithYear(a, last);
    TextStartsWithYear(b, first);
  }

  /** The last text of year 9999 sorts after the first of year 10000. */
  lemma TextTurnsOver(a: nat, b: nat)
    requires a == YEAR_10000 - 1 && b == YEAR_10000
    ensures !Sorts(Rfc3339Millis(a), Rfc3339Millis(b))
  {
    var last, first := Date(9999, 12, 31), Date(10000, 1, 1);
    LastDayOf9999(last);
    FirstDayOf10000(first);
    NineBeforeTenThousand(a, b, last, first);
  }

  lemma FourDigits(n: nat)
    requires 1000 <= n < 10000
    ensures |Decimal(n, 4)| > 0 && Decimal(n, 4)[0] == Digit(n / 1000)
  {
    assert Decimal(n, 4) == Decimal(n / 10, 3) + [Digit(n % 10)];
    assert Decimal(n / 10, 3) == Decimal(n / 10 / 10, 2) + [Digit(n / 10 % 10)];
    assert Decimal(n / 10 / 10, 2) == Decimal(n / 10 / 10 / 10, 1) + [Digit(n / 10 / 10 % 10)];
    assert n / 10 / 10 / 10 == n / 1000;
  }

  lemma FiveDigits(n: nat)
    requires 10000 <= n < 100000
    ensures |Decimal(n, 4)| > 0 && Decimal(n, 4)[0] == Digit(n / 10000)
  {
    assert Decimal(n, 4) == Decimal(n / 10, 3) + [Digit(n % 10)];
    assert Decimal(n / 10, 3) == Decimal(n / 10 / 10, 2) + [Digit(n / 10 % 10)];
    assert Decimal(n / 10 / 10, 2) == Decimal(n / 10 / 10 / 10, 1) + [Digit(n / 10 / 10 % 10)];
    assert Decimal(n / 10 / 10 / 10, 1) == Decimal(n / 10 / 10 / 10 / 10, 0) + [Digit(n / 10 / 10 / 10 % 10)];
    assert n / 10 / 10 / 10 / 10 == n / 10000;
  }

  /** Strings sort as time up to a horizon exactly when the horizon is within
      year 9999. */
  lemma TextOrderHorizon(horizon: nat)
    ensures (forall a: nat, b: nat :: a < b <= horizon ==> Sorts(Rfc3339Millis(a), Rfc3339Millis(b))) <==>
            horizon < YEAR_10000
  {
    if horizon < YEAR_10000 {
      forall a: nat, b: nat | a < b <= horizon ensures Sorts(Rfc3339Millis(a), Rfc3339Millis(b)) {
        TextIsMonotone(a, b);
      }
    } else {
      var a: nat, b: nat := YEAR_10000 - 1, YEAR_10000;
      TextTurnsOver(a, b);
    }
  }
}
