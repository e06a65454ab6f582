/**
 * Three calendar computations that must agree: days_from_civil (kernel/time.c:21-29),
 * the inverse inside unix_to_civil (shell/builtins.c:317-336) and the day-counting
 * loops of fat_datetime_to_unix (fs/fat16.c:568-609).
 *
 * Day numbers count from 1 January 1970 and are not bounded here.
 */
module Calendar {

  datatype Date = Date(year: int, month: int, day: int)

  predicate Leap(y: int) { (y % 4 == 0 && y % 100 != 0) || y % 400 == 0 }

  function MonthDays(y: int, m: int): int
    requires 1 <= m <= 12
  {
    if m == 2 then if Leap(y) then 29 else 28
    else if m == 4 || m == 6 || m == 9 || m == 11 then 30 else 31
  }

  predicate Valid(t: Date) {
    1 <= t.month <= 12 && 1 <= t.day <= MonthDays(t.year, t.month)
  }

  // ---- years that start in March ----

  /** The 400-year era of a March-based year; C division truncates, hence the two cases. */
  function Era(y: int): int { if y >= 0 then y / 400 else -((399 - y) / 400) }

  /** Days before year yoe of an era. */
  function YearStart(yoe: int): int { 365 * yoe + yoe / 4 - yoe / 100 }

  /** Days before month mp (0 is March) of a year. */
  function MonthStart(mp: int): int { (153 * mp + 2) / 5 }

  function MarchMonth(m: int): int { if m > 2 then m - 3 else m + 9 }
  function MarchYear(t: Date): int { if t.month <= 2 then t.year - 1 else t.year }

  /** days_from_civil */
  function DaysFromCivil(t: Date): int
    requires 1 <= t.month <= 12
  {
    var y := MarchYear(t);
    var era := Era(y);
    var yoe := y - era * 400;
    var doy := MonthStart(MarchMonth(t.month)) + t.day - 1;
    era * 146097 + YearStart(yoe) + doy - 719468
  }

  /** The date part of unix_to_civil, of a day number counted from the epoch. */
  function CivilFromDays(days: int): Date {
    var z := days + 719468;
    var era := z / 146097;
    var doe := z - era * 146097;
    var yoe := YearOf(doe);
    var doy := doe - YearStart(yoe);
    var mp := (5 * doy + 2) / 153;
    var day := doy - MonthStart(mp) + 1;
    var month := if mp < 10 then mp + 3 else mp - 9;
    Date(era * 400 + yoe + (if month <= 2 then 1 else 0), month, day)
  }

  function YearOf(doe: int): int { (doe - doe / 1460 + doe / 36524 - doe / 146096) / 365 }

  /** Whether March-based year yoe of an era ends with a 29 February. */
  predicate LongYear(yoe: int) { (yoe + 1) % 4 == 0 && ((yoe + 1) % 100 != 0 || yoe == 399) }

  function YearLength(yoe: int): int { if LongYear(yoe) then 366 else 365 }

  // ---- the year of a day ----

  lemma YearStep(yoe: int)
    requires 0 <= yoe < 400
    ensures YearStart(yoe) + YearLength(yoe) == if yoe == 399 then 146097 else YearStart(yoe + 1)
  {
    hide YearStart, LongYear;
    var c, r := yoe / 100, yoe % 100;
    var q, s := r / 4, r % 4;
    YearParts(c, q, s);
    if s < 3 {
      YearParts(c, q, s + 1);
    } else if q < 24 {
      YearParts(c, q + 1, 0);
    } else if c < 3 {
      YearParts(c + 1, 0, 0);
    }
  }

  /** A day of the era falls in exactly the year unix_to_civil computes. */
  lemma YearOfDay(yoe: int, doy: int)
    requires 0 <= yoe < 400 && 0 <= doy < YearLength(yoe)
    ensures YearOf(YearStart(yoe) + doy) == yoe
  {
    var c, r := yoe / 100, yoe % 100;
    var q, s := r / 4, r % 4;
    assert yoe == 100 * c + 4 * q + s && 0 <= c < 4 && 0 <= q < 25 && 0 <= s < 4;
    YearParts(c, q, s);
    var doe := YearStart(yoe) + doy;
    assert doe == 36524 * c + 1461 * q + 365 * s + doy;
    DayParts(c, q, s, doy);
  }

  lemma YearParts(c: int, q: int, s: int)
    requires 0 <= c < 4 && 0 <= q < 25 && 0 <= s < 4
    ensures var yoe := 100 * c + 4 * q + s;
            YearStart(yoe) == 36524 * c + 1461 * q + 365 * s && (LongYear(yoe) <==> s == 3 && (q != 24 || c == 3))
  {
  }

  lemma DayParts(c: int, q: int, s: int, doy: int)
    requires 0 <= c < 4 && 0 <= q < 25 && 0 <= s < 4 && 0 <= doy <= 365
             && (doy == 365 ==> s == 3 && (q != 24 || c == 3))
    ensures YearOf(36524 * c + 1461 * q + 365 * s + doy) == 100 * c + 4 * q + s
  {
    var doe := 36524 * c + 1461 * q + 365 * s + doy;
    var e := 24 * c + q + 365 * s + doy;
    var k := if e >= 1460 then 1 else 0;
    assert doe == 1460 * (25 * c + q + k) + (e - 1460 * k);
    Quotient(doe, 1460, 25 * c + q + k);
    Centuries(c, q, s, doy);
    var n := doe - doe / 1460 + (doe / 36524 - doe / 146096);
    assert n == 365 * (100 * c + 4 * q + s) + (doy - k);
    Quotient(n, 365, 100 * c + 4 * q + s);
  }

  lemma Quotient(n: int, w: int, q: int)
    requires w > 0 && w * q <= n < w * q + w
    ensures n / w == q
  {
    var r := n - w * q;
    if n / w > q {
      assert w * (n / w) >= w * (q + 1) by { Grows(w, q + 1, n / w); }
    } else if n / w < q {
      assert w * (n / w + 1) <= w * q by { Grows(w, n / w + 1, q); }
    }
  }

  lemma Grows(w: int, a: int, b: int)
    requires w > 0 && a <= b
    ensures w * a <= w * b
  {
  }

  /** Only the very last day of the era would count a fifth century, and that one is taken back. */
  lemma Centuries(c: int, q: int, s: int, doy: int)
    requires 0 <= c < 4 && 0 <= q < 25 && 0 <= s < 4 && 0 <= doy <= 365
             && (doy == 365 ==> s == 3 && (q != 24 || c == 3))
    ensures var doe := 36524 * c + 1461 * q + 365 * s + doy; doe / 36524 - doe / 146096 == c
  {
    var doe := 36524 * c + 1461 * q + 365 * s + doy;
    var rest := doe - 36524 * c;
    if rest < 36524 {
      Quotient(doe, 36524, c);
      Quotient(doe, 146096, 0);
    } else {
      assert rest == 36524 && c == 3;
    }
  }

  // ---- the two conversions are inverse ----

  /** Within a year: month and day of month. */
  lemma MonthOfDay(mp: int, d: int)
    requires 0 <= mp < 12
             && 0 <= d < (if mp == 11 then 29 else if mp == 1 || mp == 3 || mp == 6 || mp == 8 then 30 else 31)
    ensures (5 * (MonthStart(mp) + d) + 2) / 153 == mp
  {
  }

  lemma MonthAt(doy: int)
    requires 0 <= doy <= 365
    ensures var mp := (5 * doy + 2) / 153;
            0 <= mp < 12
              && 0 <= doy - MonthStart(mp) < (if mp == 11 then 29 else if mp == 1 || mp == 3 || mp == 6 || mp == 8
              then 30 else 31)
    ensures (5 * doy + 2) / 153 == 11 ==> MonthStart(11) == 337
  {
  }

  lemma EraIs(y: int)
    ensures Era(y) == y / 400
  {
  }

  /** The year in which February ends the March-based year. */
  lemma LongIsLeap(era: int, yoe: int)
    requires 0 <= yoe < 400
    ensures LongYear(yoe) <==> Leap(era * 400 + yoe + 1)
  {
    var n := yoe + 1;
    var y := era * 400 + n;
    Remainder(y, 4, era * 100 + n / 4, n % 4);
    Remainder(y, 100, era * 4 + n / 100, n % 100);
    Remainder(y, 400, era + n / 400, n % 400);
    SameRules(y, n);
  }

  lemma Remainder(n: int, w: int, q: int, r: int)
    requires w > 0 && n == w * q + r && 0 <= r < w
    ensures n % w == r
  {
    Quotient(n, w, q);
  }

  lemma SameRules(y: int, n: int)
    requires 0 < n <= 400 && y % 4 == n % 4 && y % 100 == n % 100 && y % 400 == n % 400
    ensures Leap(y) <==> LongYear(n - 1)
  {
  }

  /** Every valid date of any era comes back from its day number. */
  lemma DateRoundTrip(t: Date)
    requires Valid(t)
    ensures CivilFromDays(DaysFromCivil(t)) == t
  {
    hide YearStart, YearOf, LongYear;
    var y := MarchYear(t);
    EraIs(y);
    var era := Era(y);
    var yoe := y - era * 400;
    assert 0 <= yoe < 400;
    var mp := MarchMonth(t.month);
    var doy := MonthStart(mp) + t.day - 1;
    LongIsLeap(era, yoe);
    DayInYear(t, yoe);
    YearOfDay(yoe, doy);
    YearFits(yoe, doy);
    var doe := YearStart(yoe) + doy;
    Quotient(DaysFromCivil(t) + 719468, 146097, era);
    MonthOfDay(mp, t.day - 1);
  }

  /** A valid date's day of the March-based year lies within that year. */
  lemma DayInYear(t: Date, yoe: int)
    requires Valid(t) && (t.month == 2 ==> (LongYear(yoe) <==> Leap(t.year)))
    ensures 0 <= MonthStart(MarchMonth(t.month)) + t.day - 1 < YearLength(yoe)
    ensures var mp := MarchMonth(t.month);
            0 <= mp < 12
              && 0 <= t.day - 1 < (if mp == 11 then 29 else if mp == 1 || mp == 3 || mp == 6 || mp == 8 then 30 else 31)
  {
    hide LongYear, Leap;
  }

  lemma YearFits(yoe: int, doy: int)
    requires 0 <= yoe < 400 && 0 <= doy < YearLength(yoe)
    ensures 0 <= YearStart(yoe) + doy < 146097
  {
  }

  /** Every day number from 0000-03-01 on is the day number of the date computed from it. */
  lemma DayRoundTrip(days: int)
    requires days >= -719468
    ensures Valid(CivilFromDays(days)) && DaysFromCivil(CivilFromDays(days)) == days
  {
    hide YearStart, YearOf, LongYear, Leap;
    var z := days + 719468;
    var era := z / 146097;
    var doe := z - era * 146097;
    assert 0 <= doe < 146097;
    YearStep(399);
    var yoe, doy := YearExists(doe, 399);
    YearOfDay(yoe, doy);
    MonthAt(doy);
    var t := CivilFromDays(days);
    LongIsLeap(era, yoe);
    EraIs(era * 400 + yoe);
    assert MarchYear(t) == era * 400 + yoe;
    Quotient(era * 400 + yoe, 400, era);
    LastDay(yoe, doy);
  }

  lemma LastDay(yoe: int, doy: int)
    requires 0 <= doy < YearLength(yoe)
    ensures doy == 365 ==> LongYear(yoe)
  {
  }

  /** Some year of the era contains the day. */
  lemma {:induction false} YearExists(doe: int, top: int) returns (yoe: int, doy: int)
    requires 0 <= top < 400 && 0 <= doe < YearStart(top) + YearLength(top)
    ensures 0 <= yoe <= top && 0 <= doy < YearLength(yoe) && doe == YearStart(yoe) + doy
    decreases top
  {
    if doe >= YearStart(top) {
      yoe, doy := top, doe - YearStart(top);
    } else {
      YearStep(top - 1);
      yoe, doy := YearExists(doe, top - 1);
    }
  }

  // ---- counting days by loops ----

  /** Days in the years from 1970 up to but not including y. */
  function YearsDays(y: int): int
    requires y >= 1970
    decreases y
  {
    if y == 1970 then 0 else YearsDays(y - 1) + if Leap(y - 1) then 366 else 365
  }

  /** Days in the months of year y before month m. */
  function MonthsDays(y: int, m: int): int
    requires 1 <= m <= 12
    decreases m
  {
    if m == 1 then 0 else MonthsDays(y, m - 1) + MonthDays(y, m - 1)
  }

  /** The loops of fat_datetime_to_unix (fs/fat16.c:599-605), for a month in range */
  method CountDays(t: Date) returns (days: int)
    requires t.year >= 1970 && 1 <= t.month <= 12
    ensures days == DaysFromCivil(t)
  {
    days := 0;
    var y := 1970;
    while y < t.year
      invariant 1970 <= y <= t.year && days == YearsDays(y)
    {
      days := days + if Leap(y) then 366 else 365;
      y := y + 1;
    }
    var m := 1;
    while m < t.month
      invariant 1 <= m <= t.month && days == YearsDays(t.year) + MonthsDays(t.year, m)
    {
      days := days + MonthDays(t.year, m);
      m := m + 1;
    }
    days := days + t.day - 1;
    CountIsCivil(t);
  }

  lemma CountIsCivil(t: Date)
    requires t.year >= 1970 && 1 <= t.month <= 12
    ensures YearsDays(t.year) + MonthsDays(t.year, t.month) + t.day - 1 == DaysFromCivil(t)
  {
    hide DaysFromCivil;
    NewYear(t.year);
    MonthsFromCivil(t.year, t.month);
    DayShift(t);
  }

  lemma DayShift(t: Date)
    requires 1 <= t.month <= 12
    ensures DaysFromCivil(t) == DaysFromCivil(Date(t.year, t.month, 1)) + t.day - 1
  {
    hide YearStart, Era, MonthStart;
  }

  /** January 1st is as many days after the epoch as the years before it have. */
  lemma {:induction false} NewYear(y: int)
    requires y >= 1970
    ensures DaysFromCivil(Date(y, 1, 1)) == YearsDays(y)
    decreases y
  {
    hide DaysFromCivil;
    if y == 1970 {
      Epoch();
    } else {
      NewYear(y - 1);
      YearApart(y - 1);
    }
  }

  lemma Epoch()
    ensures DaysFromCivil(Date(1970, 1, 1)) == 0
  {
  }

  /** Consecutive new year's days are 365 or 366 days apart. */
  lemma YearApart(y: int)
    ensures DaysFromCivil(Date(y + 1, 1, 1)) == DaysFromCivil(Date(y, 1, 1)) + if Leap(y) then 366 else 365
  {
    hide YearStart, LongYear, Leap;
    EraIs(y - 1);
    EraIs(y);
    var era := Era(y - 1);
    var yoe := (y - 1) - era * 400;
    assert 0 <= yoe < 400;
    LongIsLeap(era, yoe);
    YearStep(yoe);
    if yoe == 399 {
      Quotient(y, 400, era + 1);
      YearZero();
    } else {
      Quotient(y, 400, era);
    }
  }

  lemma YearZero()
    ensures YearStart(0) == 0
  {
  }

  lemma {:induction false} MonthsFromCivil(y: int, m: int)
    requires 1 <= m <= 12
    ensures DaysFromCivil(Date(y, m, 1)) == DaysFromCivil(Date(y, 1, 1)) + MonthsDays(y, m)
    decreases m
  {
    hide DaysFromCivil;
    if m > 1 {
      MonthsFromCivil(y, m - 1);
      MonthApart(y, m - 1);
    }
  }

  lemma MonthApart(y: int, m: int)
    requires 1 <= m < 12
    ensures DaysFromCivil(Date(y, m + 1, 1)) == DaysFromCivil(Date(y, m, 1)) + MonthDays(y, m)
  {
    hide YearStart, LongYear, Leap, Era;
    if m == 2 {
      EraIs(y - 1);
      EraIs(y);
      var era := Era(y - 1);
      var yoe := (y - 1) - era * 400;
      EraRange(y - 1);
      LongIsLeap(era, yoe);
      YearStep(yoe);
      EraNext(y - 1);
      YearZero();
    }
  }

  lemma EraRange(y: int)
    ensures 0 <= y - Era(y) * 400 < 400
  {
  }

  lemma EraNext(y: int)
    ensures Era(y + 1) == if y - Era(y) * 400 == 399 then Era(y) + 1 else Era(y)
  {
  }
}
