/** The proleptic Gregorian calendar from 1970, and the closed-form conversion from a day
    number to a date. The reference is a day count that adds up year and month lengths one
    by one; the conversion is proved to be its exact inverse. */
module Calendar {
  import opened Arithmetic

  datatype Date = Date(year: int, month: int, day: int)

  // ----- Reference calendar

  predicate IsLeap(y: int) {
    y % 4 == 0 && (y % 100 != 0 || y % 400 == 0)
  }

  function YearLength(y: int): int {
    if IsLeap(y) then 366 else 365
  }

  function MonthLength(y: int, m: int): int {
    if m == 2 then (if IsLeap(y) then 29 else 28)
    else if m == 4 || m == 6 || m == 9 || m == 11 then 30
    else 31
  }

  predicate ValidDate(d: Date) {
    1970 <= d.year && 1 <= d.month <= 12 && 1 <= d.day <= MonthLength(d.year, d.month)
  }

  /** Days from 1970-01-01 to January 1st of `y`, one year at a time. */
  function DaysBeforeYear(y: int): int
    requires 1970 <= y
  {
    if y == 1970 then 0 else DaysBeforeYear(y - 1) + YearLength(y - 1)
  }

  /** Days from January 1st to the first of month `m`, one month at a time. */
  function DaysBeforeMonth(y: int, m: int): int
    requires 1 <= m
  {
    if m == 1 then 0 else DaysBeforeMonth(y, m - 1) + MonthLength(y, m - 1)
  }

  function DayNumber(d: Date): int
    requires ValidDate(d)
  {
    DaysBeforeYear(d.year) + DaysBeforeMonth(d.year, d.month) + d.day - 1
  }

  predicate Earlier(a: Date, b: Date) {
    || a.year < b.year
    || (a.year == b.year && a.month < b.month)
    || (a.year == b.year && a.month == b.month && a.day < b.day)
  }

  // ----- The conversion

  /** Year of the 400-year era that day `doe` of the era falls in; years begin on March 1st. */
  function YearOfEra(doe: int): int {
    (doe - doe / 1460 + doe / 36524 - doe / 146096) / 365
  }

  /** Date of the day `days` after 1970-01-01. */
  function DaysToYmd(days: nat): Date {
    var z := days + 719468;
    var era := z / 146097;
    var doe := z - era * 146097;
    var yoe := YearOfEra(doe);
    var y := yoe + era * 400;
    var doy := doe - (365 * yoe + yoe / 4 - yoe / 100);
    var mp := (5 * doy + 2) / 153;
    var d := doy - (153 * mp + 2) / 5 + 1;
    var m := if mp < 10 then mp + 3 else mp - 9;
    Date(if m <= 2 then y + 1 else y, m, d)
  }

  // ----- Closed forms of the reference

  lemma {:induction false} DaysBeforeYearClosed(y: int)
    requires 1970 <= y
    ensures DaysBeforeYear(y) == 365 * y + (y - 1) / 4 - (y - 1) / 100 + (y - 1) / 400 - 719527
    decreases y
  {
    if y != 1970 {
      DaysBeforeYearClosed(y - 1);
      LeapCount(y - 1);
    }
  }

  lemma {:induction false} FloorStep(y: int, n: int)
    requires 0 < y && 2 <= n
    ensures y / n == (y - 1) / n + (if y % n == 0 then 1 else 0)
  {
    var q, r := y / n, y % n;
    assert y == n * q + r;
    if r == 0 {
      assert y - 1 == n * (q - 1) + (n - 1);
      QuotientUnique(y - 1, n, q - 1, n - 1);
    } else {
      QuotientUnique(y - 1, n, q, r - 1);
    }
  }

  lemma {:induction false} LeapCount(y: int)
    requires 1969 <= y
    ensures y / 4 - y / 100 + y / 400
            == (y - 1) / 4 - (y - 1) / 100 + (y - 1) / 400 + (if IsLeap(y) then 1 else 0)
  {
    FloorStep(y, 4);
    FloorStep(y, 100);
    FloorStep(y, 400);
    assert y % 400 == 0 ==> y % 100 == 0;
    assert y % 100 == 0 ==> y % 4 == 0;
  }

  lemma {:induction false} DaysBeforeMonthClosed(y: int, m: int)
    requires 1 <= m <= 12
    ensures m <= 2 ==> DaysBeforeMonth(y, m) == 31 * (m - 1)
    ensures 3 <= m ==>
              DaysBeforeMonth(y, m)
              == 59 + (if IsLeap(y) then 1 else 0) + (153 * (m - 3) + 2) / 5
    decreases m
  {
    if m > 1 { DaysBeforeMonthClosed(y, m - 1); }
  }

  function EraDays(k: int): int {
    365 * k + k / 4 - k / 100
  }

  /** The conversion's year guess is exact: `doe` lies inside year `YearOfEra(doe)`. */
  lemma {:induction false} YearOfEraBounds(doe: int)
    requires 0 <= doe < 146097
    ensures var k := YearOfEra(doe);
            && 0 <= k < 400
            && 0 <= doe - EraDays(k) <= 365
            && (doe - EraDays(k) == 365 ==> IsLeap(k + 1))
  {
    if doe < 146096 {
      var c := doe / 36524;
      var r := doe - 36524 * c;
      var p := (24 * c + r) / 1460;
      var j := (r - p) / 365;
      YearWithinCentury(c, r, p, j, j / 4);
      YearOfEraGuess(doe, c, r, p, j);
      EraDaysWithinCentury(c, j);
    }
  }

  lemma {:induction false} YearOfEraGuess(doe: int, c: int, r: int, p: int, j: int)
    requires 0 <= doe < 146096 && doe == 36524 * c + r && 0 <= r < 36524
    requires 0 <= 24 * c + r - 1460 * p < 1460
    requires 0 <= r - p - 365 * j < 365
    ensures YearOfEra(doe) == 100 * c + j
  {
    QuotientUnique(doe, 1460, 25 * c + p, 24 * c + r - 1460 * p);
    QuotientUnique(doe, 36524, c, r);
    QuotientUnique(doe - doe / 1460 + c, 365, 100 * c + j, r - p - 365 * j);
  }

  lemma {:induction false} EraDaysWithinCentury(c: int, j: int)
    requires 0 <= c <= 3 && 0 <= j < 100
    ensures EraDays(100 * c + j) == 36524 * c + 365 * j + j / 4
    ensures j % 4 == 3 && j != 99 ==> IsLeap(100 * c + j + 1)
  {
    var k := 100 * c + j;
    QuotientUnique(k, 4, 25 * c + j / 4, j % 4);
    QuotientUnique(k, 100, c, j);
    if j % 4 == 3 && j != 99 {
      QuotientUnique(k + 1, 4, 25 * c + j / 4 + 1, 0);
      QuotientUnique(k + 1, 100, c, j + 1);
    }
  }

  lemma {:induction false} YearWithinCentury(c: int, r: int, p: int, j: int, i: int)
    requires 0 <= c <= 3 && 0 <= r < 36524
    requires 0 <= 24 * c + r - 1460 * p < 1460
    requires 0 <= r - p - 365 * j < 365
    requires 0 <= j - 4 * i < 4
    ensures 0 <= j < 100
    ensures 0 <= r - 365 * j - i <= 365
    ensures r - 365 * j - i == 365 ==> j - 4 * i == 3 && j != 99
  {
    var e := r - p - 365 * j;
    var t := j - 4 * i;
    assert 1459 * p <= 24 * c + 1460 * i + 365 * t + e < 1459 * p + 1460;
    assert i <= p <= i + 1;
  }

  // ----- The conversion is the inverse of the reference

  lemma {:induction false} DaysToYmdDecomposition(days: nat) returns (era: int, yoe: int, doy: int)
    ensures 0 <= yoe < 400 && 0 <= doy <= 365 && 4 <= era
    ensures doy == 365 ==> IsLeap(yoe + 1)
    ensures days + 719468 == era * 146097 + EraDays(yoe) + doy
    ensures var mp := (5 * doy + 2) / 153;
            var m := if mp < 10 then mp + 3 else mp - 9;
            var y := yoe + era * 400;
            DaysToYmd(days) == Date(if m <= 2 then y + 1 else y, m, doy - (153 * mp + 2) / 5 + 1)
  {
    var z := days + 719468;
    era := z / 146097;
    var doe := z - era * 146097;
    YearOfEraBounds(doe);
    yoe := YearOfEra(doe);
    doy := doe - EraDays(yoe);
  }

  /** Day `doy` of a March-based year falls on day `d` of its month `mp`. */
  lemma {:induction false} MonthOfDay(doy: int, mp: int, d: int)
    requires 0 <= doy <= 365 && mp == (5 * doy + 2) / 153 && d == doy - (153 * mp + 2) / 5 + 1
    ensures 0 <= mp <= 11
    ensures 1 <= d <= 31
    ensures mp == 1 || mp == 3 || mp == 6 || mp == 8 ==> d <= 30
    ensures mp == 11 ==> d <= 29 && (d == 29 ==> doy == 365)
  {
  }

  lemma {:induction false} ShiftByEras(era: int, yoe: int)
    requires 0 <= era && 0 <= yoe < 400
    ensures var y := yoe + era * 400;
            && y / 4 == 100 * era + yoe / 4
            && y / 100 == 4 * era + yoe / 100
            && y / 400 == era
            && (IsLeap(yoe + 1) ==> IsLeap(y + 1))
  {
    var y := yoe + era * 400;
    QuotientUnique(y, 4, 100 * era + yoe / 4, yoe % 4);
    QuotientUnique(y, 100, 4 * era + yoe / 100, yoe % 100);
    QuotientUnique(y, 400, era, yoe);
    var k := yoe + 1;
    QuotientUnique(y + 1, 4, 100 * era + k / 4, k % 4);
    QuotientUnique(y + 1, 100, 4 * era + k / 100, k % 100);
    QuotientUnique(y + 1, 400, era + k / 400, k % 400);
  }

  lemma {:induction false} NotBeforeEpoch(days: nat, era: int, yoe: int, doy: int)
    requires 0 <= yoe < 400 && 0 <= doy <= 365 && 4 <= era
    requires days + 719468 == era * 146097 + EraDays(yoe) + doy
    ensures 1969 <= yoe + era * 400
    ensures yoe + era * 400 == 1969 ==> 306 <= doy
  {
    if era == 4 && yoe <= 369 {
      assert yoe / 4 <= 92;
      assert yoe / 100 <= 3;
      assert yoe <= 299 ==> EraDays(yoe) <= 365 * 299 + 74;
      assert yoe >= 300 ==> yoe / 100 == 3;
    }
  }

  /** March to December: the date stays in the year its March-based year began in. */
  lemma {:induction false} MarchOnwards(era: int, yoe: int, mp: int, d: int)
    requires 4 <= era && 0 <= yoe < 400 && 1970 <= yoe + era * 400 && 0 <= mp < 10
    ensures var y := yoe + era * 400;
            DaysBeforeYear(y) + DaysBeforeMonth(y, mp + 3) + d - 1
            == era * 146097 + EraDays(yoe) + (153 * mp + 2) / 5 + d - 1 - 719468
  {
    var y := yoe + era * 400;
    ShiftByEras(era, yoe);
    DaysBeforeYearClosed(y);
    DaysBeforeMonthClosed(y, mp + 3);
    LeapCount(y);
  }

  /** January and February: the date is in the following calendar year. */
  lemma {:induction false} JanuaryFebruary(era: int, yoe: int, mp: int, d: int)
    requires 4 <= era && 0 <= yoe < 400 && 1969 <= yoe + era * 400 && 10 <= mp <= 11
    ensures var y := yoe + era * 400 + 1;
            DaysBeforeYear(y) + DaysBeforeMonth(y, mp - 9) + d - 1
            == era * 146097 + EraDays(yoe) + (153 * mp + 2) / 5 + d - 1 - 719468
  {
    var y := yoe + era * 400;
    ShiftByEras(era, yoe);
    DaysBeforeYearClosed(y + 1);
    DaysBeforeMonthClosed(y + 1, mp - 9);
  }

  /** Every day number converts to a valid date whose counted day number is that number. */
  lemma {:induction false} DaysToYmdCorrect(days: nat)
    ensures ValidDate(DaysToYmd(days))
    ensures DayNumber(DaysToYmd(days)) == days
  {
    var era, yoe, doy := DaysToYmdDecomposition(days);
    var date := DaysToYmd(days);
    var mp := (5 * doy + 2) / 153;
    MonthOfDay(doy, mp, date.day);
    NotBeforeEpoch(days, era, yoe, doy);
    if mp < 10 {
      MarchOnwards(era, yoe, mp, date.day);
    } else {
      ShiftByEras(era, yoe);
      JanuaryFebruary(era, yoe, mp, date.day);
    }
  }

  lemma {:induction false} DaysBeforeYearMonotonic(y: int, y': int)
    requires 1970 <= y <= y'
    ensures DaysBeforeYear(y) <= DaysBeforeYear(y')
    decreases y'
  {
    if y < y' { DaysBeforeYearMonotonic(y, y' - 1); }
  }

  lemma {:induction false} DaysBeforeMonthMonotonic(y: int, m: int, m': int)
    requires 1 <= m <= m'
    ensures DaysBeforeMonth(y, m) <= DaysBeforeMonth(y, m')
    decreases m'
  {
    if m < m' { DaysBeforeMonthMonotonic(y, m, m' - 1); }
  }

  lemma {:induction false} WithinYear(d: Date)
    requires ValidDate(d)
    ensures 0 <= DaysBeforeMonth(d.year, d.month) + d.day - 1 < YearLength(d.year)
  {
    DaysBeforeMonthClosed(d.year, d.month);
  }

  /** The day count orders dates as the calendar does. */
  lemma {:induction false} DayNumberStrictlyMonotonic(a: Date, b: Date)
    requires ValidDate(a) && ValidDate(b)
    ensures Earlier(a, b) <==> DayNumber(a) < DayNumber(b)
  {
    if Earlier(a, b) {
      EarlierCountsLess(a, b);
    } else if Earlier(b, a) {
      EarlierCountsLess(b, a);
    }
  }

  lemma {:induction false} EarlierCountsLess(a: Date, b: Date)
    requires ValidDate(a) && ValidDate(b) && Earlier(a, b)
    ensures DayNumber(a) < DayNumber(b)
  {
    if a.year < b.year {
      DaysBeforeYearMonotonic(a.year + 1, b.year);
      WithinYear(a);
      WithinYear(b);
    } else if a.month < b.month {
      DaysBeforeMonthMonotonic(a.year, a.month + 1, b.month);
    }
  }

  /** The conversion inverts the count in the other direction too. */
  lemma {:induction false} DaysToYmdInverse(d: Date)
    requires ValidDate(d)
    ensures 0 <= DayNumber(d)
    ensures DaysToYmd(DayNumber(d)) == d
  {
    DaysBeforeYearMonotonic(1970, d.year);
    WithinYear(d);
    var back := DaysToYmd(DayNumber(d));
    DaysToYmdCorrect(DayNumber(d));
    DayNumberStrictlyMonotonic(back, d);
    DayNumberStrictlyMonotonic(d, back);
  }
}
