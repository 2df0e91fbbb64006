/** The timestamp in an auto-snapshot's file name, and when its lexicographic order is the
    order of time. */
module Timestamp {
  import opened Arithmetic
  import opened Calendar

  /** Byte-wise string order. */
  predicate LexLess(a: string, b: string) {
    b != [] && (a == [] || a[0] < b[0] || (a[0] == b[0] && LexLess(a[1..], b[1..])))
  }

  function Pow10(w: nat): (p: nat)
    ensures p >= 1
  {
    if w == 0 then 1 else 10 * Pow10(w - 1)
  }

  function DigitChar(d: int): char
    requires 0 <= d < 10
  {
    ['0', '1', '2', '3', '4', '5', '6', '7', '8', '9'][d]
  }

  /** The `w` low-order decimal digits of `n`. */
  function Fixed(n: nat, w: nat): (s: string)
    ensures |s| == w
  {
    if w == 0 then [] else Fixed(n / 10, w - 1) + [DigitChar(n % 10)]
  }

  function DigitCount(n: nat): nat {
    if n < 10 then 1 else 1 + DigitCount(n / 10)
  }

  /** `n` in decimal, zero-padded to at least `least` digits. */
  function Padded(n: nat, least: nat): string {
    Fixed(n, if DigitCount(n) < least then least else DigitCount(n))
  }

  datatype Moment = Moment(date: Date, hour: nat, minute: nat, second: nat)

  predicate ValidMoment(m: Moment) {
    ValidDate(m.date) && m.hour < 24 && m.minute < 60 && m.second < 60
  }

  function MomentOf(t: nat): (m: Moment)
    ensures ValidMoment(m)
  {
    DaysToYmdCorrect(t / 86400);
    Moment(DaysToYmd(t / 86400), t / 3600 % 24, t / 60 % 60, t % 60)
  }

  /** `YYYY-MM-DDTHH-MM-SSZ`, with as many digits as the year needs beyond four. */
  function Render(m: Moment): string
    requires ValidMoment(m)
  {
    Padded(m.date.year, 4) + ("-" + (Padded(m.date.month, 2) + ("-" + (Padded(m.date.day, 2) + RenderClock(m)))))
  }

  function RenderClock(m: Moment): string {
    "T" + (Padded(m.hour, 2) + ("-" + (Padded(m.minute, 2) + ("-" + (Padded(m.second, 2) + "Z")))))
  }

  function FormatUtcIsoSafe(t: nat): string {
    Render(MomentOf(t))
  }

  // ----- Lexicographic order

  lemma {:induction false} LexLessAppend(p: string, a: string, b: string)
    ensures LexLess(p + a, p + b) == LexLess(a, b)
  {
    if p == [] {
      assert p + a == a && p + b == b;
    } else {
      LexLessAppend(p[1..], a, b);
      assert (p + a)[1..] == p[1..] + a && (p + b)[1..] == p[1..] + b;
    }
  }

  lemma {:induction false} LexLessTransitive(a: string, b: string, c: string)
    requires LexLess(a, b) && LexLess(b, c)
    ensures LexLess(a, c)
  {
    if a != [] && a[0] == b[0] == c[0] { LexLessTransitive(a[1..], b[1..], c[1..]); }
  }

  lemma {:induction false} LexLessTotal(a: string, b: string)
    ensures LexLess(a, b) || a == b || LexLess(b, a)
  {
    if a != [] && b != [] && a[0] == b[0] {
      LexLessTotal(a[1..], b[1..]);
      assert a == [a[0]] + a[1..] && b == [b[0]] + b[1..];
    }
  }

  lemma {:induction false} LexLessAsymmetric(a: string, b: string)
    ensures !(LexLess(a, b) && LexLess(b, a))
  {
    if a != [] && b != [] { LexLessAsymmetric(a[1..], b[1..]); }
  }

  lemma {:induction false} DigitCharOrder(d: int, e: int, x: string, y: string)
    requires 0 <= d < 10 && 0 <= e < 10
    ensures LexLess([DigitChar(d)] + x, [DigitChar(e)] + y) <==> d < e || (d == e && LexLess(x, y))
  {
    assert ([DigitChar(d)] + x)[1..] == x && ([DigitChar(e)] + y)[1..] == y;
  }

  /** Equal-width numbers order as their values, then by what follows them. */
  lemma {:induction false} FixedOrder(a: nat, b: nat, w: nat, x: string, y: string)
    requires a < Pow10(w) && b < Pow10(w)
    ensures LexLess(Fixed(a, w) + x, Fixed(b, w) + y) <==> a < b || (a == b && LexLess(x, y))
  {
    if w == 0 {
      assert Fixed(a, w) + x == x && Fixed(b, w) + y == y;
    } else {
      var x', y' := [DigitChar(a % 10)] + x, [DigitChar(b % 10)] + y;
      assert Fixed(a, w) + x == Fixed(a / 10, w - 1) + x';
      assert Fixed(b, w) + y == Fixed(b / 10, w - 1) + y';
      FixedOrder(a / 10, b / 10, w - 1, x', y');
      DigitCharOrder(a % 10, b % 10, x, y);
    }
  }

  /** `n` without its `k` low-order digits. */
  function DropDigits(n: nat, k: nat): nat {
    if k == 0 then n else DropDigits(n / 10, k - 1)
  }

  lemma {:induction false} FixedSplit(n: nat, w: nat, k: nat)
    ensures Fixed(n, w + k) == Fixed(DropDigits(n, k), w) + Fixed(n, k)
  {
    if k == 0 {
      assert Fixed(n, w) == Fixed(n, w) + [];
    } else {
      FixedSplit(n / 10, w, k - 1);
    }
  }

  lemma {:induction false} DropDigitsBound(n: nat, w: nat, k: nat)
    requires n < Pow10(w + k)
    ensures DropDigits(n, k) < Pow10(w)
  {
    if k > 0 { DropDigitsBound(n / 10, w, k - 1); }
  }

  lemma {:induction false} DigitCountBounds(n: nat)
    ensures DigitCount(n) >= 1 && n < Pow10(DigitCount(n))
    ensures DigitCount(n) > 1 ==> Pow10(DigitCount(n) - 1) <= n
  {
    if n >= 10 { DigitCountBounds(n / 10); }
  }

  lemma {:induction false} Pow10Monotonic(v: nat, w: nat)
    requires v <= w
    ensures Pow10(v) <= Pow10(w)
  {
    if v < w { Pow10Monotonic(v, w - 1); }
  }

  function YearWidth(y: nat): nat {
    if DigitCount(y) < 4 then 4 else DigitCount(y)
  }

  lemma {:induction false} YearWidthBounds(y: nat)
    ensures 4 <= YearWidth(y) && y < Pow10(YearWidth(y))
    ensures y < 10000 ==> YearWidth(y) == 4
  {
    DigitCountBounds(y);
    Pow10Monotonic(DigitCount(y), YearWidth(y));
    assert Pow10(4) == 10000;
    if y < 10000 && DigitCount(y) > 4 { Pow10Monotonic(4, DigitCount(y) - 1); }
  }

  lemma {:induction false} DigitCountMonotonic(n: nat, m: nat)
    requires n <= m
    ensures DigitCount(n) <= DigitCount(m)
  {
    DigitCountBounds(n);
    DigitCountBounds(m);
    if DigitCount(n) > DigitCount(m) { Pow10Monotonic(DigitCount(m), DigitCount(n) - 1); }
  }

  /** Years of any width: a shorter one sorts first exactly when it is at most the longer
      one's leading digits. */
  lemma {:induction false} YearOrder(y: nat, y': nat, x: string, x': string)
    requires y < y' && |x| > 0 && x[0] == '-'
    ensures YearWidth(y) <= YearWidth(y')
    ensures LexLess(Padded(y, 4) + x, Padded(y', 4) + x')
            <==> y <= DropDigits(y', YearWidth(y') - YearWidth(y))
  {
    DigitCountMonotonic(y, y');
    YearWidthBounds(y);
    YearWidthBounds(y');
    var w, k := YearWidth(y), YearWidth(y') - YearWidth(y);
    if k == 0 {
      FixedOrder(y, y', w, x, x');
    } else {
      ShorterOrder(y, y', w, k, x, x');
    }
  }

  lemma {:induction false} ShorterOrder(a: nat, b: nat, w: nat, k: nat, x: string, y: string)
    requires a < Pow10(w) && b < Pow10(w + k) && 0 < k && |x| > 0 && x[0] < '0'
    ensures LexLess(Fixed(a, w) + x, Fixed(b, w + k) + y) <==> a <= DropDigits(b, k)
  {
    FixedSplit(b, w, k);
    DropDigitsBound(b, w, k);
    FirstDigit(b, k);
    LeadOrder(a, DropDigits(b, k), w, Fixed(b, k), x, y);
  }

  lemma {:induction false} LeadOrder(a: nat, lead: nat, w: nat, more: string, x: string, y: string)
    requires a < Pow10(w) && lead < Pow10(w) && |x| > 0 && x[0] < '0' && |more| > 0 && more[0] >= '0'
    ensures LexLess(Fixed(a, w) + x, Fixed(lead, w) + more + y) <==> a <= lead
  {
    assert Fixed(lead, w) + more + y == Fixed(lead, w) + (more + y);
    FixedOrder(a, lead, w, x, more + y);
    MarkSortsFirst(x, more + y);
  }

  /** Dashes and dots sort before digits. */
  lemma {:induction false} MarkSortsFirst(x: string, y: string)
    requires |x| > 0 && x[0] < '0' && |y| > 0 && y[0] >= '0'
    ensures LexLess(x, y)
  {
  }

  lemma {:induction false} FirstDigit(n: nat, k: nat)
    requires 1 <= k
    ensures Fixed(n, k)[0] >= '0'
  {
    if k > 1 { FirstDigit(n / 10, k - 1); }
  }

  // ----- Order of time

  predicate Before(a: Moment, b: Moment) {
    Earlier(a.date, b.date) || (a.date == b.date && Seconds(a) < Seconds(b))
  }

  function Seconds(m: Moment): nat {
    3600 * m.hour + 60 * m.minute + m.second
  }

  lemma {:induction false} ClockFields(t: nat)
    ensures t == 86400 * (t / 86400) + Seconds(MomentOf(t))
  {
    hide DaysToYmd;
    var m, h := t / 60, t / 60 / 60;
    QuotientUnique(t, 3600, h, 60 * (m % 60) + t % 60);
    QuotientUnique(t, 86400, h / 24, 3600 * (h % 24) + 60 * (m % 60) + t % 60);
  }

  lemma {:induction false} MomentOrder(t: nat, u: nat)
    ensures t < u <==> Before(MomentOf(t), MomentOf(u))
  {
    hide DaysToYmd;
    DaysToYmdCorrect(t / 86400);
    DaysToYmdCorrect(u / 86400);
    ClockFields(t);
    ClockFields(u);
    BeforeCounts(MomentOf(t), MomentOf(u));
  }

  lemma {:induction false} BeforeCounts(a: Moment, b: Moment)
    requires ValidMoment(a) && ValidMoment(b)
    ensures Before(a, b)
            <==> 86400 * DayNumber(a.date) + Seconds(a) < 86400 * DayNumber(b.date) + Seconds(b)
  {
    DayNumberStrictlyMonotonic(a.date, b.date);
    DayNumberStrictlyMonotonic(b.date, a.date);
  }

  lemma {:induction false} TwoDigits(n: nat)
    requires n < 100
    ensures Padded(n, 2) == Fixed(n, 2)
    ensures n < Pow10(2)
  {
    assert n >= 10 ==> DigitCount(n / 10) == 1;
  }

  lemma {:induction false} FieldOrder(a: nat, b: nat, x: string, y: string)
    requires a < 100 && b < 100
    ensures LexLess(Padded(a, 2) + x, Padded(b, 2) + y) <==> a < b || (a == b && LexLess(x, y))
  {
    TwoDigits(a);
    TwoDigits(b);
    FixedOrder(a, b, 2, x, y);
  }

  lemma {:induction false} ClockOrder(a: Moment, b: Moment)
    requires ValidMoment(a) && ValidMoment(b)
    ensures LexLess(RenderClock(a), RenderClock(b)) <==> Seconds(a) < Seconds(b)
  {
    var s, s' := Padded(a.second, 2) + "Z", Padded(b.second, 2) + "Z";
    var m, m' := Padded(a.minute, 2) + ("-" + s), Padded(b.minute, 2) + ("-" + s');
    var h, h' := Padded(a.hour, 2) + ("-" + m), Padded(b.hour, 2) + ("-" + m');
    LexLessAppend("T", h, h');
    FieldOrder(a.hour, b.hour, "-" + m, "-" + m');
    LexLessAppend("-", m, m');
    FieldOrder(a.minute, b.minute, "-" + s, "-" + s');
    LexLessAppend("-", s, s');
    FieldOrder(a.second, b.second, "Z", "Z");
  }

  lemma {:induction false} SameYearOrder(a: Moment, b: Moment)
    requires ValidMoment(a) && ValidMoment(b) && a.date.year == b.date.year
    ensures LexLess(Render(a), Render(b)) <==> Before(a, b)
  {
    var c, c' := RenderClock(a), RenderClock(b);
    var d, d' := Padded(a.date.day, 2) + c, Padded(b.date.day, 2) + c';
    var m, m' := Padded(a.date.month, 2) + ("-" + d), Padded(b.date.month, 2) + ("-" + d');
    LexLessAppend(Padded(a.date.year, 4), "-" + m, "-" + m');
    LexLessAppend("-", m, m');
    FieldOrder(a.date.month, b.date.month, "-" + d, "-" + d');
    LexLessAppend("-", d, d');
    FieldOrder(a.date.day, b.date.day, c, c');
    ClockOrder(a, b);
  }

  lemma {:induction false} RenderOrder(a: Moment, b: Moment)
    requires ValidMoment(a) && ValidMoment(b) && Before(a, b)
    ensures YearWidth(a.date.year) <= YearWidth(b.date.year)
    ensures LexLess(Render(a), Render(b))
            <==> a.date.year <= DropDigits(b.date.year, YearWidth(b.date.year) - YearWidth(a.date.year))
  {
    if a.date.year == b.date.year {
      SameYearOrder(a, b);
    } else {
      YearOrder(a.date.year, b.date.year,
                "-" + (Padded(a.date.month, 2) + ("-" + (Padded(a.date.day, 2) + RenderClock(a)))),
                "-" + (Padded(b.date.month, 2) + ("-" + (Padded(b.date.day, 2) + RenderClock(b)))));
    }
  }

  function YearOf(t: nat): nat {
    MomentOf(t).date.year
  }

  /** Of two times, the earlier one's name sorts first exactly when its year does not exceed
      the leading digits of the later one's year, which every pair up to year 9999 meets. */
  lemma {:induction false} LexicographicIffLeadingYear(t: nat, u: nat)
    requires t < u
    ensures YearWidth(YearOf(t)) <= YearWidth(YearOf(u))
    ensures LexLess(FormatUtcIsoSafe(t), FormatUtcIsoSafe(u))
            <==> YearOf(t) <= DropDigits(YearOf(u), YearWidth(YearOf(u)) - YearWidth(YearOf(t)))
  {
    hide DaysToYmd;
    MomentOrder(t, u);
    RenderOrder(MomentOf(t), MomentOf(u));
  }

  /** The last second of year 9999. */
  const LAST_FOUR_DIGIT_SECOND: nat := 253402300799

  /** Up to year 9999 the order of names is the order of time, in both directions. */
  lemma {:induction false} ChronologyIsLexicographic(t: nat, u: nat)
    requires t <= LAST_FOUR_DIGIT_SECOND && u <= LAST_FOUR_DIGIT_SECOND
    ensures t < u <==> LexLess(FormatUtcIsoSafe(t), FormatUtcIsoSafe(u))
  {
    hide DaysToYmd;
    var a, b := MomentOf(t), MomentOf(u);
    FourDigitYears(t);
    FourDigitYears(u);
    MomentOrder(t, u);
    MomentOrder(u, t);
    RenderInOrder(a, b);
    RenderInOrder(b, a);
    LexLessAsymmetric(Render(a), Render(b));
  }

  lemma {:induction false} FourDigitYears(t: nat)
    ensures t <= LAST_FOUR_DIGIT_SECOND <==> YearOf(t) <= 9999
  {
    hide DaysToYmd;
    var last := YearTenThousand();
    MomentOrder(last, t);
    MomentOrder(t, last);
    MomentOrder(last + 1, t);
    MomentOrder(t, last + 1);
  }

  lemma {:induction false} RenderInOrder(a: Moment, b: Moment)
    requires ValidMoment(a) && ValidMoment(b) && a.date.year <= 9999 && b.date.year <= 9999
    ensures Before(a, b) ==> LexLess(Render(a), Render(b))
  {
    YearWidthBounds(a.date.year);
    YearWidthBounds(b.date.year);
    if Before(a, b) { RenderOrder(a, b); }
  }

  lemma {:induction false} LastFourDigitYear(t: nat, u: nat)
    requires t < u && YearOf(t) == 9999 && YearOf(u) == 10000
    ensures !LexLess(FormatUtcIsoSafe(t), FormatUtcIsoSafe(u))
  {
    hide DaysToYmd;
    YearWidthBounds(9999);
    DigitCountBounds(10000);
    assert DigitCount(10000) == 5;
    LexicographicIffLeadingYear(t, u);
  }

  lemma {:induction false} YearTenThousand() returns (t: nat)
    ensures t == LAST_FOUR_DIGIT_SECOND
    ensures YearOf(t) == 9999 && MomentOf(t + 1) == Moment(Date(10000, 1, 1), 0, 0, 0)
  {
    hide DaysToYmd;
    t := LAST_FOUR_DIGIT_SECOND;
    var y := 9999;
    FirstDayAfter(y);
    DateAtDay(t, 2932896, Date(y, 12, 31));
    DateAtDay(t + 1, 2932897, Date(y + 1, 1, 1));
  }

  /** Year 10000 breaks the order: its first second does not sort after the second before. */
  lemma {:induction false} YearTenThousandOutOfOrder() returns (t: nat)
    ensures t == LAST_FOUR_DIGIT_SECOND
    ensures !LexLess(FormatUtcIsoSafe(t), FormatUtcIsoSafe(t + 1))
  {
    hide DaysToYmd;
    t := YearTenThousand();
    LastFourDigitYear(t, t + 1);
  }

  lemma {:induction false} FirstDayAfter(y: int)
    requires y == 9999
    ensures DayNumber(Date(y, 12, 31)) == 2932896 && DayNumber(Date(y + 1, 1, 1)) == 2932897
  {
    DaysBeforeYearClosed(y);
    DaysBeforeYearClosed(y + 1);
    DaysBeforeMonthClosed(y, 12);
  }

  lemma {:induction false} DateAtDay(t: nat, day: nat, d: Date)
    requires 86400 * day <= t < 86400 * (day + 1)
    requires ValidDate(d) && DayNumber(d) == day
    ensures MomentOf(t).date == d
  {
    hide DaysToYmd;
    QuotientUnique(t, 86400, day, t - 86400 * day);
    DaysToYmdInverse(d);
  }

  // ----- A name reads back to its time

  /** The value of decimal digits. */
  function ReadNumber(s: string): int {
    if s == [] then 0 else 10 * ReadNumber(s[..|s| - 1]) + (s[|s| - 1] as int - '0' as int)
  }

  lemma {:induction false} FixedReads(n: nat, w: nat)
    requires n < Pow10(w)
    ensures ReadNumber(Fixed(n, w)) == n
  {
    if w > 0 {
      FixedReads(n / 10, w - 1);
      var s := Fixed(n, w);
      assert s[..w - 1] == Fixed(n / 10, w - 1);
      assert DigitChar(n % 10) as int == '0' as int + n % 10;
    }
  }

  /** Where the fields of a name stand. */
  lemma {:induction false} FieldsStand(y: string, o: string, d: string, h: string, m: string, s: string)
    requires |o| == 2 && |d| == 2 && |h| == 2 && |m| == 2 && |s| == 2
    ensures var w := |y|;
            var n := y + ("-" + (o + ("-" + (d + ("T" + (h + ("-" + (m + ("-" + (s + "Z"))))))))));
            && |n| == w + 16
            && n[w] == '-' && n[w + 3] == '-' && n[w + 6] == 'T' && n[w + 9] == '-' && n[w + 12] == '-'
            && n[w + 15] == 'Z'
            && n[..w] == y && n[w + 1..w + 3] == o && n[w + 4..w + 6] == d
            && n[w + 7..w + 9] == h && n[w + 10..w + 12] == m && n[w + 13..w + 15] == s
  {
    var c := "T" + (h + ("-" + (m + ("-" + (s + "Z")))));
    assert |c| == 10 && c[0] == 'T' && c[3] == '-' && c[6] == '-' && c[9] == 'Z';
    assert c[1..3] == h && c[4..6] == m && c[7..9] == s;
    var f := "-" + (o + ("-" + (d + c)));
    assert |f| == 16 && f[0] == '-' && f[3] == '-' && f[1..3] == o && f[4..6] == d && f[6..] == c;
    assert f[7..9] == c[1..3] && f[10..12] == c[4..6] && f[13..15] == c[7..9];
    var n, w := y + f, |y|;
    assert n[w + 1..w + 3] == f[1..3] && n[w + 4..w + 6] == f[4..6] && n[w + 7..w + 9] == f[7..9];
    assert n[w + 10..w + 12] == f[10..12] && n[w + 13..w + 15] == f[13..15];
  }

  /** `n` is the time `t`, written in decimal fields with dashes between. */
  predicate ReadsAs(n: string, t: nat) {
    var w := |n| - 16;
    && 4 <= w
    && n[w] == '-' && n[w + 3] == '-' && n[w + 6] == 'T' && n[w + 9] == '-' && n[w + 12] == '-' && n[w + 15] == 'Z'
    && var date := Date(ReadNumber(n[..w]), ReadNumber(n[w + 1..w + 3]), ReadNumber(n[w + 4..w + 6]));
    && ValidDate(date)
    && t == 86400 * DayNumber(date) + 3600 * ReadNumber(n[w + 7..w + 9]) + 60 * ReadNumber(n[w + 10..w + 12])
            + ReadNumber(n[w + 13..w + 15])
  }

  /** Any time reads back from its name: year, month and day before the T, hours, minutes and seconds
      after it, all decimal, with dashes between. */
  lemma {:induction false} NameReadsBack(t: nat)
    ensures ReadsAs(FormatUtcIsoSafe(t), t)
  {
    hide DaysToYmd, Padded, ReadNumber, DayNumber, Fixed;
    var m := MomentOf(t);
    var y := Padded(m.date.year, 4);
    YearReads(m.date.year);
    FieldReads(m.date.month);
    FieldReads(m.date.day);
    FieldReads(m.hour);
    FieldReads(m.minute);
    FieldReads(m.second);
    FieldsStand(y, Padded(m.date.month, 2), Padded(m.date.day, 2), Padded(m.hour, 2), Padded(m.minute, 2),
                Padded(m.second, 2));
    ClockFields(t);
    DaysToYmdCorrect(t / 86400);
  }

  lemma {:induction false} FieldReads(n: nat)
    requires n < 100
    ensures |Padded(n, 2)| == 2 && ReadNumber(Padded(n, 2)) == n
  {
    TwoDigits(n);
    FixedReads(n, 2);
  }

  lemma {:induction false} YearReads(y: nat)
    ensures |Padded(y, 4)| >= 4 && ReadNumber(Padded(y, 4)) == y
  {
    YearWidthBounds(y);
    FixedReads(y, YearWidth(y));
  }

  lemma {:induction false} TwoDigitText(n: nat)
    requires n < 100
    ensures Padded(n, 2) == [DigitChar(n / 10), DigitChar(n % 10)]
  {
    TwoDigits(n);
    assert Fixed(n / 10, 1) == Fixed(n / 10 / 10, 0) + [DigitChar(n / 10)];
  }

  lemma {:induction false} StampOfExample()
    ensures FormatUtcIsoSafe(1779136662)
            == "2026" + ("-" + ("05" + ("-" + ("18" + ("T" + ("20" + ("-" + ("37" + ("-" + ("42" + "Z"))))))))))
  {
    hide MomentOf, Padded;
    var t, m := 1779136662, Moment(Date(2026, 5, 18), 20, 37, 42);
    MomentOfExample(t);
    assert MomentOf(t) == m;
    YearOfExample();
    TwoDigitText(m.date.month);
    TwoDigitText(m.date.day);
    TwoDigitText(m.hour);
    TwoDigitText(m.minute);
    TwoDigitText(m.second);
  }

  lemma {:induction false} DayOfExample(days: nat)
    requires days == 20591
    ensures DaysToYmd(days) == Date(2026, 5, 18)
  {
    hide YearOfEra;
    assert (days + 719468) / 146097 == 5;
    assert YearOfEra(9574) == 26 by { YearOfEraExample(); }
  }

  lemma {:induction false} YearOfEraExample()
    ensures YearOfEra(9574) == 26
  {
  }

  lemma {:induction false} MomentOfExample(t: nat)
    requires t == 1779136662
    ensures MomentOf(t) == Moment(Date(2026, 5, 18), 20, 37, 42)
  {
    hide DaysToYmd;
    DayOfExample(t / 86400);
  }

  lemma {:induction false} FixedSnoc(n: nat, w: nat)
    ensures Fixed(n, w + 1) == Fixed(n / 10, w) + [DigitChar(n % 10)]
  {
  }

  lemma {:induction false} YearOfExample()
    ensures Padded(2026, 4) == "2026"
  {
    hide Fixed, DigitCount;
    YearWidthBounds(2026);
    FixedSnoc(2026, 3);
    FixedSnoc(202, 2);
    FixedSnoc(20, 1);
    FixedSnoc(2, 0);
  }
}
