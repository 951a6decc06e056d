/**
 * Calendar and time-of-day classification: the small total functions the
 * aggregators use to bucket a reading by time of day, a day by season and
 * season-year, and a date by financial year.
 */
module Calendar {

  /** A calendar date, as the program's `date` (proleptic Gregorian). */
  datatype Date = Date(year: int, month: int, day: int)

  /** The start of an interval reading, as the program's `datetime`. */
  datatype Timestamp = Timestamp(date: Date, hour: int, minute: int)

  predicate IsLeapYear(y: int) {
    y % 4 == 0 && (y % 100 != 0 || y % 400 == 0)
  }

  /** Days in a month, `monthrange(year, month)[1]`. */
  function DaysInMonth(year: int, month: int): (n: int)
    requires 1 <= month <= 12
    ensures 28 <= n <= 31
    ensures n == 29 <==> month == 2 && IsLeapYear(year)
    ensures n == 28 <==> month == 2 && !IsLeapYear(year)
  {
    if month == 2 then (if IsLeapYear(year) then 29 else 28)
    else if month in {4, 6, 9, 11} then 30
    else 31
  }

  /** Sum of the month lengths of months 1..m of a year. */
  function DaysBeforeEndOf(year: int, m: int): int
    requires 0 <= m <= 12
  {
    if m == 0 then 0 else DaysBeforeEndOf(year, m - 1) + DaysInMonth(year, m)
  }

  /** The twelve month lengths add up to the Gregorian year length. */
  lemma YearLength(year: int)
    ensures DaysBeforeEndOf(year, 12) == if IsLeapYear(year) then 366 else 365
  {
    assert DaysBeforeEndOf(year, 1) == 31;
    assert DaysBeforeEndOf(year, 2) == 31 + DaysInMonth(year, 2);
    assert DaysBeforeEndOf(year, 3) == DaysBeforeEndOf(year, 2) + 31;
    assert DaysBeforeEndOf(year, 4) == DaysBeforeEndOf(year, 3) + 30;
    assert DaysBeforeEndOf(year, 5) == DaysBeforeEndOf(year, 4) + 31;
    assert DaysBeforeEndOf(year, 6) == DaysBeforeEndOf(year, 5) + 30;
    assert DaysBeforeEndOf(year, 7) == DaysBeforeEndOf(year, 6) + 31;
    assert DaysBeforeEndOf(year, 8) == DaysBeforeEndOf(year, 7) + 31;
    assert DaysBeforeEndOf(year, 9) == DaysBeforeEndOf(year, 8) + 30;
    assert DaysBeforeEndOf(year, 10) == DaysBeforeEndOf(year, 9) + 31;
    assert DaysBeforeEndOf(year, 11) == DaysBeforeEndOf(year, 10) + 30;
  }

  // ---------------------------------------------------------------------
  // Time of day

  /** The four time-of-day periods (the keys "Night", "Morning", "Day", "Evening"). */
  datatype Period = Night | Morning | Day | Evening

  /** `time_of_day`: the period the hour of a reading's start falls in. */
  function TimeOfDay(hour: int): (p: Period)
    ensures p == Night <==> hour < 4 || 21 <= hour
    ensures p == Morning <==> 4 <= hour < 9
    ensures p == Day <==> 9 <= hour < 16
    ensures p == Evening <==> 16 <= hour < 21
  {
    if hour < 4 then Night
    else if hour < 9 then Morning
    else if hour < 16 then Day
    else if hour < 21 then Evening
    else Night
  }

  /** One window of the day: hours in [start, end) belong to `period`. */
  datatype Window = Window(start: int, end: int, period: Period)

  /** The period table of the day, as the report charts draw it (lines at 04, 09, 16, 21). */
  const Windows: seq<Window> := [
    Window(0, 4, Night), Window(4, 9, Morning), Window(9, 16, Day),
    Window(16, 21, Evening), Window(21, 24, Night)
  ]

  predicate InWindow(w: Window, hour: int) {
    w.start <= hour < w.end
  }

  /**
   * The windows partition the hours of a day: every hour 0..23 lies in
   * exactly one window, and `TimeOfDay` gives that window's period.
   */
  lemma TimeOfDayFollowsWindows(hour: int)
    requires 0 <= hour < 24
    ensures exists i :: 0 <= i < |Windows| && InWindow(Windows[i], hour)
    ensures forall i, j ::
              (0 <= i < |Windows| && 0 <= j < |Windows| &&
               InWindow(Windows[i], hour) && InWindow(Windows[j], hour)) ==> i == j
    ensures forall i :: 0 <= i < |Windows| && InWindow(Windows[i], hour) ==>
              TimeOfDay(hour) == Windows[i].period
  {
    var i := if hour < 4 then 0 else if hour < 9 then 1 else if hour < 16 then 2
             else if hour < 21 then 3 else 4;
    assert InWindow(Windows[i], hour);
  }

  // ---------------------------------------------------------------------
  // Financial year

  /** `get_fiscal_year`: the year in which the financial year (July to June) ends. */
  function FiscalYear(d: Date): (fy: int)
    ensures d.year <= fy <= d.year + 1
    ensures fy == d.year + 1 <==> 6 < d.month
  {
    if d.month <= 6 then d.year else d.year + 1
  }

  /**
   * Financial year `fy` is exactly July..December of fy - 1 followed by
   * January..June of fy.
   */
  lemma FiscalYearSpan(d: Date, fy: int)
    requires 1 <= d.month <= 12
    ensures FiscalYear(d) == fy <==>
              (d.year == fy - 1 && 7 <= d.month) || (d.year == fy && d.month <= 6)
  {
  }

  /** Later months never fall in an earlier financial year. */
  lemma FiscalYearMonotone(d1: Date, d2: Date)
    requires 1 <= d1.month <= 12 && 1 <= d2.month <= 12
    requires d1.year < d2.year || (d1.year == d2.year && d1.month <= d2.month)
    ensures FiscalYear(d1) <= FiscalYear(d2)
  {
  }

  // ---------------------------------------------------------------------
  // Seasons

  /** The four (southern-hemisphere) seasons. */
  datatype Season = Summer | Autumn | Winter | Spring

  /** `get_season`: months 12, 1, 2 are summer; 3-5 autumn; 6-8 winter; anything else spring. */
  function SeasonOf(month: int): (s: Season)
    ensures s != Spring ==> month in MonthsOf(s)
    ensures s == Spring <==> month !in MonthsOf(Summer) && month !in MonthsOf(Autumn) && month !in MonthsOf(Winter)
  {
    if month in {1, 2, 12} then Summer
    else if month in {3, 4, 5} then Autumn
    else if month in {6, 7, 8} then Winter
    else Spring
  }

  /** The label a season is stored under, prefixed so that labels sort in calendar order. */
  function SeasonLabel(s: Season): string
  {
    match s
    case Summer => "A - Summer"
    case Autumn => "B - Autumn"
    case Winter => "C - Winter"
    case Spring => "D - Spring"
  }

  /** Position of a season within its season-year. */
  function Ordinal(s: Season): (n: int)
    ensures 0 <= n < 4
  {
    match s
    case Summer => 0
    case Autumn => 1
    case Winter => 2
    case Spring => 3
  }

  /** The three months of a season. */
  function MonthsOf(s: Season): set<int>
  {
    match s
    case Summer => {12, 1, 2}
    case Autumn => {3, 4, 5}
    case Winter => {6, 7, 8}
    case Spring => {9, 10, 11}
  }

  /**
   * The season groups partition the twelve months: a month belongs to the
   * group of exactly the season `SeasonOf` gives it.
   */
  lemma SeasonsPartitionMonths(month: int, s: Season)
    requires 1 <= month <= 12
    ensures SeasonOf(month) == s <==> month in MonthsOf(s)
  {
  }

  /** Python's string ordering (lexicographic by character). */
  predicate StrLess(a: string, b: string)
  {
    if |a| == 0 then |b| > 0
    else if |b| == 0 then false
    else if a[0] != b[0] then a[0] < b[0]
    else StrLess(a[1..], b[1..])
  }

  /** Sorting the labels as strings puts the seasons in calendar order. */
  lemma SeasonLabelsSortInCalendarOrder(s1: Season, s2: Season)
    ensures StrLess(SeasonLabel(s1), SeasonLabel(s2)) <==> Ordinal(s1) < Ordinal(s2)
  {
    var a, b := SeasonLabel(s1), SeasonLabel(s2);
    assert a[0] as int == 'A' as int + Ordinal(s1);
    assert b[0] as int == 'A' as int + Ordinal(s2);
    if s1 == s2 {
      StrLessIrreflexive(a);
    }
  }

  lemma {:induction false} StrLessIrreflexive(a: string)
    ensures !StrLess(a, a)
  {
    if |a| > 0 {
      StrLessIrreflexive(a[1..]);
    }
  }

  /** The season-year of a day: its calendar year, except that December counts with the next year. */
  function SeasonYear(d: Date): int
  {
    if d.month == 12 then d.year + 1 else d.year
  }

  /** The key a daily summary is grouped under: `(year, season)`. */
  datatype SeasonKey = SeasonKey(year: int, season: Season)

  function SeasonKeyOf(d: Date): SeasonKey
  {
    SeasonKey(SeasonYear(d), SeasonOf(d.month))
  }

  /** Rank of a season key on the time line: four per season-year. */
  function KeyRank(k: SeasonKey): int
  {
    4 * k.year + Ordinal(k.season)
  }

  /**
   * Seasons are consecutive blocks of three months that start in December:
   * the rank of a day's key is its month count (12 * year + month) divided by 3.
   * Hence December of Y shares a key with January and February of Y + 1,
   * and later months never get earlier keys.
   */
  lemma {:induction false} SeasonKeyIsMonthBlock(d: Date)
    requires 1 <= d.month <= 12
    ensures KeyRank(SeasonKeyOf(d)) == (12 * d.year + d.month) / 3
  {
    var m := d.month;
    var base := 12 * d.year;
    assert base / 3 == 4 * d.year;
    if m == 12 {
      assert (base + 12) / 3 == 4 * (d.year + 1);
    } else {
      assert (base + m) / 3 == 4 * d.year + m / 3;
    }
  }

  /** December of year Y is grouped with January and February of year Y + 1. */
  lemma DecemberJoinsNextSummer(y: int, d1: int, d2: int, d3: int)
    ensures SeasonKeyOf(Date(y, 12, d1)) == SeasonKey(y + 1, Summer)
    ensures SeasonKeyOf(Date(y + 1, 1, d2)) == SeasonKey(y + 1, Summer)
    ensures SeasonKeyOf(Date(y + 1, 2, d3)) == SeasonKey(y + 1, Summer)
  {
  }

  /** Keys follow the calendar: a later month never has a lower-ranked key. */
  lemma SeasonKeyMonotone(d1: Date, d2: Date)
    requires 1 <= d1.month <= 12 && 1 <= d2.month <= 12
    requires d1.year < d2.year || (d1.year == d2.year && d1.month <= d2.month)
    ensures KeyRank(SeasonKeyOf(d1)) <= KeyRank(SeasonKeyOf(d2))
  {
    SeasonKeyIsMonthBlock(d1);
    SeasonKeyIsMonthBlock(d2);
    assert 12 * d1.year + d1.month <= 12 * d2.year + d2.month;
  }

  /**
   * The fixed day weights of the seasons (summer 90, autumn 92, winter 92,
   * spring 91) used by the year average.
   */
  function SeasonDays(s: Season): int
  {
    match s
    case Summer => 90
    case Autumn => 92
    case Winter => 92
    case Spring => 91
  }

  /**
   * The weights are the month lengths of a common year, adding up to 365;
   * a summer whose February is in a leap year has 91 days, one more than its weight.
   */
  lemma SeasonDaysAreCommonYearLengths(y: int)
    ensures SeasonDays(Summer) + SeasonDays(Autumn) + SeasonDays(Winter) + SeasonDays(Spring) == 365
    ensures SeasonDays(Summer) == DaysInMonth(y - 1, 12) + DaysInMonth(y, 1) + DaysInMonth(y, 2) - (if IsLeapYear(y) then 1 else 0)
    ensures SeasonDays(Autumn) == DaysInMonth(y, 3) + DaysInMonth(y, 4) + DaysInMonth(y, 5)
    ensures SeasonDays(Winter) == DaysInMonth(y, 6) + DaysInMonth(y, 7) + DaysInMonth(y, 8)
    ensures SeasonDays(Spring) == DaysInMonth(y, 9) + DaysInMonth(y, 10) + DaysInMonth(y, 11)
  {
  }

  // ---------------------------------------------------------------------
  // The "YYYY Season" label of get_season_fy

  function DigitChar(n: int): char
    requires 0 <= n < 10
  {
    ('0' as int + n) as char
  }

  predicate IsDigit(c: char) {
    '0' as int <= c as int <= '9' as int
  }

  /** `str(n)` for a non-negative integer. */
  function Decimal(n: nat): (s: string)
    ensures |s| > 0
    ensures forall i :: 0 <= i < |s| ==> IsDigit(s[i])
  {
    if n < 10 then [DigitChar(n)] else Decimal(n / 10) + [DigitChar(n % 10)]
  }

  /** `int(s)` for a non-empty string of digits. */
  function ParseDecimal(s: string): nat
    requires forall i :: 0 <= i < |s| ==> IsDigit(s[i])
  {
    if |s| == 0 then 0
    else
      assert IsDigit(s[|s| - 1]);
      ParseDecimal(s[..|s| - 1]) * 10 + (s[|s| - 1] as int - '0' as int)
  }

  /** Reading back the decimal text of a number gives the number. */
  lemma {:induction false} DecimalRoundTrip(n: nat)
    ensures ParseDecimal(Decimal(n)) == n
  {
    var s := Decimal(n);
    if n >= 10 {
      DecimalRoundTrip(n / 10);
      assert s[..|s| - 1] == Decimal(n / 10);
    } else {
      assert s[..0] == [];
    }
  }

  /** `get_season_fy`: "<season-year> <season label>", e.g. "2024 A - Summer". */
  function SeasonFyLabel(d: Date): (text: string)
    requires d.year >= 0
    ensures var n := |text| - |SeasonLabel(SeasonOf(d.month))| - 1;
            && 0 < n && text[n] == ' ' && text[n + 1..] == SeasonLabel(SeasonOf(d.month))
            && (forall i :: 0 <= i < n ==> IsDigit(text[i])) && ParseDecimal(text[..n]) == SeasonYear(d)
  {
    var year := Decimal(SeasonYear(d));
    var text := year + " " + SeasonLabel(SeasonOf(d.month));
    DecimalRoundTrip(SeasonYear(d));
    assert text[..|year|] == year;
    text
  }

  /**
   * The label names the season key and nothing else: two days get the same
   * label exactly when they have the same (season-year, season) key.
   */
  lemma SeasonFyLabelIdentifiesKey(d1: Date, d2: Date)
    requires d1.year >= 0 && d2.year >= 0
    ensures SeasonFyLabel(d1) == SeasonFyLabel(d2) <==> SeasonKeyOf(d1) == SeasonKeyOf(d2)
  {
    if SeasonFyLabel(d1) == SeasonFyLabel(d2) {
      var a, b := Decimal(SeasonYear(d1)), Decimal(SeasonYear(d2));
      var l1, l2 := SeasonFyLabel(d1), SeasonFyLabel(d2);
      assert l1[|a|] == ' ' && l2[|b|] == ' ';
      assert forall i :: 0 <= i < |a| ==> l1[i] == a[i];
      assert forall i :: 0 <= i < |b| ==> l2[i] == b[i];
      assert |a| == |b|;
      assert a == l1[..|a|] == l2[..|b|] == b;
      DecimalRoundTrip(SeasonYear(d1));
      DecimalRoundTrip(SeasonYear(d2));
      assert SeasonLabel(SeasonOf(d1.month)) == l1[|a| + 1..] == l2[|b| + 1..] == SeasonLabel(SeasonOf(d2.month));
    }
  }
}
