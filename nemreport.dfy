/**
 * The derived numbers of the second report: the daily usage chart series
 * and its colour range, the per-season and overall daily averages, the
 * incomplete-month flag and the monthly net columns.
 */
module NemReport {
  import opened Calendar
  import opened Units
  import opened Outcomes

  // ---------------------------------------------------------------------
  // Daily usage chart

  /** A row of the daily table as the chart reads it: the day, its import and its export. */
  datatype DayUsage = DayUsage(day: Date, imp: Energy, exp: Energy)

  /** The series handed to the calendar plot and its colour range. */
  datatype Chart = Chart(days: seq<Date>, data: seq<Energy>, vmin: Energy, vmax: Energy)

  /** The colour range never reaches past 35 kWh either way. */
  const ColourLimit: Energy := 35 * KWh

  predicate ValidKind(kind: string) {
    kind == "import" || kind == "export" || kind == "total"
  }

  /** The value a day contributes to the series of `kind`; a total counts export negatively. */
  function SeriesValue(kind: string, r: DayUsage): Energy
    requires ValidKind(kind)
  {
    if kind == "import" then r.imp
    else if kind == "export" then r.exp
    else r.imp + -r.exp
  }

  function Series(rows: seq<DayUsage>, kind: string): (data: seq<Energy>)
    requires ValidKind(kind)
    ensures |data| == |rows|
  {
    seq(|rows|, i requires 0 <= i < |rows| => SeriesValue(kind, rows[i]))
  }

  /** `min(xs)`: an element no larger than any other. */
  function MinOf(xs: seq<int>): (r: int)
    requires |xs| > 0
    ensures r in xs
    ensures forall i :: 0 <= i < |xs| ==> r <= xs[i]
  {
    if |xs| == 1 then xs[0]
    else
      var m := MinOf(xs[..|xs| - 1]);
      assert forall i :: 0 <= i < |xs| - 1 ==> xs[..|xs| - 1][i] == xs[i];
      if xs[|xs| - 1] < m then xs[|xs| - 1] else m
  }

  /** `max(xs)`: an element no smaller than any other. */
  function MaxOf(xs: seq<int>): (r: int)
    requires |xs| > 0
    ensures r in xs
    ensures forall i :: 0 <= i < |xs| ==> xs[i] <= r
  {
    if |xs| == 1 then xs[0]
    else
      var m := MaxOf(xs[..|xs| - 1]);
      assert forall i :: 0 <= i < |xs| - 1 ==> xs[..|xs| - 1][i] == xs[i];
      if xs[|xs| - 1] > m then xs[|xs| - 1] else m
  }

  function Max(a: int, b: int): int { if a >= b then a else b }

  function Min(a: int, b: int): int { if a <= b then a else b }

  /**
   * The chart of a non-empty table for a valid kind: the per-day series,
   * nothing for an export chart whose largest value is 0, and otherwise the
   * colour range `[max(-35, min), min(35, max)]`.
   */
  function DailyUsageChart(rows: seq<DayUsage>, kind: string): (c: Option<Chart>)
    requires |rows| > 0 && ValidKind(kind)
    ensures c.None? <==> kind == "export" && (forall i :: 0 <= i < |rows| ==> rows[i].exp <= 0)
                                         && (exists i :: 0 <= i < |rows| && rows[i].exp == 0)
    ensures c.Some? ==>
              && |c.value.days| == |c.value.data| == |rows|
              && (forall i :: 0 <= i < |rows| ==> c.value.days[i] == rows[i].day)
              && (forall i :: 0 <= i < |rows| ==> c.value.data[i] == SeriesValue(kind, rows[i]))
  {
    var data := Series(rows, kind);
    var hi := MaxOf(data);
    if kind == "export" && hi == 0 then
      var k :| 0 <= k < |data| && data[k] == hi;
      assert rows[k].exp == 0;
      assert forall i :: 0 <= i < |rows| ==> rows[i].exp == data[i] <= hi;
      None
    else
      assert forall i :: 0 <= i < |rows| ==> data[i] == SeriesValue(kind, rows[i]);
      assert kind == "export" && (forall i :: 0 <= i < |rows| ==> rows[i].exp <= 0) ==> hi <= 0;
      assert kind == "export" && (exists i :: 0 <= i < |rows| && rows[i].exp == 0) ==> hi >= 0;
      Some(Chart(seq(|rows|, i requires 0 <= i < |rows| => rows[i].day), data,
                 Max(-ColourLimit, MinOf(data)), Min(ColourLimit, MaxOf(data))))
  }

  /**
   * `build_daily_usage_chart` over the rows of `get_day_data`: an unknown
   * kind fails on the first row, an empty table fails in `min`/`max`, and
   * otherwise the result is the chart above.
   */
  method BuildDailyUsageChart(rows: seq<DayUsage>, kind: string) returns (r: Result<Option<Chart>>)
    ensures |rows| > 0 && !ValidKind(kind) ==> r == Failure(InvalidKind)
    ensures |rows| == 0 ==> r == Failure(EmptySequence)
    ensures |rows| > 0 && ValidKind(kind) ==> r == Success(DailyUsageChart(rows, kind))
  {
    var days: seq<Date> := [];
    var data: seq<Energy> := [];
    for i := 0 to |rows|
      invariant days == seq(i, j requires 0 <= j < i => rows[j].day)
      invariant i > 0 ==> ValidKind(kind) && data == Series(rows[..i], kind)
      invariant i == 0 ==> data == []
    {
      days := days + [rows[i].day];
      assert rows[..i + 1] == rows[..i] + [rows[i]];
      if kind == "import" {
        data := data + [rows[i].imp];
      } else if kind == "export" {
        data := data + [rows[i].exp];
      } else if kind == "total" {
        var exp := -rows[i].exp;
        var val := rows[i].imp + exp;
        data := data + [val];
      } else {
        return Failure(InvalidKind);
      }
    }
    assert rows[..|rows|] == rows;
    if |data| == 0 {
      return Failure(EmptySequence);
    }
    if kind == "export" && MaxOf(data) == 0 {
      return Success(None);
    }
    var vmin := Max(-ColourLimit, MinOf(data));
    var vmax := Min(ColourLimit, MaxOf(data));
    r := Success(Some(Chart(days, data, vmin, vmax)));
  }

  /**
   * The colour range stays within [-35, 35] kWh, each bound is the data's
   * extreme unless that extreme lies beyond the limit, and every value inside
   * the limits lies in the range. The range is empty (vmin > vmax) exactly
   * when all values lie above 35 kWh or all below -35 kWh.
   */
  lemma ColourRangeClamped(rows: seq<DayUsage>, kind: string)
    requires |rows| > 0 && ValidKind(kind) && DailyUsageChart(rows, kind).Some?
    ensures var c := DailyUsageChart(rows, kind).value;
            && -ColourLimit <= c.vmin && c.vmax <= ColourLimit
            && (c.vmin == -ColourLimit || (c.vmin in c.data && forall i :: 0 <= i < |c.data| ==> c.vmin <= c.data[i]))
            && (c.vmax == ColourLimit || (c.vmax in c.data && forall i :: 0 <= i < |c.data| ==> c.data[i] <= c.vmax))
            && (c.vmin == -ColourLimit ==> exists i :: 0 <= i < |c.data| && c.data[i] <= -ColourLimit)
            && (c.vmax == ColourLimit ==> exists i :: 0 <= i < |c.data| && ColourLimit <= c.data[i])
            && (forall i :: 0 <= i < |c.data| && -ColourLimit <= c.data[i] <= ColourLimit ==> c.vmin <= c.data[i] <= c.vmax)
            && (c.vmin <= c.vmax <==>
                  (exists i :: 0 <= i < |c.data| && c.data[i] <= ColourLimit) &&
                  (exists i :: 0 <= i < |c.data| && c.data[i] >= -ColourLimit))
  {
    var c := DailyUsageChart(rows, kind).value;
    var lo, hi := MinOf(c.data), MaxOf(c.data);
    assert c.vmin == Max(-ColourLimit, lo) && c.vmax == Min(ColourLimit, hi);
    if (exists i :: 0 <= i < |c.data| && c.data[i] <= ColourLimit) && (exists i :: 0 <= i < |c.data| && c.data[i] >= -ColourLimit) {
      var i :| 0 <= i < |c.data| && c.data[i] <= ColourLimit;
      var j :| 0 <= j < |c.data| && c.data[j] >= -ColourLimit;
      assert lo <= c.data[i] && c.data[j] <= hi;
    }
  }

  // ---------------------------------------------------------------------
  // Per-season and overall daily averages

  /** A row of the per-season table: its season, how many days it covers, its import and export. */
  datatype SeasonUsage = SeasonUsage(season: string, numDays: int, imp: Energy, exp: Energy)

  function PerDay(total: int, days: int): real
    requires days != 0
  {
    total as real / days as real
  }

  /** `season_data` after the loop: each season's import per day, from the last row of that season. */
  function SeasonRatios(rows: seq<SeasonUsage>): map<string, real>
    requires forall i :: 0 <= i < |rows| ==> rows[i].numDays != 0
  {
    if |rows| == 0 then map[]
    else
      var last := rows[|rows| - 1];
      SeasonRatios(rows[..|rows| - 1])[last.season := PerDay(last.imp, last.numDays)]
  }

  function TotalDays(rows: seq<SeasonUsage>): int {
    if |rows| == 0 then 0 else TotalDays(rows[..|rows| - 1]) + rows[|rows| - 1].numDays
  }

  function TotalImp(rows: seq<SeasonUsage>): int {
    if |rows| == 0 then 0 else TotalImp(rows[..|rows| - 1]) + rows[|rows| - 1].imp
  }

  function TotalExp(rows: seq<SeasonUsage>): int {
    if |rows| == 0 then 0 else TotalExp(rows[..|rows| - 1]) + rows[|rows| - 1].exp
  }

  /** The averages `get_seasonal_data` returns, once every division is defined. */
  function SeasonalAverages(rows: seq<SeasonUsage>): (r: map<string, real>)
    requires forall i :: 0 <= i < |rows| ==> rows[i].numDays != 0
    requires TotalDays(rows) != 0
    ensures "TOTAL" in r && r["TOTAL"] * TotalDays(rows) as real == TotalImp(rows) as real
    ensures "EXPORT" in r && r["EXPORT"] * TotalDays(rows) as real == TotalExp(rows) as real
  {
    SeasonRatios(rows)["EXPORT" := PerDay(TotalExp(rows), TotalDays(rows))]
                      ["TOTAL" := PerDay(TotalImp(rows), TotalDays(rows))]
  }

  /**
   * `get_seasonal_data`: import per day for each season, then export and
   * import per day over all rows; a row covering no days, or no days at
   * all, is a division by zero.
   */
  method NemSeasonalData(rows: seq<SeasonUsage>) returns (r: Result<map<string, real>>)
    ensures r.Failure? <==> (exists i :: 0 <= i < |rows| && rows[i].numDays == 0) || TotalDays(rows) == 0
    ensures r.Failure? ==> r.error == ZeroDivision
    ensures r.Success? ==> (forall i :: 0 <= i < |rows| ==> rows[i].numDays != 0) && TotalDays(rows) != 0
                           && r.value == SeasonalAverages(rows)
  {
    var seasonData: map<string, real> := map[];
    var allExp, allImp, totalDays := 0, 0, 0;
    for i := 0 to |rows|
      invariant forall j :: 0 <= j < i ==> rows[j].numDays != 0
      invariant seasonData == SeasonRatios(rows[..i])
      invariant allExp == TotalExp(rows[..i]) && allImp == TotalImp(rows[..i]) && totalDays == TotalDays(rows[..i])
    {
      assert rows[..i + 1][..i] == rows[..i];
      var row := rows[i];
      allImp := allImp + row.imp;
      allExp := allExp + row.exp;
      totalDays := totalDays + row.numDays;
      if row.numDays == 0 {
        return Failure(ZeroDivision);
      }
      seasonData := seasonData[row.season := PerDay(row.imp, row.numDays)];
    }
    assert rows[..|rows|] == rows;
    if totalDays == 0 {
      return Failure(ZeroDivision);
    }
    seasonData := seasonData["EXPORT" := PerDay(allExp, totalDays)];
    seasonData := seasonData["TOTAL" := PerDay(allImp, totalDays)];
    r := Success(seasonData);
  }

  /** A season is listed iff some row has it, with the per-day import of its last row. */
  lemma {:induction false} SeasonRatioLookup(rows: seq<SeasonUsage>, s: string)
    requires forall i :: 0 <= i < |rows| ==> rows[i].numDays != 0
    ensures s in SeasonRatios(rows) <==> exists i :: 0 <= i < |rows| && rows[i].season == s
    ensures forall i :: 0 <= i < |rows| && rows[i].season == s && (forall j :: i < j < |rows| ==> rows[j].season != s) ==>
              s in SeasonRatios(rows) && SeasonRatios(rows)[s] == PerDay(rows[i].imp, rows[i].numDays)
  {
    if |rows| > 0 {
      var init, last := rows[..|rows| - 1], rows[|rows| - 1];
      SeasonRatioLookup(init, s);
      var m := SeasonRatios(init);
      assert SeasonRatios(rows) == m[last.season := PerDay(last.imp, last.numDays)];
      if last.season != s {
        if i :| 0 <= i < |rows| && rows[i].season == s {
          assert i < |init| && init[i].season == s;
        }
        forall i | 0 <= i < |rows| && rows[i].season == s && (forall j :: i < j < |rows| ==> rows[j].season != s)
          ensures s in SeasonRatios(rows) && SeasonRatios(rows)[s] == PerDay(rows[i].imp, rows[i].numDays)
        {
          assert i < |init| && init[i] == rows[i];
          assert forall j :: i < j < |init| ==> init[j] == rows[j];
        }
      }
    }
  }

  /** A quotient within [lo, hi] has its dividend within [lo, hi] times the (positive) divisor. */
  lemma PerDayBounds(v: real, d: real, lo: real, hi: real)
    requires d > 0.0
    requires lo <= v / d <= hi
    ensures lo * d <= v <= hi * d
  {
    assert (v / d) * d == v;
    RealScale(lo, v / d, d);
    RealScale(v / d, hi, d);
  }

  lemma RealScale(a: real, b: real, d: real)
    requires a <= b && d > 0.0
    ensures a * d <= b * d
  {
    assert b * d - a * d == (b - a) * d;
  }

  /** Totals of rows whose import per day lies in [lo, hi] lie in [lo, hi] times the days. */
  lemma {:induction false} TotalsWithin(rows: seq<SeasonUsage>, lo: real, hi: real)
    requires forall i :: 0 <= i < |rows| ==> rows[i].numDays > 0
    requires forall i :: 0 <= i < |rows| ==> lo <= PerDay(rows[i].imp, rows[i].numDays) <= hi
    ensures lo * TotalDays(rows) as real <= TotalImp(rows) as real <= hi * TotalDays(rows) as real
  {
    if |rows| > 0 {
      var init, last := rows[..|rows| - 1], rows[|rows| - 1];
      TotalsWithin(init, lo, hi);
      var d, v := last.numDays as real, last.imp as real;
      var D, I := TotalDays(init) as real, TotalImp(init) as real;
      PerDayBounds(v, d, lo, hi);
      assert TotalDays(rows) as real == D + d && TotalImp(rows) as real == I + v;
      assert lo * (D + d) == lo * D + lo * d;
      assert hi * (D + d) == hi * D + hi * d;
    }
  }

  /**
   * The overall import per day lies between the smallest and the largest
   * per-season import per day.
   */
  lemma TotalBetweenSeasons(rows: seq<SeasonUsage>, lo: real, hi: real)
    requires |rows| > 0
    requires forall i :: 0 <= i < |rows| ==> rows[i].numDays > 0
    requires forall i :: 0 <= i < |rows| ==> lo <= PerDay(rows[i].imp, rows[i].numDays) <= hi
    ensures TotalDays(rows) > 0
    ensures lo <= PerDay(TotalImp(rows), TotalDays(rows)) <= hi
  {
    PositiveDays(rows);
    TotalsWithin(rows, lo, hi);
    var D, I := TotalDays(rows) as real, TotalImp(rows) as real;
    QuotientBounds(I, D, lo, hi);
  }

  /** The converse of `PerDayBounds`. */
  lemma QuotientBounds(v: real, d: real, lo: real, hi: real)
    requires d > 0.0
    requires lo * d <= v <= hi * d
    ensures lo <= v / d <= hi
  {
    var q := v / d;
    assert q * d == v;
    if q < lo {
      RealScale(q, lo, d);
    }
    if q > hi {
      RealScale(hi, q, d);
    }
  }

  lemma {:induction false} PositiveDays(rows: seq<SeasonUsage>)
    requires |rows| > 0
    requires forall i :: 0 <= i < |rows| ==> rows[i].numDays > 0
    ensures TotalDays(rows) > 0
  {
    if |rows| > 1 {
      PositiveDays(rows[..|rows| - 1]);
    }
  }

  // ---------------------------------------------------------------------
  // Monthly table

  /** A row of `monthly_reads`, its month "YYYY-MM" given as year and month. */
  datatype MonthRow = MonthRow(nmi: string, year: int, month: int, numDays: int,
                               imp: Energy, exp: Energy,
                               impMorning: Energy, impDay: Energy, impEvening: Energy, impNight: Energy)

  /** The row `get_month_data` hands on: no nmi, and the month label starred when the month is incomplete. */
  datatype MonthEntry = MonthEntry(year: int, month: int, starred: bool, numDays: int,
                                   imp: Energy, exp: Energy,
                                   impMorning: Energy, impDay: Energy, impEvening: Energy, impNight: Energy)

  /**
   * The entry of one row: putting the nmi back gives the row that was read,
   * so nothing but the label's star is added, and the star marks a month
   * with fewer days than the calendar gives it.
   */
  function EntryOf(row: MonthRow): (e: MonthEntry)
    requires 1 <= row.month <= 12
    ensures MonthRow(row.nmi, e.year, e.month, e.numDays, e.imp, e.exp, e.impMorning, e.impDay, e.impEvening, e.impNight) == row
    ensures e.starred <==> row.numDays < DaysInMonth(row.year, row.month)
  {
    MonthEntry(row.year, row.month, row.numDays < DaysInMonth(row.year, row.month), row.numDays,
               row.imp, row.exp, row.impMorning, row.impDay, row.impEvening, row.impNight)
  }

  /**
   * `get_month_data`: every row in query order, its nmi dropped and its
   * label starred iff it covers fewer days than its month has; a month
   * outside 1..12 fails in `monthrange`.
   */
  method GetMonthData(rows: seq<MonthRow>) returns (r: Result<seq<MonthEntry>>)
    ensures r.Failure? <==> exists i :: 0 <= i < |rows| && !(1 <= rows[i].month <= 12)
    ensures r.Failure? ==> r.error == IllegalMonth
    ensures r.Success? ==> |r.value| == |rows| && forall i :: 0 <= i < |rows| ==> r.value[i] == EntryOf(rows[i])
  {
    var out: seq<MonthEntry> := [];
    for i := 0 to |rows|
      invariant forall j :: 0 <= j < i ==> 1 <= rows[j].month <= 12
      invariant |out| == i && forall j :: 0 <= j < i ==> out[j] == EntryOf(rows[j])
    {
      var row := rows[i];
      if !(1 <= row.month <= 12) {
        return Failure(IllegalMonth);
      }
      var expNumDays := DaysInMonth(row.year, row.month);
      var incomplete := row.numDays < expNumDays;
      out := out + [MonthEntry(row.year, row.month, incomplete, row.numDays,
                               row.imp, row.exp, row.impMorning, row.impDay, row.impEvening, row.impNight)];
    }
    r := Success(out);
  }

  /** Months with some days missing are starred; full months, leap Februaries included, are not. */
  lemma StarExamples()
    ensures EntryOf(MonthRow("n", 2023, 1, 28, 0, 0, 0, 0, 0, 0)).starred
    ensures !EntryOf(MonthRow("n", 2023, 4, 30, 0, 0, 0, 0, 0, 0)).starred
    ensures !EntryOf(MonthRow("n", 2024, 2, 29, 0, 0, 0, 0, 0, 0)).starred
    ensures EntryOf(MonthRow("n", 2024, 2, 28, 0, 0, 0, 0, 0, 0)).starred
    ensures !EntryOf(MonthRow("n", 2023, 2, 28, 0, 0, 0, 0, 0, 0)).starred
    ensures !EntryOf(MonthRow("n", 1900, 2, 28, 0, 0, 0, 0, 0, 0)).starred
  {
  }

  /** A row of the month table: the entry with its net import and net import per day. */
  datatype MonthTableRow = MonthTableRow(entry: MonthEntry, net: Energy, netDaily: Option<real>)

  /**
   * `net = imp - exp` and `net_daily = net / num_days`; a month of no days
   * has no per-day figure (the data frame holds a non-number there). The
   * per-day net, times the days, gives back the net.
   */
  function MonthTableRowOf(e: MonthEntry): (row: MonthTableRow)
    ensures row.entry == e
    ensures row.net + e.exp == e.imp
    ensures row.netDaily.Some? <==> e.numDays != 0
    ensures row.netDaily.Some? ==> row.netDaily.value * e.numDays as real == row.net as real
  {
    var net := e.imp - e.exp;
    MonthTableRow(e, net, if e.numDays == 0 then None else Some(PerDay(net, e.numDays)))
  }

  /** The net columns of the month table. */
  function MonthTable(entries: seq<MonthEntry>): (t: seq<MonthTableRow>)
    ensures |t| == |entries|
  {
    seq(|entries|, i requires 0 <= i < |entries| => MonthTableRowOf(entries[i]))
  }

  function NetSum(t: seq<MonthTableRow>): int {
    if |t| == 0 then 0 else NetSum(t[..|t| - 1]) + t[|t| - 1].net
  }

  function ImpSum(es: seq<MonthEntry>): int {
    if |es| == 0 then 0 else ImpSum(es[..|es| - 1]) + es[|es| - 1].imp
  }

  function ExpSum(es: seq<MonthEntry>): int {
    if |es| == 0 then 0 else ExpSum(es[..|es| - 1]) + es[|es| - 1].exp
  }

  /** The net column sums to the import column less the export column. */
  lemma {:induction false} NetColumnAddsUp(entries: seq<MonthEntry>)
    ensures NetSum(MonthTable(entries)) == ImpSum(entries) - ExpSum(entries)
  {
    if |entries| > 0 {
      var init := entries[..|entries| - 1];
      NetColumnAddsUp(init);
      assert MonthTable(entries)[..|entries| - 1] == MonthTable(init);
    }
  }
}
