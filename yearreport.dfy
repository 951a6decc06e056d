/**
 * The yearly seasonal figures of the first report: the years a metering
 * point spans, and for each year the per-season average daily import and a
 * year average weighted by the length of each season.
 */
module YearReport {
  import opened Calendar
  import opened Units
  import opened Outcomes

  /**
   * `get_years`: every calendar year from the first reading's year to the
   * last reading's year, ascending, each once; none when the range is empty.
   */
  method GetYears(start: Date, end: Date) returns (years: seq<int>)
    ensures |years| == if start.year <= end.year then end.year - start.year + 1 else 0
    ensures forall i :: 0 <= i < |years| ==> years[i] == start.year + i
    ensures forall y :: y in years <==> start.year <= y <= end.year
  {
    years := [];
    var x := start.year;
    while x <= end.year
      invariant start.year <= x
      invariant start.year <= end.year ==> x <= end.year + 1
      invariant start.year > end.year ==> x == start.year
      invariant |years| == x - start.year
      invariant forall i :: 0 <= i < |years| ==> years[i] == start.year + i
      decreases end.year - x
    {
      years := years + [x];
      x := x + 1;
    }
    forall y | start.year <= y <= end.year
      ensures y in years
    {
      assert years[y - start.year] == y;
    }
  }

  /** A row of `season_reads` for one metering point and year. */
  datatype SeasonRead = SeasonRead(season: Season, imp: Energy, exp: Energy)

  /** `imp_values` after the query loop: each season's import from the last row of that season. */
  function LatestImports(rows: seq<SeasonRead>): map<Season, Energy>
  {
    if |rows| == 0 then map[]
    else LatestImports(rows[..|rows| - 1])[rows[|rows| - 1].season := rows[|rows| - 1].imp]
  }

  /** `exp_values` after the query loop. */
  function LatestExports(rows: seq<SeasonRead>): map<Season, Energy>
  {
    if |rows| == 0 then map[]
    else LatestExports(rows[..|rows| - 1])[rows[|rows| - 1].season := rows[|rows| - 1].exp]
  }

  /**
   * A season is in `imp_values` iff some row has it, and then holds the
   * import of the last such row.
   */
  lemma {:induction false} LatestImportsLookup(rows: seq<SeasonRead>, s: Season)
    ensures s in LatestImports(rows) <==> exists i :: 0 <= i < |rows| && rows[i].season == s
    ensures forall i :: 0 <= i < |rows| && rows[i].season == s && (forall j :: i < j < |rows| ==> rows[j].season != s) ==>
              s in LatestImports(rows) && LatestImports(rows)[s] == rows[i].imp
  {
    if |rows| > 0 {
      var init := rows[..|rows| - 1];
      LatestImportsLookup(init, s);
      if exists i :: 0 <= i < |rows| && rows[i].season == s {
        var i :| 0 <= i < |rows| && rows[i].season == s;
        if i < |init| {
          assert init[i].season == s;
        }
      }
      forall i | 0 <= i < |rows| && rows[i].season == s && (forall j :: i < j < |rows| ==> rows[j].season != s)
        ensures s in LatestImports(rows) && LatestImports(rows)[s] == rows[i].imp
      {
        if i < |init| {
          assert init[i].season == s;
        }
      }
    }
  }

  /** The query loop of `get_year_season_data`. */
  method CollectSeasons(rows: seq<SeasonRead>) returns (impValues: map<Season, Energy>, expValues: map<Season, Energy>)
    ensures impValues == LatestImports(rows)
    ensures expValues == LatestExports(rows)
  {
    impValues, expValues := map[], map[];
    for i := 0 to |rows|
      invariant impValues == LatestImports(rows[..i])
      invariant expValues == LatestExports(rows[..i])
    {
      assert rows[..i + 1][..i] == rows[..i];
      var r := rows[i];
      impValues := impValues[r.season := r.imp];
      expValues := expValues[r.season := r.exp];
    }
    assert rows[..|rows|] == rows;
  }

  // ---------------------------------------------------------------------
  // The weighted year average

  /** A season's average and its average times its weight, or None where the season is missing. */
  datatype SeasonFigure = SeasonFigure(avg: Option<Energy>, total: Option<int>)

  /** What `get_year_season_data` returns: the four seasons, then the year average and sum. */
  datatype YearFigures = YearFigures(
    summer: SeasonFigure, autumn: SeasonFigure, winter: SeasonFigure, spring: SeasonFigure,
    yearAvg: Energy, yearSum: int)

  const SeasonOrder: seq<Season> := [Summer, Autumn, Winter, Spring]

  /** The season has a truthy average: present and not zero. */
  predicate Contributes(m: map<Season, Energy>, s: Season) {
    s in m && m[s] != 0
  }

  /** Sum of average times weight over the contributing seasons of `ss`. */
  function YearSum(m: map<Season, Energy>, ss: seq<Season>): int
  {
    if |ss| == 0 then 0
    else YearSum(m, ss[..|ss| - 1]) + (if Contributes(m, ss[|ss| - 1]) then m[ss[|ss| - 1]] * SeasonDays(ss[|ss| - 1]) else 0)
  }

  /** Sum of the weights of the contributing seasons of `ss`. */
  function YearDays(m: map<Season, Energy>, ss: seq<Season>): (days: int)
    ensures days >= 0
  {
    if |ss| == 0 then 0
    else YearDays(m, ss[..|ss| - 1]) + (if Contributes(m, ss[|ss| - 1]) then SeasonDays(ss[|ss| - 1]) else 0)
  }

  /** The four seasons' terms, spelled out. */
  lemma YearTotalsByTerm(m: map<Season, Energy>)
    ensures YearSum(m, SeasonOrder) ==
              (if Contributes(m, Summer) then m[Summer] * 90 else 0) + (if Contributes(m, Autumn) then m[Autumn] * 92 else 0)
            + (if Contributes(m, Winter) then m[Winter] * 92 else 0) + (if Contributes(m, Spring) then m[Spring] * 91 else 0)
    ensures YearDays(m, SeasonOrder) ==
              (if Contributes(m, Summer) then 90 else 0) + (if Contributes(m, Autumn) then 92 else 0)
            + (if Contributes(m, Winter) then 92 else 0) + (if Contributes(m, Spring) then 91 else 0)
  {
    var s1, s2, s3 := [Summer], [Summer, Autumn], [Summer, Autumn, Winter];
    assert s1[..0] == [] && s2[..1] == s1 && s3[..2] == s2 && SeasonOrder[..3] == s3;
    assert YearDays(m, s1) == (if Contributes(m, Summer) then 90 else 0);
    assert YearSum(m, s1) == (if Contributes(m, Summer) then m[Summer] * 90 else 0);
    assert YearDays(m, s2) == YearDays(m, s1) + (if Contributes(m, Autumn) then 92 else 0);
    assert YearSum(m, s2) == YearSum(m, s1) + (if Contributes(m, Autumn) then m[Autumn] * 92 else 0);
    assert YearDays(m, s3) == YearDays(m, s2) + (if Contributes(m, Winter) then 92 else 0);
    assert YearSum(m, s3) == YearSum(m, s2) + (if Contributes(m, Winter) then m[Winter] * 92 else 0);
  }

  function Figure(m: map<Season, Energy>, s: Season): SeasonFigure {
    var avg := if s in m then Some(m[s]) else None;
    SeasonFigure(avg, if Contributes(m, s) then Some(m[s] * SeasonDays(s)) else None)
  }

  /**
   * The figures of one year from its season averages `m`: the year average
   * is the weighted mean of the contributing seasons rounded to 0.001 kWh,
   * and dividing by zero weight days fails.
   */
  function YearSeasonData(m: map<Season, Energy>): (r: Result<YearFigures>)
    ensures r.Success? <==> YearDays(m, SeasonOrder) > 0
    ensures r.Failure? ==> r.error == ZeroDivision
    ensures r.Success? ==>
              var days := YearDays(m, SeasonOrder);
              && r.value.yearSum == YearSum(m, SeasonOrder)
              && OnGrid(r.value.yearAvg)
              && -(Grid * days) <= 2 * (r.value.yearSum - r.value.yearAvg * days) <= Grid * days
  {
    var days := YearDays(m, SeasonOrder);
    if days == 0 then Failure(ZeroDivision)
    else
      var total := YearSum(m, SeasonOrder);
      Success(YearFigures(Figure(m, Summer), Figure(m, Autumn), Figure(m, Winter), Figure(m, Spring),
                          RoundedMean(total, days), total))
  }

  /** `get_year_season_data` on the rows the store returns for one metering point and year. */
  method GetYearSeasonData(rows: seq<SeasonRead>) returns (r: Result<YearFigures>)
    ensures r == YearSeasonData(LatestImports(rows))
  {
    var impValues, expValues := CollectSeasons(rows);

    var aDays := 90;
    var aAvg: Option<Energy> := if Summer in impValues then Some(impValues[Summer]) else None;
    var aSum: Option<int> := if aAvg.Some? && aAvg.value != 0 then Some(aAvg.value * aDays) else None;

    var bDays := 92;
    var bAvg: Option<Energy> := if Autumn in impValues then Some(impValues[Autumn]) else None;
    var bSum: Option<int> := if bAvg.Some? && bAvg.value != 0 then Some(bAvg.value * bDays) else None;

    var cDays := 92;
    var cAvg: Option<Energy> := if Winter in impValues then Some(impValues[Winter]) else None;
    var cSum: Option<int> := if cAvg.Some? && cAvg.value != 0 then Some(cAvg.value * cDays) else None;

    var dDays := 91;
    var dAvg: Option<Energy> := if Spring in impValues then Some(impValues[Spring]) else None;
    var dSum: Option<int> := if dAvg.Some? && dAvg.value != 0 then Some(dAvg.value * dDays) else None;

    ghost var m := impValues;
    assert SeasonFigure(aAvg, aSum) == Figure(m, Summer) && SeasonFigure(bAvg, bSum) == Figure(m, Autumn);
    assert SeasonFigure(cAvg, cSum) == Figure(m, Winter) && SeasonFigure(dAvg, dSum) == Figure(m, Spring);

    var yrSum := 0;
    var yrDays := 0;
    if aSum.Some? {
      yrSum := yrSum + aSum.value;
      yrDays := yrDays + aDays;
    }
    assert yrSum == (if Contributes(m, Summer) then m[Summer] * 90 else 0);
    assert yrDays == (if Contributes(m, Summer) then 90 else 0);
    if bSum.Some? {
      yrSum := yrSum + bSum.value;
      yrDays := yrDays + bDays;
    }
    assert yrSum == (if Contributes(m, Summer) then m[Summer] * 90 else 0) + (if Contributes(m, Autumn) then m[Autumn] * 92 else 0);
    assert yrDays == (if Contributes(m, Summer) then 90 else 0) + (if Contributes(m, Autumn) then 92 else 0);
    if cSum.Some? {
      yrSum := yrSum + cSum.value;
      yrDays := yrDays + cDays;
    }
    assert yrSum == (if Contributes(m, Summer) then m[Summer] * 90 else 0) + (if Contributes(m, Autumn) then m[Autumn] * 92 else 0)
                  + (if Contributes(m, Winter) then m[Winter] * 92 else 0);
    assert yrDays == (if Contributes(m, Summer) then 90 else 0) + (if Contributes(m, Autumn) then 92 else 0)
                  + (if Contributes(m, Winter) then 92 else 0);
    if dSum.Some? {
      yrSum := yrSum + dSum.value;
      yrDays := yrDays + dDays;
    }
    YearTotalsByTerm(m);
    assert yrSum == YearSum(m, SeasonOrder) && yrDays == YearDays(m, SeasonOrder);
    if yrDays == 0 {
      return Failure(ZeroDivision);
    }
    var yrAvg := RoundedMean(yrSum, yrDays);
    r := Success(YearFigures(SeasonFigure(aAvg, aSum), SeasonFigure(bAvg, bSum), SeasonFigure(cAvg, cSum),
                             SeasonFigure(dAvg, dSum), yrAvg, yrSum));
  }

  /**
   * `get_seasonal_data`: the figures of every year `get_years` yields, keyed
   * by year; the first year whose figures fail makes the whole call fail.
   */
  method GetSeasonalData(start: Date, end: Date, rowsFor: int -> seq<SeasonRead>)
    returns (r: Result<map<int, YearFigures>>)
    ensures r.Success? <==>
              forall y :: start.year <= y <= end.year ==> YearSeasonData(LatestImports(rowsFor(y))).Success?
    ensures r.Success? ==>
              && (forall y :: y in r.value <==> start.year <= y <= end.year)
              && (forall y :: y in r.value ==> r.value[y] == YearSeasonData(LatestImports(rowsFor(y))).value)
  {
    var years := GetYears(start, end);
    var yearData: map<int, YearFigures> := map[];
    for i := 0 to |years|
      invariant forall y :: y in yearData <==> start.year <= y < start.year + i
      invariant forall y :: start.year <= y < start.year + i ==> YearSeasonData(LatestImports(rowsFor(y))).Success?
      invariant forall y :: y in yearData ==> yearData[y] == YearSeasonData(LatestImports(rowsFor(y))).value
    {
      var data := GetYearSeasonData(rowsFor(years[i]));
      if data.Failure? {
        return Failure(data.error);
      }
      yearData := yearData[years[i] := data.value];
    }
    r := Success(yearData);
  }

  // ---------------------------------------------------------------------
  // Properties of the weighted year average

  /** The year average exists exactly when some season has a non-zero average. */
  lemma YearAverageDefinedIff(m: map<Season, Energy>)
    ensures YearSeasonData(m).Success? <==> exists s :: Contributes(m, s)
  {
    YearTotalsByTerm(m);
    if exists s :: Contributes(m, s) {
      var s :| Contributes(m, s);
      assert YearDays(m, SeasonOrder) > 0 by {
        match s
        case Summer =>
        case Autumn =>
        case Winter =>
        case Spring =>
      }
    }
  }

  /** The weights of the contributing seasons add up to at most 365, and to 365 when all four contribute. */
  lemma YearDaysAtMost365(m: map<Season, Energy>)
    ensures YearDays(m, SeasonOrder) <= 365
    ensures (forall s :: Contributes(m, s)) ==> YearDays(m, SeasonOrder) == 365
  {
    YearTotalsByTerm(m);
    SeasonDaysAreCommonYearLengths(2001);
  }

  /** Weighted sums of values within [lo, hi] lie within [lo, hi] times the weight. */
  lemma {:induction false} YearSumWithin(m: map<Season, Energy>, ss: seq<Season>, lo: int, hi: int)
    requires forall s :: Contributes(m, s) ==> lo <= m[s] <= hi
    ensures lo * YearDays(m, ss) <= YearSum(m, ss) <= hi * YearDays(m, ss)
  {
    if |ss| > 0 {
      var init, s := ss[..|ss| - 1], ss[|ss| - 1];
      YearSumWithin(m, init, lo, hi);
      var d, t := YearDays(m, init), YearSum(m, init);
      if Contributes(m, s) {
        var w, v := SeasonDays(s), m[s];
        assert YearDays(m, ss) == d + w && YearSum(m, ss) == t + v * w;
        MulMonotone(lo, v, w);
        MulMonotone(v, hi, w);
        SplitProduct(lo, d, w);
        SplitProduct(hi, d, w);
      } else {
        assert YearDays(m, ss) == d && YearSum(m, ss) == t;
      }
    }
  }

  /** Distributing a product over a sum, kept apart so the loop lemma above stays linear. */
  lemma SplitProduct(a: int, d: int, w: int)
    ensures a * (d + w) == a * d + w * a
  {
  }

  /**
   * The year average lies between the smallest and the largest contributing
   * season average; if they all equal v, it is v.
   */
  lemma YearAverageBetween(m: map<Season, Energy>, lo: Energy, hi: Energy)
    requires YearSeasonData(m).Success?
    requires OnGrid(lo) && OnGrid(hi)
    requires forall s :: Contributes(m, s) ==> lo <= m[s] <= hi
    ensures lo <= YearSeasonData(m).value.yearAvg <= hi
  {
    YearSumWithin(m, SeasonOrder, lo, hi);
    RoundedMeanWithin(YearSum(m, SeasonOrder), YearDays(m, SeasonOrder), lo, hi);
  }

  /** Four seasons with the same non-zero average v give the year average v over 365 days. */
  lemma UniformSeasonsGiveThatAverage(v: Energy)
    requires v != 0 && OnGrid(v)
    ensures var m := map[Summer := v, Autumn := v, Winter := v, Spring := v];
            && YearSeasonData(m).Success?
            && YearSeasonData(m).value.yearAvg == v
            && YearSeasonData(m).value.yearSum == 365 * v
  {
    var m := map[Summer := v, Autumn := v, Winter := v, Spring := v];
    YearTotalsByTerm(m);
    RoundedMeanWithin(365 * v, 365, v, v);
  }

  /** A season whose average is exactly 0 counts as missing: the year figures are those without it. */
  lemma ZeroAverageCountsAsMissing(m: map<Season, Energy>, s: Season)
    requires s in m && m[s] == 0
    ensures Figure(m, s).total == None
    ensures YearSeasonData(m).Success? == YearSeasonData(m - {s}).Success?
    ensures YearSeasonData(m).Success? ==>
              && YearSeasonData(m).value.yearAvg == YearSeasonData(m - {s}).value.yearAvg
              && YearSeasonData(m).value.yearSum == YearSeasonData(m - {s}).value.yearSum
  {
    var m' := m - {s};
    assert forall t :: Contributes(m, t) <==> Contributes(m', t);
    assert forall t :: Contributes(m, t) ==> m[t] == m'[t];
    YearTotalsByTerm(m);
    YearTotalsByTerm(m');
  }
}
