/**
 * The seasonal aggregator: daily rows grouped by (season-year, season),
 * every field averaged over its group and rounded to 0.001 kWh.
 */
module Seasonal {
  import opened Calendar
  import opened Units
  import opened Daily

  /** A row of the seasonal summary table. */
  datatype SeasonRow = SeasonRow(
    nmi: string, year: int, season: Season,
    imp: Energy, exp: Energy,
    impMorning: Energy, impDay: Energy, impEvening: Energy, impNight: Energy)
  {
    function Key(): SeasonKey { SeasonKey(year, season) }
  }

  /** The fields of a daily row that are averaged. */
  datatype Column = ImpCol | ExpCol | MorningCol | DayCol | EveningCol | NightCol

  function ColumnOf(r: DailyRow, c: Column): Energy {
    match c
    case ImpCol => r.imp
    case ExpCol => r.exp
    case MorningCol => r.impMorning
    case DayCol => r.impDay
    case EveningCol => r.impEvening
    case NightCol => r.impNight
  }

  function SeasonColumnOf(r: SeasonRow, c: Column): Energy {
    match c
    case ImpCol => r.imp
    case ExpCol => r.exp
    case MorningCol => r.impMorning
    case DayCol => r.impDay
    case EveningCol => r.impEvening
    case NightCol => r.impNight
  }

  function KeyOf(r: DailyRow): SeasonKey {
    SeasonKeyOf(r.day)
  }

  /** Number of daily rows with key `k`. */
  function Count(rows: seq<DailyRow>, k: SeasonKey): nat
  {
    if |rows| == 0 then 0
    else Count(rows[..|rows| - 1], k) + (if KeyOf(rows[|rows| - 1]) == k then 1 else 0)
  }

  /** The list of one column's values over the rows with key `k`, in row order. */
  function Values(rows: seq<DailyRow>, k: SeasonKey, c: Column): (vs: seq<Energy>)
    ensures |vs| == Count(rows, k)
  {
    if |rows| == 0 then []
    else
      var init := Values(rows[..|rows| - 1], k, c);
      var last := rows[|rows| - 1];
      if KeyOf(last) == k then init + [ColumnOf(last, c)] else init
  }

  /** The keys that occur, in first-occurrence order (the key order of `imp_values`). */
  function SeasonKeys(rows: seq<DailyRow>): seq<SeasonKey>
  {
    if |rows| == 0 then []
    else
      var prev := SeasonKeys(rows[..|rows| - 1]);
      var k := KeyOf(rows[|rows| - 1]);
      if k !in prev then prev + [k] else prev
  }

  /** A key lists exactly when some row has it; then its group is non-empty. */
  lemma {:induction false} SeasonKeysExact(rows: seq<DailyRow>)
    ensures forall k :: k in SeasonKeys(rows) <==> exists i :: 0 <= i < |rows| && KeyOf(rows[i]) == k
    ensures forall k :: k in SeasonKeys(rows) <==> Count(rows, k) > 0
    ensures forall i, j :: 0 <= i < j < |SeasonKeys(rows)| ==> SeasonKeys(rows)[i] != SeasonKeys(rows)[j]
  {
    if |rows| > 0 {
      var init := rows[..|rows| - 1];
      SeasonKeysExact(init);
      forall k | exists i :: 0 <= i < |rows| && KeyOf(rows[i]) == k
        ensures k in SeasonKeys(rows)
      {
        var i :| 0 <= i < |rows| && KeyOf(rows[i]) == k;
        if i < |init| {
          assert KeyOf(init[i]) == k;
        }
      }
      forall k | k in SeasonKeys(rows)
        ensures exists i :: 0 <= i < |rows| && KeyOf(rows[i]) == k
      {
        if k in SeasonKeys(init) {
          var i :| 0 <= i < |init| && KeyOf(init[i]) == k;
          assert KeyOf(rows[i]) == k;
        } else {
          assert KeyOf(rows[|rows| - 1]) == k;
        }
      }
    }
  }

  /** The summary row of group `k`: `round(mean(values), 3)` for every column. */
  function RowFor(nmi: string, rows: seq<DailyRow>, k: SeasonKey): (item: SeasonRow)
    requires Count(rows, k) > 0
    ensures item.nmi == nmi && item.Key() == k
    ensures forall c :: OnGrid(SeasonColumnOf(item, c)) &&
              -(Grid * Count(rows, k)) <= 2 * (Sum(Values(rows, k, c)) - SeasonColumnOf(item, c) * Count(rows, k)) <= Grid * Count(rows, k)
  {
    var n := Count(rows, k);
    SeasonRow(nmi, k.year, k.season,
      RoundedMean(Sum(Values(rows, k, ImpCol)), n),
      RoundedMean(Sum(Values(rows, k, ExpCol)), n),
      RoundedMean(Sum(Values(rows, k, MorningCol)), n),
      RoundedMean(Sum(Values(rows, k, DayCol)), n),
      RoundedMean(Sum(Values(rows, k, EveningCol)), n),
      RoundedMean(Sum(Values(rows, k, NightCol)), n))
  }

  /** The rows `calc_seasonal_summary` yields for the daily rows `rows` of one metering point. */
  function SeasonalSummary(nmi: string, rows: seq<DailyRow>): (items: seq<SeasonRow>)
    ensures |items| == |SeasonKeys(rows)|
    ensures forall j :: 0 <= j < |items| ==> items[j].nmi == nmi && items[j].Key() == SeasonKeys(rows)[j]
  {
    var keys := SeasonKeys(rows);
    SeasonKeysExact(rows);
    seq(|keys|, j requires 0 <= j < |keys| => RowFor(nmi, rows, keys[j]))
  }

  // ---------------------------------------------------------------------
  // The aggregator

  /** The five import lists of one key (`imp_values[key]`). */
  datatype ImpLists = ImpLists(total: seq<Energy>, morning: seq<Energy>, day: seq<Energy>,
                               evening: seq<Energy>, night: seq<Energy>)

  function ImpListsOf(rows: seq<DailyRow>, k: SeasonKey): ImpLists {
    ImpLists(Values(rows, k, ImpCol), Values(rows, k, MorningCol), Values(rows, k, DayCol),
             Values(rows, k, EveningCol), Values(rows, k, NightCol))
  }

  ghost predicate Grouped(seen: seq<DailyRow>, impValues: map<SeasonKey, ImpLists>,
                          expValues: map<SeasonKey, seq<Energy>>, keys: seq<SeasonKey>)
  {
    && keys == SeasonKeys(seen)
    && (forall k :: k in impValues <==> k in keys)
    && (forall k :: k in expValues <==> k in keys)
    && (forall k :: k in impValues ==> impValues[k] == ImpListsOf(seen, k))
    && (forall k :: k in expValues ==> expValues[k] == Values(seen, k, ExpCol))
  }

  lemma {:induction false} AbsentKeyHasNoValues(rows: seq<DailyRow>, k: SeasonKey, c: Column)
    requires k !in SeasonKeys(rows)
    ensures Values(rows, k, c) == []
  {
    if |rows| > 0 {
      var init := rows[..|rows| - 1];
      assert SeasonKeys(init) <= SeasonKeys(rows);
      AbsentKeyHasNoValues(init, k, c);
    }
  }

  /** The body of the grouping loop: append the row's fields to the lists of its key. */
  method AddRow(impValues: map<SeasonKey, ImpLists>, expValues: map<SeasonKey, seq<Energy>>,
                keys: seq<SeasonKey>, ghost seen: seq<DailyRow>, row: DailyRow)
    returns (impValues': map<SeasonKey, ImpLists>, expValues': map<SeasonKey, seq<Energy>>, keys': seq<SeasonKey>)
    requires Grouped(seen, impValues, expValues, keys)
    ensures Grouped(seen + [row], impValues', expValues', keys')
  {
    ghost var next := seen + [row];
    var season := SeasonOf(row.day.month);
    var year := if row.day.month == 12 then row.day.year + 1 else row.day.year;
    var key := SeasonKey(year, season);
    assert key == KeyOf(row);
    var lists := ImpLists([], [], [], [], []);
    var exps: seq<Energy> := [];
    keys' := keys;
    if key in impValues {
      lists := impValues[key];
      exps := expValues[key];
    } else {
      keys' := keys + [key];
      AbsentKeyHasNoValues(seen, key, ImpCol);
      AbsentKeyHasNoValues(seen, key, ExpCol);
      AbsentKeyHasNoValues(seen, key, MorningCol);
      AbsentKeyHasNoValues(seen, key, DayCol);
      AbsentKeyHasNoValues(seen, key, EveningCol);
      AbsentKeyHasNoValues(seen, key, NightCol);
    }
    assert lists == ImpListsOf(seen, key) && exps == Values(seen, key, ExpCol);
    SeasonKeysStep(seen, row);
    assert keys' == SeasonKeys(next);
    impValues' := impValues[key := ImpLists(
      lists.total + [row.imp], lists.morning + [row.impMorning], lists.day + [row.impDay],
      lists.evening + [row.impEvening], lists.night + [row.impNight])];
    expValues' := expValues[key := exps + [row.exp]];
    forall k | k in impValues'
      ensures impValues'[k] == ImpListsOf(next, k)
    {
      ValuesStep(seen, row, k, ImpCol);
      ValuesStep(seen, row, k, MorningCol);
      ValuesStep(seen, row, k, DayCol);
      ValuesStep(seen, row, k, EveningCol);
      ValuesStep(seen, row, k, NightCol);
    }
    forall k | k in expValues'
      ensures expValues'[k] == Values(next, k, ExpCol)
    {
      ValuesStep(seen, row, k, ExpCol);
    }
  }

  /** One more row adds its key to the key list if the key is new. */
  lemma SeasonKeysStep(seen: seq<DailyRow>, row: DailyRow)
    ensures SeasonKeys(seen + [row]) == if KeyOf(row) in SeasonKeys(seen) then SeasonKeys(seen) else SeasonKeys(seen) + [KeyOf(row)]
  {
    assert (seen + [row])[..|seen|] == seen;
  }

  /** One more row extends the list of its own key and no other. */
  lemma ValuesStep(seen: seq<DailyRow>, row: DailyRow, k: SeasonKey, c: Column)
    ensures Values(seen + [row], k, c) == if KeyOf(row) == k then Values(seen, k, c) + [ColumnOf(row, c)] else Values(seen, k, c)
  {
    assert (seen + [row])[..|seen|] == seen;
  }

  /** The averaging loop: one item per key of `imp_values`, in key order. */
  method EmitItems(nmi: string, impValues: map<SeasonKey, ImpLists>, expValues: map<SeasonKey, seq<Energy>>,
                   keys: seq<SeasonKey>, ghost rows: seq<DailyRow>)
    returns (items: seq<SeasonRow>)
    requires Grouped(rows, impValues, expValues, keys)
    ensures |items| == |keys|
    ensures forall j :: 0 <= j < |keys| ==> Count(rows, keys[j]) > 0 && items[j] == RowFor(nmi, rows, keys[j])
  {
    SeasonKeysExact(rows);
    items := [];
    for j := 0 to |keys|
      invariant |items| == j
      invariant forall n :: 0 <= n < j ==> Count(rows, keys[n]) > 0 && items[n] == RowFor(nmi, rows, keys[n])
    {
      var key := keys[j];
      assert key in keys;
      var lists := impValues[key];
      assert lists == ImpListsOf(rows, key);
      var n := |lists.total|;
      assert n == Count(rows, key) > 0;
      var imp := RoundedMean(Sum(lists.total), n);
      var imp1 := RoundedMean(Sum(lists.morning), n);
      var imp2 := RoundedMean(Sum(lists.day), n);
      var imp3 := RoundedMean(Sum(lists.evening), n);
      var imp4 := RoundedMean(Sum(lists.night), n);
      var exp := RoundedMean(Sum(expValues[key]), n);
      var item := SeasonRow(nmi, key.year, key.season, imp, exp, imp1, imp2, imp3, imp4);
      assert item == RowFor(nmi, rows, key);
      items := items + [item];
    }
  }

  /** `calc_seasonal_summary` over the daily rows `rows` of metering point `nmi`, in store order. */
  method CalcSeasonalSummary(nmi: string, rows: seq<DailyRow>) returns (items: seq<SeasonRow>)
    ensures items == SeasonalSummary(nmi, rows)
  {
    var impValues: map<SeasonKey, ImpLists> := map[];
    var expValues: map<SeasonKey, seq<Energy>> := map[];
    var keys: seq<SeasonKey> := [];
    for i := 0 to |rows|
      invariant Grouped(rows[..i], impValues, expValues, keys)
    {
      assert rows[..i + 1] == rows[..i] + [rows[i]];
      impValues, expValues, keys := AddRow(impValues, expValues, keys, rows[..i], rows[i]);
    }
    assert rows[..|rows|] == rows;
    items := EmitItems(nmi, impValues, expValues, keys, rows);
    var spec := SeasonalSummary(nmi, rows);
    assert |items| == |spec|;
    forall j | 0 <= j < |items|
      ensures items[j] == spec[j]
    {
    }
  }
}

/** What the seasonal summary says about the daily rows it was computed from. */
module SeasonalProperties {
  import opened Calendar
  import opened Units
  import opened Daily
  import opened Seasonal

  /**
   * The summary has exactly one item per (season-year, season) key that
   * some daily row has, and no two items share a key.
   */
  lemma OneItemPerSeasonKey(nmi: string, rows: seq<DailyRow>, k: SeasonKey)
    ensures (exists j :: 0 <= j < |SeasonalSummary(nmi, rows)| && SeasonalSummary(nmi, rows)[j].Key() == k)
              <==> (exists i :: 0 <= i < |rows| && SeasonKeyOf(rows[i].day) == k)
    ensures forall i, j :: 0 <= i < j < |SeasonalSummary(nmi, rows)| ==>
              SeasonalSummary(nmi, rows)[i].Key() != SeasonalSummary(nmi, rows)[j].Key()
  {
    var items := SeasonalSummary(nmi, rows);
    var keys := SeasonKeys(rows);
    SeasonKeysExact(rows);
    KeyListed(rows, k);
    if exists j :: 0 <= j < |items| && items[j].Key() == k {
      var j :| 0 <= j < |items| && items[j].Key() == k;
      assert keys[j] == k;
    }
    if exists j :: 0 <= j < |keys| && keys[j] == k {
      var j :| 0 <= j < |keys| && keys[j] == k;
      assert items[j].Key() == k;
    }
  }

  /** A key is listed exactly when the date of some daily row has it. */
  lemma KeyListed(rows: seq<DailyRow>, k: SeasonKey)
    ensures (exists j :: 0 <= j < |SeasonKeys(rows)| && SeasonKeys(rows)[j] == k)
              <==> (exists i :: 0 <= i < |rows| && SeasonKeyOf(rows[i].day) == k)
  {
    var keys := SeasonKeys(rows);
    SeasonKeysExact(rows);
    if exists j :: 0 <= j < |keys| && keys[j] == k {
      var j :| 0 <= j < |keys| && keys[j] == k;
      assert k in keys;
      var i :| 0 <= i < |rows| && KeyOf(rows[i]) == k;
      assert SeasonKeyOf(rows[i].day) == k;
      assert exists i :: 0 <= i < |rows| && SeasonKeyOf(rows[i].day) == k;
    }
    if exists i :: 0 <= i < |rows| && SeasonKeyOf(rows[i].day) == k {
      var i :| 0 <= i < |rows| && SeasonKeyOf(rows[i].day) == k;
      assert KeyOf(rows[i]) == k;
      assert k in keys;
      var j :| 0 <= j < |keys| && keys[j] == k;
      assert exists j :: 0 <= j < |SeasonKeys(rows)| && SeasonKeys(rows)[j] == k;
    }
  }

  /** Every value of a group comes from a daily row with that key. */
  lemma {:induction false} ValuesComeFromGroup(rows: seq<DailyRow>, k: SeasonKey, c: Column, m: int)
    requires 0 <= m < |Values(rows, k, c)|
    ensures exists i :: 0 <= i < |rows| && KeyOf(rows[i]) == k && ColumnOf(rows[i], c) == Values(rows, k, c)[m]
  {
    var init := rows[..|rows| - 1];
    var last := rows[|rows| - 1];
    if m < |Values(init, k, c)| {
      ValuesComeFromGroup(init, k, c, m);
      var i :| 0 <= i < |init| && KeyOf(init[i]) == k && ColumnOf(init[i], c) == Values(init, k, c)[m];
      assert rows[i] == init[i];
    } else {
      assert KeyOf(last) == k && Values(rows, k, c)[m] == ColumnOf(last, c);
    }
  }

  /**
   * Each field of an item is the mean of that field over the item's group,
   * rounded to the 0.001 kWh grid: within half a grid step of the exact mean.
   */
  lemma SeasonalFieldIsRoundedMean(nmi: string, rows: seq<DailyRow>, j: int, c: Column)
    requires 0 <= j < |SeasonalSummary(nmi, rows)|
    ensures var item := SeasonalSummary(nmi, rows)[j];
            var n := Count(rows, item.Key());
            var v := SeasonColumnOf(item, c);
            && n > 0
            && OnGrid(v)
            && -(Grid * n) <= 2 * (Sum(Values(rows, item.Key(), c)) - v * n) <= Grid * n
  {
    SeasonKeysExact(rows);
    var k := SeasonKeys(rows)[j];
    assert SeasonalSummary(nmi, rows)[j] == Seasonal.RowFor(nmi, rows, k);
  }

  /**
   * If every daily row of a group has the field within [lo, hi] (0.001 kWh
   * values), the item's field is within [lo, hi]; in particular a group whose
   * rows all agree on a value gets exactly that value.
   */
  lemma SeasonalMeanBetween(nmi: string, rows: seq<DailyRow>, j: int, c: Column, lo: Energy, hi: Energy)
    requires 0 <= j < |SeasonalSummary(nmi, rows)|
    requires OnGrid(lo) && OnGrid(hi)
    requires forall i :: 0 <= i < |rows| && KeyOf(rows[i]) == SeasonalSummary(nmi, rows)[j].Key() ==>
               lo <= ColumnOf(rows[i], c) <= hi
    ensures lo <= SeasonColumnOf(SeasonalSummary(nmi, rows)[j], c) <= hi
  {
    SeasonKeysExact(rows);
    var k := SeasonKeys(rows)[j];
    assert SeasonalSummary(nmi, rows)[j] == Seasonal.RowFor(nmi, rows, k);
    var vs := Values(rows, k, c);
    forall m | 0 <= m < |vs|
      ensures lo <= vs[m] <= hi
    {
      ValuesComeFromGroup(rows, k, c, m);
    }
    SumWithin(vs, lo, hi);
    RoundedMeanWithin(Sum(vs), Count(rows, k), lo, hi);
  }

  // ---------------------------------------------------------------------
  // Independence from the order of the daily rows

  lemma {:induction false} CountAppend(a: seq<DailyRow>, b: seq<DailyRow>, k: SeasonKey)
    ensures Count(a + b, k) == Count(a, k) + Count(b, k)
  {
    if |b| > 0 {
      assert (a + b)[..|a + b| - 1] == a + b[..|b| - 1];
      CountAppend(a, b[..|b| - 1], k);
    } else {
      assert a + b == a;
    }
  }

  lemma {:induction false} ValuesAppend(a: seq<DailyRow>, b: seq<DailyRow>, k: SeasonKey, c: Column)
    ensures Values(a + b, k, c) == Values(a, k, c) + Values(b, k, c)
  {
    if |b| > 0 {
      assert (a + b)[..|a + b| - 1] == a + b[..|b| - 1];
      ValuesAppend(a, b[..|b| - 1], k, c);
    } else {
      assert a + b == a;
    }
  }

  /** Count and group total split around one row. */
  lemma SplitAt(rows: seq<DailyRow>, i: int, k: SeasonKey, c: Column)
    requires 0 <= i < |rows|
    ensures var rest := rows[..i] + rows[i + 1..];
            && Count(rows, k) == Count(rest, k) + Count([rows[i]], k)
            && Sum(Values(rows, k, c)) == Sum(Values(rest, k, c)) + Sum(Values([rows[i]], k, c))
  {
    var a, b := rows[..i], rows[i + 1..];
    assert rows == a + [rows[i]] + b;
    CountAppend(a + [rows[i]], b, k);
    CountAppend(a, [rows[i]], k);
    CountAppend(a, b, k);
    ValuesAppend(a + [rows[i]], b, k, c);
    ValuesAppend(a, [rows[i]], k, c);
    ValuesAppend(a, b, k, c);
    SumAppend(Values(a, k, c) + Values([rows[i]], k, c), Values(b, k, c));
    SumAppend(Values(a, k, c), Values([rows[i]], k, c));
    SumAppend(Values(a, k, c), Values(b, k, c));
  }

  /** The last row of `rows1` sits somewhere in a permutation `rows2`; the rest match up. */
  lemma MatchLast(rows1: seq<DailyRow>, rows2: seq<DailyRow>) returns (i: int)
    requires multiset(rows1) == multiset(rows2) && |rows1| > 0
    ensures 0 <= i < |rows2| && rows2[i] == rows1[|rows1| - 1]
    ensures multiset(rows1[..|rows1| - 1]) == multiset(rows2[..i] + rows2[i + 1..])
  {
    var init, last := rows1[..|rows1| - 1], rows1[|rows1| - 1];
    assert rows1 == init + [last];
    assert last in multiset(rows2);
    i :| 0 <= i < |rows2| && rows2[i] == last;
    var rest := rows2[..i] + rows2[i + 1..];
    assert rows2 == rows2[..i] + [last] + rows2[i + 1..];
    assert multiset(rest) == multiset(rows2) - multiset{last};
    assert multiset(init) == multiset(rows1) - multiset{last};
  }

  /** Reordering the daily rows changes neither a group's size nor its totals. */
  lemma {:induction false} GroupsIgnoreRowOrder(rows1: seq<DailyRow>, rows2: seq<DailyRow>, k: SeasonKey, c: Column)
    requires multiset(rows1) == multiset(rows2)
    ensures Count(rows1, k) == Count(rows2, k)
    ensures Sum(Values(rows1, k, c)) == Sum(Values(rows2, k, c))
  {
    if |rows1| == 0 {
      assert |rows2| == |multiset(rows2)| == 0;
    } else {
      var n := |rows1| - 1;
      var i := MatchLast(rows1, rows2);
      GroupsIgnoreRowOrder(rows1[..n], rows2[..i] + rows2[i + 1..], k, c);
      SplitAt(rows2, i, k, c);
      SplitAt(rows1, n, k, c);
      assert rows1[..n] + rows1[n + 1..] == rows1[..n];
    }
  }

  /**
   * The items do not depend on the order in which the daily rows are
   * listed: the same rows in another order give the same items (only their
   * order, which follows first occurrence, can differ).
   */
  lemma SummaryIgnoresRowOrder(nmi: string, rows1: seq<DailyRow>, rows2: seq<DailyRow>)
    requires multiset(rows1) == multiset(rows2)
    ensures forall item :: item in SeasonalSummary(nmi, rows1) <==> item in SeasonalSummary(nmi, rows2)
  {
    forall item | item in SeasonalSummary(nmi, rows1)
      ensures item in SeasonalSummary(nmi, rows2)
    {
      ItemCarriesOver(nmi, rows1, rows2, item);
    }
    forall item | item in SeasonalSummary(nmi, rows2)
      ensures item in SeasonalSummary(nmi, rows1)
    {
      ItemCarriesOver(nmi, rows2, rows1, item);
    }
  }

  lemma ItemCarriesOver(nmi: string, rows1: seq<DailyRow>, rows2: seq<DailyRow>, item: SeasonRow)
    requires multiset(rows1) == multiset(rows2)
    requires item in SeasonalSummary(nmi, rows1)
    ensures item in SeasonalSummary(nmi, rows2)
  {
    SeasonKeysExact(rows1);
    SeasonKeysExact(rows2);
    var items1 := SeasonalSummary(nmi, rows1);
    var j :| 0 <= j < |items1| && items1[j] == item;
    var k := SeasonKeys(rows1)[j];
    assert item == Seasonal.RowFor(nmi, rows1, k);
    GroupsIgnoreRowOrder(rows1, rows2, k, ImpCol);
    GroupsIgnoreRowOrder(rows1, rows2, k, ExpCol);
    GroupsIgnoreRowOrder(rows1, rows2, k, MorningCol);
    GroupsIgnoreRowOrder(rows1, rows2, k, DayCol);
    GroupsIgnoreRowOrder(rows1, rows2, k, EveningCol);
    GroupsIgnoreRowOrder(rows1, rows2, k, NightCol);
    assert k in SeasonKeys(rows2);
    var j2 :| 0 <= j2 < |SeasonKeys(rows2)| && SeasonKeys(rows2)[j2] == k;
    assert SeasonalSummary(nmi, rows2)[j2] == Seasonal.RowFor(nmi, rows2, k);
  }
}
