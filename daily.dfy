/**
 * The daily aggregator: one summary row per calendar day that has import
 * readings, with the import split into the four time-of-day buckets and the
 * export summed separately.
 */
module Daily {
  import opened Calendar
  import opened Units
  import opened Readings

  /** A row of the daily summary table. */
  datatype DailyRow = DailyRow(
    nmi: string, day: Date,
    imp: Energy, exp: Energy,
    impMorning: Energy, impDay: Energy, impEvening: Energy, impNight: Energy)

  /** The four time-of-day accumulators of one day (`imp_values[day]`). */
  datatype Buckets = Buckets(morning: Energy, day: Energy, evening: Energy, night: Energy)
  {
    function Get(p: Period): Energy {
      match p
      case Morning => morning
      case Day => day
      case Evening => evening
      case Night => night
    }

    function Add(p: Period, v: Energy): Buckets {
      match p
      case Morning => this.(morning := morning + v)
      case Day => this.(day := day + v)
      case Evening => this.(evening := evening + v)
      case Night => this.(night := night + v)
    }
  }

  const NoBuckets := Buckets(0, 0, 0, 0)

  // ---------------------------------------------------------------------
  // What the accumulators hold after a prefix of the readings

  predicate IsImportIn(t: Tagged, d: Date, p: Period) {
    !t.feedIn && t.reading.start.date == d && TimeOfDay(t.reading.start.hour) == p
  }

  predicate IsImportOn(t: Tagged, d: Date) {
    !t.feedIn && t.reading.start.date == d
  }

  predicate IsExportOn(t: Tagged, d: Date) {
    t.feedIn && t.reading.start.date == d
  }

  /** Total of the import readings of day `d` in period `p`. */
  function ImportSum(s: seq<Tagged>, d: Date, p: Period): Energy
  {
    if |s| == 0 then 0
    else ImportSum(s[..|s| - 1], d, p) + (if IsImportIn(s[|s| - 1], d, p) then s[|s| - 1].reading.value else 0)
  }

  /** Total of all import readings of day `d`. */
  function DayImport(s: seq<Tagged>, d: Date): Energy
  {
    if |s| == 0 then 0
    else DayImport(s[..|s| - 1], d) + (if IsImportOn(s[|s| - 1], d) then s[|s| - 1].reading.value else 0)
  }

  /** Total of the export readings of day `d`. */
  function ExportSum(s: seq<Tagged>, d: Date): Energy
  {
    if |s| == 0 then 0
    else ExportSum(s[..|s| - 1], d) + (if IsExportOn(s[|s| - 1], d) then s[|s| - 1].reading.value else 0)
  }

  function BucketsOf(s: seq<Tagged>, d: Date): Buckets {
    Buckets(ImportSum(s, d, Morning), ImportSum(s, d, Day), ImportSum(s, d, Evening), ImportSum(s, d, Night))
  }

  /** The days that have import readings, in the order they first appear (the key order of `imp_values`). */
  function ImportDays(s: seq<Tagged>): seq<Date>
  {
    if |s| == 0 then []
    else
      var prev := ImportDays(s[..|s| - 1]);
      var t := s[|s| - 1];
      if !t.feedIn && t.reading.start.date !in prev then prev + [t.reading.start.date] else prev
  }

  /** A day with no import reading has empty buckets. */
  lemma {:induction false} AbsentDayHasNoImport(s: seq<Tagged>, d: Date)
    requires d !in ImportDays(s)
    ensures BucketsOf(s, d) == NoBuckets
  {
    if |s| > 0 {
      var init := s[..|s| - 1];
      assert ImportDays(init) <= ImportDays(s);
      AbsentDayHasNoImport(init, d);
    }
  }

  /** The row written for day `d`: every bucket rounded, the total the sum of the rounded buckets. */
  function RowFor(nmi: string, s: seq<Tagged>, d: Date): (row: DailyRow)
    ensures row.nmi == nmi && row.day == d
    ensures row.imp == row.impMorning + row.impDay + row.impEvening + row.impNight
    ensures OnGrid(row.imp) && OnGrid(row.exp)
    ensures OnGrid(row.impMorning) && OnGrid(row.impDay) && OnGrid(row.impEvening) && OnGrid(row.impNight)
    ensures -Grid <= 2 * (ImportSum(s, d, Morning) - row.impMorning) <= Grid
    ensures -Grid <= 2 * (ImportSum(s, d, Day) - row.impDay) <= Grid
    ensures -Grid <= 2 * (ImportSum(s, d, Evening) - row.impEvening) <= Grid
    ensures -Grid <= 2 * (ImportSum(s, d, Night) - row.impNight) <= Grid
    ensures -Grid <= 2 * (ExportSum(s, d) - row.exp) <= Grid
  {
    var imp1 := Round3(ImportSum(s, d, Morning));
    var imp2 := Round3(ImportSum(s, d, Day));
    var imp3 := Round3(ImportSum(s, d, Evening));
    var imp4 := Round3(ImportSum(s, d, Night));
    DailyRow(nmi, d, imp1 + imp2 + imp3 + imp4, Round3(ExportSum(s, d)), imp1, imp2, imp3, imp4)
  }

  /**
   * The rows `calc_daily_summary` yields for one metering point whose
   * channels (with their readings) are `chs`.
   */
  function DailySummary(nmi: string, chs: seq<ChannelReadings>): (rows: seq<DailyRow>)
    ensures forall k :: 0 <= k < |rows| ==>
              rows[k].nmi == nmi &&
              rows[k].imp == rows[k].impMorning + rows[k].impDay + rows[k].impEvening + rows[k].impNight
  {
    var s := Flatten(chs);
    var days := ImportDays(s);
    seq(|days|, k requires 0 <= k < |days| => RowFor(nmi, s, days[k]))
  }

  // ---------------------------------------------------------------------
  // The aggregator

  function ExportGet(expValues: map<Date, Energy>, d: Date): Energy {
    if d in expValues then expValues[d] else 0
  }

  /**
   * The accumulators `imp_values` (with its key order `days`) and
   * `exp_values` hold exactly the sums of the readings visited so far.
   */
  ghost predicate Accumulated(seen: seq<Tagged>, impValues: map<Date, Buckets>,
                              expValues: map<Date, Energy>, days: seq<Date>)
  {
    && days == ImportDays(seen)
    && (forall d :: d in impValues <==> d in days)
    && (forall d :: d in impValues ==> impValues[d] == BucketsOf(seen, d))
    && (forall d :: ExportGet(expValues, d) == ExportSum(seen, d))
  }

  /** The body of the reading loop: add one reading of a channel to the accumulators. */
  method AddReading(impValues: map<Date, Buckets>, expValues: map<Date, Energy>, days: seq<Date>,
                    ghost seen: seq<Tagged>, feedIn: bool, read: Reading)
    returns (impValues': map<Date, Buckets>, expValues': map<Date, Energy>, days': seq<Date>)
    requires Accumulated(seen, impValues, expValues, days)
    ensures Accumulated(seen + [Tagged(feedIn, read)], impValues', expValues', days')
  {
    ghost var next := seen + [Tagged(feedIn, read)];
    assert next[..|next| - 1] == seen;
    var day := read.start.date;
    impValues', expValues', days' := impValues, expValues, days;
    if feedIn {
      expValues' := expValues[day := ExportGet(expValues, day) + read.value];
    } else {
      var tod := TimeOfDay(read.start.hour);
      if day !in impValues {
        AbsentDayHasNoImport(seen, day);
        days' := days + [day];
        impValues' := impValues[day := NoBuckets];
      }
      impValues' := impValues'[day := impValues'[day].Add(tod, read.value)];
      assert impValues'[day] == BucketsOf(next, day);
    }
  }

  /** The emitting loop: one row per key of `imp_values`, in key order. */
  method EmitRows(nmi: string, impValues: map<Date, Buckets>, expValues: map<Date, Energy>,
                  days: seq<Date>, ghost seen: seq<Tagged>)
    returns (rows: seq<DailyRow>)
    requires Accumulated(seen, impValues, expValues, days)
    ensures rows == seq(|days|, k requires 0 <= k < |days| => RowFor(nmi, seen, days[k]))
  {
    rows := [];
    for k := 0 to |days|
      invariant rows == seq(k, n requires 0 <= n < k => RowFor(nmi, seen, days[n]))
    {
      var day := days[k];
      var b := impValues[day];
      var imp1 := Round3(b.morning);
      var imp2 := Round3(b.day);
      var imp3 := Round3(b.evening);
      var imp4 := Round3(b.night);
      var imp := imp1 + imp2 + imp3 + imp4;
      var exp := Round3(ExportGet(expValues, day));
      rows := rows + [DailyRow(nmi, day, imp, exp, imp1, imp2, imp3, imp4)];
    }
  }

  /** `calc_daily_summary`. */
  method CalcDailySummary(nmi: string, chs: seq<ChannelReadings>) returns (rows: seq<DailyRow>)
    ensures rows == DailySummary(nmi, chs)
  {
    var impValues: map<Date, Buckets> := map[];
    var expValues: map<Date, Energy> := map[];
    var days: seq<Date> := [];
    ghost var seen: seq<Tagged> := [];
    for i := 0 to |chs|
      invariant seen == Flatten(chs[..i])
      invariant Accumulated(seen, impValues, expValues, days)
    {
      var ch := chs[i];
      var feedIn := IsFeedIn(ch.channel);
      assert chs[..i + 1][..i] == chs[..i];
      ghost var before := seen;
      for j := 0 to |ch.readings|
        invariant seen == before + Tag(ch)[..j]
        invariant Accumulated(seen, impValues, expValues, days)
      {
        var read := ch.readings[j];
        assert Tag(ch)[..j + 1] == Tag(ch)[..j] + [Tagged(feedIn, read)];
        impValues, expValues, days := AddReading(impValues, expValues, days, seen, feedIn, read);
        seen := seen + [Tagged(feedIn, read)];
      }
      assert Tag(ch)[..|ch.readings|] == Tag(ch);
    }
    assert chs[..|chs|] == chs;
    rows := EmitRows(nmi, impValues, expValues, days, seen);
  }
}

/** Properties of the daily summary, stated against the readings. */
module DailyProperties {
  import opened Calendar
  import opened Units
  import opened Readings
  import opened Daily

  /** Some reading of a non-export channel starts on day `d`. */
  ghost predicate HasImportReading(chs: seq<ChannelReadings>, d: Date) {
    exists c, r :: c in chs && r in c.readings && !IsFeedIn(c.channel) && r.start.date == d
  }

  /** Some reading of the export channel starts on day `d`. */
  ghost predicate HasExportReading(chs: seq<ChannelReadings>, d: Date) {
    exists c, r :: c in chs && r in c.readings && IsFeedIn(c.channel) && r.start.date == d
  }

  /** `ImportDays` lists each day with an import reading exactly once. */
  lemma {:induction false} ImportDaysExact(s: seq<Tagged>)
    ensures forall d :: d in ImportDays(s) <==> exists i :: 0 <= i < |s| && IsImportOn(s[i], d)
    ensures forall i, j :: 0 <= i < j < |ImportDays(s)| ==> ImportDays(s)[i] != ImportDays(s)[j]
  {
    if |s| > 0 {
      var init := s[..|s| - 1];
      ImportDaysExact(init);
      forall d | exists i :: 0 <= i < |s| && IsImportOn(s[i], d)
        ensures d in ImportDays(s)
      {
        var i :| 0 <= i < |s| && IsImportOn(s[i], d);
        if i < |init| {
          assert IsImportOn(init[i], d);
        }
      }
      forall d | d in ImportDays(s)
        ensures exists i :: 0 <= i < |s| && IsImportOn(s[i], d)
      {
        if d in ImportDays(init) {
          var i :| 0 <= i < |init| && IsImportOn(init[i], d);
          assert IsImportOn(s[i], d);
        } else {
          assert IsImportOn(s[|s| - 1], d);
        }
      }
    }
  }

  /**
   * `calc_daily_summary` yields exactly one row per day that has at least
   * one import reading: no day twice, and no row for a day whose only
   * readings are on the export channel.
   */
  lemma OneRowPerImportDay(nmi: string, chs: seq<ChannelReadings>, d: Date)
    ensures (exists k :: 0 <= k < |DailySummary(nmi, chs)| && DailySummary(nmi, chs)[k].day == d)
              <==> HasImportReading(chs, d)
    ensures forall i, j :: 0 <= i < j < |DailySummary(nmi, chs)| ==>
              DailySummary(nmi, chs)[i].day != DailySummary(nmi, chs)[j].day
  {
    var s := Flatten(chs);
    var days := ImportDays(s);
    var rows := DailySummary(nmi, chs);
    ImportDaysExact(s);
    ImportDayListed(chs, d);
    assert forall k :: 0 <= k < |rows| ==> rows[k].day == days[k];
    if d in days {
      var k :| 0 <= k < |days| && days[k] == d;
      assert rows[k].day == d;
    }
  }

  /** A day is listed exactly when a reading of an import channel starts on it. */
  lemma ImportDayListed(chs: seq<ChannelReadings>, d: Date)
    ensures d in ImportDays(Flatten(chs)) <==> HasImportReading(chs, d)
  {
    var s := Flatten(chs);
    ImportDaysExact(s);
    if HasImportReading(chs, d) {
      var c, r :| c in chs && r in c.readings && !IsFeedIn(c.channel) && r.start.date == d;
      FlattenClassifiesByChannel(chs, Tagged(false, r));
      var i :| 0 <= i < |s| && s[i] == Tagged(false, r);
      assert IsImportOn(s[i], d);
    }
    if d in ImportDays(s) {
      var i :| 0 <= i < |s| && IsImportOn(s[i], d);
      FlattenClassifiesByChannel(chs, s[i]);
    }
  }

  /** The four period totals of a day add up to the day's import. */
  lemma {:induction false} PeriodsCoverDay(s: seq<Tagged>, d: Date)
    ensures DayImport(s, d) ==
              ImportSum(s, d, Morning) + ImportSum(s, d, Day) + ImportSum(s, d, Evening) + ImportSum(s, d, Night)
  {
    if |s| > 0 {
      PeriodsCoverDay(s[..|s| - 1], d);
    }
  }

  /** Without an export reading on a day, the day's export sum is zero. */
  lemma {:induction false} NoExportReadingsSumToZero(s: seq<Tagged>, d: Date)
    requires forall i :: 0 <= i < |s| ==> !IsExportOn(s[i], d)
    ensures ExportSum(s, d) == 0
  {
    if |s| > 0 {
      NoExportReadingsSumToZero(s[..|s| - 1], d);
    }
  }

  /**
   * Each row's total import is the sum of its rounded buckets, and lies
   * within 4 x 0.0005 kWh of the exact import of the day; its export lies
   * within 0.0005 kWh of the day's export readings, and is 0 on a day
   * without export readings.
   */
  lemma RowMatchesReadings(nmi: string, chs: seq<ChannelReadings>, k: int)
    requires 0 <= k < |DailySummary(nmi, chs)|
    ensures var row := DailySummary(nmi, chs)[k];
      && row.imp == row.impMorning + row.impDay + row.impEvening + row.impNight
      && -2 * Grid <= row.imp - DayImport(Flatten(chs), row.day) <= 2 * Grid
      && -Grid <= 2 * (row.exp - ExportSum(Flatten(chs), row.day)) <= Grid
      && (!HasExportReading(chs, row.day) ==> row.exp == 0)
  {
    var s := Flatten(chs);
    var row := DailySummary(nmi, chs)[k];
    var d := row.day;
    PeriodsCoverDay(s, d);
    if !HasExportReading(chs, d) {
      forall i | 0 <= i < |s|
        ensures !IsExportOn(s[i], d)
      {
        FlattenClassifiesByChannel(chs, s[i]);
        assert s[i] in s;
      }
      NoExportReadingsSumToZero(s, d);
    }
  }

  /** Appending export readings leaves the import days and buckets as they were. */
  lemma {:induction false} ExportReadingsKeepImports(s: seq<Tagged>, e: seq<Tagged>, d: Date, p: Period)
    requires forall i :: 0 <= i < |e| ==> e[i].feedIn
    ensures ImportDays(s + e) == ImportDays(s)
    ensures ImportSum(s + e, d, p) == ImportSum(s, d, p)
  {
    if |e| > 0 {
      var init := e[..|e| - 1];
      assert (s + e)[..|s + e| - 1] == s + init;
      ExportReadingsKeepImports(s, init, d, p);
    } else {
      assert s + e == s;
    }
  }

  /**
   * Adding an export ("B1") channel changes only the export of the rows:
   * the same days, in the same order, with the same import buckets.
   */
  lemma ExportChannelOnlyAddsExport(nmi: string, chs: seq<ChannelReadings>, rs: seq<Reading>)
    ensures var before := DailySummary(nmi, chs);
      var after := DailySummary(nmi, chs + [ChannelReadings(ExportChannel, rs)]);
      && |after| == |before|
      && forall k :: 0 <= k < |after| ==>
           after[k] == before[k].(exp := after[k].exp)
  {
    var b1 := ChannelReadings(ExportChannel, rs);
    var chs' := chs + [b1];
    assert chs'[..|chs'| - 1] == chs;
    var s := Flatten(chs);
    assert Flatten(chs') == s + Tag(b1);
    ExportReadingsKeepImports(s, Tag(b1), Date(0, 0, 0), Night);
    forall d, p
      ensures ImportSum(s + Tag(b1), d, p) == ImportSum(s, d, p)
    {
      ExportReadingsKeepImports(s, Tag(b1), d, p);
    }
  }

  /**
   * Worked example: import channel "E1" with 1 kWh at 03:00, 08:00, 15:00
   * and 20:00 on 2023-06-15 and no export channel gives one row with 1 kWh
   * in each bucket, 4 kWh in total and no export.
   */
  lemma FourPeriodsExample()
    ensures var d := Date(2023, 6, 15);
      DailySummary("NMI001", [ChannelReadings("E1", [
        Reading(Timestamp(d, 3, 0), KWh), Reading(Timestamp(d, 8, 0), KWh),
        Reading(Timestamp(d, 15, 0), KWh), Reading(Timestamp(d, 20, 0), KWh)])])
        == [DailyRow("NMI001", d, 4 * KWh, 0, KWh, KWh, KWh, KWh)]
  {
    var d := Date(2023, 6, 15);
    var c := ChannelReadings("E1", [
      Reading(Timestamp(d, 3, 0), KWh), Reading(Timestamp(d, 8, 0), KWh),
      Reading(Timestamp(d, 15, 0), KWh), Reading(Timestamp(d, 20, 0), KWh)]);
    assert [c][..0] == [];
    var s := Flatten([c]);
    assert s == Flatten([]) + Tag(c) == Tag(c);
    assert |s| == 4;
    assert !IsFeedIn("E1");
    assert s[0] == Tagged(false, Reading(Timestamp(d, 3, 0), KWh));
    assert s[1] == Tagged(false, Reading(Timestamp(d, 8, 0), KWh));
    assert s[2] == Tagged(false, Reading(Timestamp(d, 15, 0), KWh));
    assert s[3] == Tagged(false, Reading(Timestamp(d, 20, 0), KWh));
    assert s[..4] == s;
    assert s[..4][..3] == s[..3] && s[..3][..2] == s[..2] && s[..2][..1] == s[..1] && s[..1][..0] == [];
    assert ImportDays(s[..1]) == [d];
    assert ImportDays(s[..2]) == [d];
    assert ImportDays(s[..3]) == [d];
    assert ImportDays(s[..4]) == [d];
    assert s[..1] == [s[0]];
    assert ImportSum(s[..1], d, Night) == KWh;
    assert ImportSum(s[..1], d, Morning) == 0;
    assert ImportSum(s[..1], d, Day) == 0;
    assert ImportSum(s[..1], d, Evening) == 0;
    assert BucketsOf(s[..1], d) == Buckets(0, 0, 0, KWh);
    assert BucketsOf(s[..2], d) == Buckets(KWh, 0, 0, KWh);
    assert BucketsOf(s[..3], d) == Buckets(KWh, KWh, 0, KWh);
    assert BucketsOf(s[..4], d) == Buckets(KWh, KWh, KWh, KWh);
    assert ExportSum(s[..1], d) == 0 && ExportSum(s[..2], d) == 0;
    assert ExportSum(s[..3], d) == 0 && ExportSum(s[..4], d) == 0;
    assert OnGrid(KWh) && OnGrid(0);
  }
}
