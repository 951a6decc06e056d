/**
 * The per-timestamp usage table (`get_usage_df`): import readings summed
 * per interval start, export readings summed and negated, aligned on the
 * import timestamps (or, when there are none, on the export timestamps).
 */
module Usage {
  import opened Calendar
  import opened Units
  import opened Readings

  /** One row of the usage frame: consumption and (negative) export of an interval. */
  datatype UsageRow = UsageRow(start: Timestamp, consumption: Energy, exported: Energy)

  predicate IsImportAt(t: Tagged, ts: Timestamp) {
    !t.feedIn && t.reading.start == ts
  }

  predicate IsExportAt(t: Tagged, ts: Timestamp) {
    t.feedIn && t.reading.start == ts
  }

  /** Total of the import readings starting at `ts`. */
  function ImportAt(s: seq<Tagged>, ts: Timestamp): Energy
  {
    if |s| == 0 then 0
    else ImportAt(s[..|s| - 1], ts) + (if IsImportAt(s[|s| - 1], ts) then s[|s| - 1].reading.value else 0)
  }

  /** Total of the export readings starting at `ts`. */
  function ExportAt(s: seq<Tagged>, ts: Timestamp): Energy
  {
    if |s| == 0 then 0
    else ExportAt(s[..|s| - 1], ts) + (if IsExportAt(s[|s| - 1], ts) then s[|s| - 1].reading.value else 0)
  }

  /**
   * Starts of the import (`feedIn == false`) or export (`feedIn == true`)
   * readings, in first-appearance order: the keys of `imp_values` or
   * `exp_values`.
   */
  function TimesOf(s: seq<Tagged>, feedIn: bool): seq<Timestamp>
  {
    if |s| == 0 then []
    else
      var prev := TimesOf(s[..|s| - 1], feedIn);
      var t := s[|s| - 1];
      if t.feedIn == feedIn && t.reading.start !in prev then prev + [t.reading.start] else prev
  }

  /**
   * The index of the frame: the import timestamps. When there are none the
   * frame starts empty, and assigning the export series to it adopts that
   * series' index, the export timestamps.
   */
  function FrameIndex(s: seq<Tagged>): seq<Timestamp> {
    if TimesOf(s, false) == [] then TimesOf(s, true) else TimesOf(s, false)
  }

  /**
   * The frame `get_usage_df` returns for a metering point with channels
   * `chs`; its index never repeats a timestamp.
   */
  function UsageFrame(chs: seq<ChannelReadings>): (rows: seq<UsageRow>)
    ensures forall i, j :: 0 <= i < j < |rows| ==> rows[i].start != rows[j].start
  {
    var s := Flatten(chs);
    var index := FrameIndex(s);
    TimesExact(s, false);
    TimesExact(s, true);
    seq(|index|, k requires 0 <= k < |index| => UsageRow(index[k], ImportAt(s, index[k]), -ExportAt(s, index[k])))
  }

  // ---------------------------------------------------------------------
  // The accumulation loops

  function Lookup(m: map<Timestamp, Energy>, ts: Timestamp): Energy {
    if ts in m then m[ts] else 0
  }

  ghost predicate Accumulated(seen: seq<Tagged>, impValues: map<Timestamp, Energy>, expValues: map<Timestamp, Energy>,
                              times: seq<Timestamp>, expTimes: seq<Timestamp>)
  {
    && times == TimesOf(seen, false)
    && expTimes == TimesOf(seen, true)
    && (forall ts :: ts in impValues <==> ts in times)
    && (forall ts :: ts in expValues <==> ts in expTimes)
    && (forall ts :: Lookup(impValues, ts) == ImportAt(seen, ts))
    && (forall ts :: Lookup(expValues, ts) == ExportAt(seen, ts))
  }

  lemma {:induction false} AbsentTimeHasNoImport(s: seq<Tagged>, ts: Timestamp)
    requires ts !in TimesOf(s, false)
    ensures ImportAt(s, ts) == 0
  {
    if |s| > 0 {
      var init := s[..|s| - 1];
      assert TimesOf(init, false) <= TimesOf(s, false);
      AbsentTimeHasNoImport(init, ts);
    }
  }

  lemma {:induction false} AbsentTimeHasNoExport(s: seq<Tagged>, ts: Timestamp)
    requires ts !in TimesOf(s, true)
    ensures ExportAt(s, ts) == 0
  {
    if |s| > 0 {
      var init := s[..|s| - 1];
      assert TimesOf(init, true) <= TimesOf(s, true);
      AbsentTimeHasNoExport(init, ts);
    }
  }

  /** The body of the reading loop: `exp_values[dt] += value` or `imp_values[dt] += value`. */
  method AddReading(impValues: map<Timestamp, Energy>, expValues: map<Timestamp, Energy>,
                    times: seq<Timestamp>, expTimes: seq<Timestamp>, ghost seen: seq<Tagged>, feedIn: bool, read: Reading)
    returns (impValues': map<Timestamp, Energy>, expValues': map<Timestamp, Energy>,
             times': seq<Timestamp>, expTimes': seq<Timestamp>)
    requires Accumulated(seen, impValues, expValues, times, expTimes)
    ensures Accumulated(seen + [Tagged(feedIn, read)], impValues', expValues', times', expTimes')
  {
    ghost var next := seen + [Tagged(feedIn, read)];
    assert next[..|next| - 1] == seen;
    var dt := read.start;
    impValues', expValues', times', expTimes' := impValues, expValues, times, expTimes;
    if feedIn {
      if dt !in expValues {
        expTimes' := expTimes + [dt];
      }
      expValues' := expValues[dt := Lookup(expValues, dt) + read.value];
      assert TimesOf(next, false) == times && expTimes' == TimesOf(next, true);
      assert forall ts :: ImportAt(next, ts) == ImportAt(seen, ts);
      assert forall ts :: Lookup(expValues', ts) == ExportAt(next, ts);
    } else {
      if dt !in impValues {
        times' := times + [dt];
      }
      impValues' := impValues[dt := Lookup(impValues, dt) + read.value];
      assert TimesOf(next, true) == expTimes && times' == TimesOf(next, false);
      assert forall ts :: ExportAt(next, ts) == ExportAt(seen, ts);
      assert forall ts :: Lookup(impValues', ts) == ImportAt(next, ts);
    }
  }

  /** The inner loop of `get_usage_df`: add every reading of one channel. */
  method AddChannel(impValues: map<Timestamp, Energy>, expValues: map<Timestamp, Energy>,
                    times: seq<Timestamp>, expTimes: seq<Timestamp>, ghost seen: seq<Tagged>, ch: ChannelReadings)
    returns (impValues': map<Timestamp, Energy>, expValues': map<Timestamp, Energy>,
             times': seq<Timestamp>, expTimes': seq<Timestamp>)
    requires Accumulated(seen, impValues, expValues, times, expTimes)
    ensures Accumulated(seen + Tag(ch), impValues', expValues', times', expTimes')
  {
    var feedIn := IsFeedIn(ch.channel);
    impValues', expValues', times', expTimes' := impValues, expValues, times, expTimes;
    ghost var now := seen;
    for j := 0 to |ch.readings|
      invariant now == seen + Tag(ch)[..j]
      invariant Accumulated(now, impValues', expValues', times', expTimes')
    {
      var read := ch.readings[j];
      assert Tag(ch)[..j + 1] == Tag(ch)[..j] + [Tagged(feedIn, read)];
      impValues', expValues', times', expTimes' := AddReading(impValues', expValues', times', expTimes', now, feedIn, read);
      now := now + [Tagged(feedIn, read)];
    }
    assert Tag(ch)[..|ch.readings|] == Tag(ch);
  }

  /**
   * Building the frame on the import timestamps, or on the export
   * timestamps when there are none; a missing value becomes 0 (`fillna(0)`).
   */
  method EmitFrame(impValues: map<Timestamp, Energy>, expValues: map<Timestamp, Energy>,
                   times: seq<Timestamp>, expTimes: seq<Timestamp>, ghost seen: seq<Tagged>)
    returns (rows: seq<UsageRow>)
    requires Accumulated(seen, impValues, expValues, times, expTimes)
    ensures |rows| == |FrameIndex(seen)|
    ensures forall k :: 0 <= k < |rows| ==>
              rows[k] == UsageRow(FrameIndex(seen)[k], ImportAt(seen, FrameIndex(seen)[k]), -ExportAt(seen, FrameIndex(seen)[k]))
  {
    var index := if |times| == 0 then expTimes else times;
    assert index == FrameIndex(seen);
    rows := [];
    for k := 0 to |index|
      invariant |rows| == k
      invariant forall n :: 0 <= n < k ==>
                  rows[n] == UsageRow(index[n], ImportAt(seen, index[n]), -ExportAt(seen, index[n]))
    {
      var dt := index[k];
      var consumption := if dt in impValues then impValues[dt] else 0;
      var exported := if dt in expValues then -expValues[dt] else 0;
      assert consumption == ImportAt(seen, dt) by {
        assert Lookup(impValues, dt) == ImportAt(seen, dt);
      }
      assert exported == -ExportAt(seen, dt) by {
        assert Lookup(expValues, dt) == ExportAt(seen, dt);
      }
      rows := rows + [UsageRow(dt, consumption, exported)];
    }
  }

  /**
   * `get_usage_df`: sum the readings per timestamp, then build the frame on
   * the import timestamps (the export timestamps when there are none); the
   * export column is the negated export sum, and 0 where a timestamp has no
   * export (`fillna(0)`).
   */
  method GetUsageFrame(chs: seq<ChannelReadings>) returns (rows: seq<UsageRow>)
    ensures rows == UsageFrame(chs)
  {
    var impValues: map<Timestamp, Energy> := map[];
    var expValues: map<Timestamp, Energy> := map[];
    var times: seq<Timestamp> := [];
    var expTimes: seq<Timestamp> := [];
    ghost var seen: seq<Tagged> := [];
    for i := 0 to |chs|
      invariant seen == Flatten(chs[..i])
      invariant Accumulated(seen, impValues, expValues, times, expTimes)
    {
      assert chs[..i + 1][..i] == chs[..i];
      impValues, expValues, times, expTimes := AddChannel(impValues, expValues, times, expTimes, seen, chs[i]);
      seen := seen + Tag(chs[i]);
    }
    assert chs[..|chs|] == chs;
    rows := EmitFrame(impValues, expValues, times, expTimes, seen);
    var frame := UsageFrame(chs);
    assert |rows| == |frame|;
    forall k | 0 <= k < |rows|
      ensures rows[k] == frame[k]
    {
    }
  }

  // ---------------------------------------------------------------------
  // Properties

  /** Some reading of a non-export channel starts at `ts`. */
  ghost predicate HasImportReadingAt(chs: seq<ChannelReadings>, ts: Timestamp) {
    exists c, r :: c in chs && r in c.readings && !IsFeedIn(c.channel) && r.start == ts
  }

  /** Some reading of the export channel starts at `ts`. */
  ghost predicate HasExportReadingAt(chs: seq<ChannelReadings>, ts: Timestamp) {
    exists c, r :: c in chs && r in c.readings && IsFeedIn(c.channel) && r.start == ts
  }

  lemma {:induction false} TimesExact(s: seq<Tagged>, feedIn: bool)
    ensures forall ts :: ts in TimesOf(s, feedIn) <==>
              exists i :: 0 <= i < |s| && s[i].feedIn == feedIn && s[i].reading.start == ts
    ensures forall i, j :: 0 <= i < j < |TimesOf(s, feedIn)| ==> TimesOf(s, feedIn)[i] != TimesOf(s, feedIn)[j]
  {
    if |s| > 0 {
      var init := s[..|s| - 1];
      TimesExact(init, feedIn);
      forall ts | exists i :: 0 <= i < |s| && s[i].feedIn == feedIn && s[i].reading.start == ts
        ensures ts in TimesOf(s, feedIn)
      {
        var i :| 0 <= i < |s| && s[i].feedIn == feedIn && s[i].reading.start == ts;
        if i < |init| {
          assert init[i] == s[i];
        }
      }
      forall ts | ts in TimesOf(s, feedIn)
        ensures exists i :: 0 <= i < |s| && s[i].feedIn == feedIn && s[i].reading.start == ts
      {
        if ts in TimesOf(init, feedIn) {
          var i :| 0 <= i < |init| && init[i].feedIn == feedIn && init[i].reading.start == ts;
          assert s[i] == init[i];
        } else {
          assert s[|s| - 1].reading.start == ts;
        }
      }
    }
  }

  /** A timestamp is listed exactly when a reading of a channel of that kind starts then. */
  lemma TimesListReadings(chs: seq<ChannelReadings>, feedIn: bool, ts: Timestamp)
    ensures ts in TimesOf(Flatten(chs), feedIn) <==>
              if feedIn then HasExportReadingAt(chs, ts) else HasImportReadingAt(chs, ts)
  {
    var s := Flatten(chs);
    TimesExact(s, feedIn);
    if ts in TimesOf(s, feedIn) {
      var i :| 0 <= i < |s| && s[i].feedIn == feedIn && s[i].reading.start == ts;
      assert s[i] in s;
      FlattenClassifiesByChannel(chs, s[i]);
    }
    if exists c, r :: c in chs && r in c.readings && IsFeedIn(c.channel) == feedIn && r.start == ts {
      var c, r :| c in chs && r in c.readings && IsFeedIn(c.channel) == feedIn && r.start == ts;
      FlattenClassifiesByChannel(chs, Tagged(feedIn, r));
      var i :| 0 <= i < |s| && s[i] == Tagged(feedIn, r);
      assert s[i].feedIn == feedIn && s[i].reading.start == ts;
    }
  }

  /** The meter has at least one reading on a non-export channel. */
  ghost predicate HasImportReadings(chs: seq<ChannelReadings>) {
    exists c, r :: c in chs && r in c.readings && !IsFeedIn(c.channel)
  }

  /**
   * The frame has exactly one row per timestamp with an import reading; a
   * meter with no import readings at all has one row per timestamp with an
   * export reading instead.
   */
  lemma OneRowPerTimestamp(chs: seq<ChannelReadings>, ts: Timestamp)
    ensures (exists k :: 0 <= k < |UsageFrame(chs)| && UsageFrame(chs)[k].start == ts)
              <==> HasImportReadingAt(chs, ts) || (!HasImportReadings(chs) && HasExportReadingAt(chs, ts))
  {
    var s := Flatten(chs);
    var rows := UsageFrame(chs);
    var index := FrameIndex(s);
    assert forall k :: 0 <= k < |rows| ==> rows[k].start == index[k];
    assert (exists k :: 0 <= k < |rows| && rows[k].start == ts) <==> ts in index;
    TimesListReadings(chs, false, ts);
    TimesListReadings(chs, true, ts);
    assert TimesOf(s, false) == [] <==> !HasImportReadings(chs) by {
      if HasImportReadings(chs) {
        var c, r :| c in chs && r in c.readings && !IsFeedIn(c.channel);
        TimesListReadings(chs, false, r.start);
      }
      if TimesOf(s, false) != [] {
        TimesListReadings(chs, false, TimesOf(s, false)[0]);
      }
    }
  }

  /** On a meter with only export readings every row has consumption 0. */
  lemma ExportOnlyMeterHasZeroConsumption(chs: seq<ChannelReadings>, k: int)
    requires !HasImportReadings(chs)
    requires 0 <= k < |UsageFrame(chs)|
    ensures UsageFrame(chs)[k].consumption == 0
    ensures HasExportReadingAt(chs, UsageFrame(chs)[k].start)
  {
    var s := Flatten(chs);
    var ts := UsageFrame(chs)[k].start;
    TimesListReadings(chs, false, ts);
    AbsentTimeHasNoImport(s, ts);
    OneRowPerTimestamp(chs, ts);
  }

  lemma {:induction false} NoExportReadingsAtSumToZero(s: seq<Tagged>, ts: Timestamp)
    requires forall i :: 0 <= i < |s| ==> !IsExportAt(s[i], ts)
    ensures ExportAt(s, ts) == 0
  {
    if |s| > 0 {
      NoExportReadingsAtSumToZero(s[..|s| - 1], ts);
    }
  }

  /** A row whose timestamp has no export reading gets export 0. */
  lemma NoExportMeansZeroExport(chs: seq<ChannelReadings>, k: int)
    requires 0 <= k < |UsageFrame(chs)|
    requires !HasExportReadingAt(chs, UsageFrame(chs)[k].start)
    ensures UsageFrame(chs)[k].exported == 0
  {
    var s := Flatten(chs);
    var ts := UsageFrame(chs)[k].start;
    forall i | 0 <= i < |s|
      ensures !IsExportAt(s[i], ts)
    {
      FlattenClassifiesByChannel(chs, s[i]);
      assert s[i] in s;
    }
    NoExportReadingsAtSumToZero(s, ts);
  }
}
