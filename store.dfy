/**
 * The summary tables and the keyed upserts that fill them
 * (`update_daily_summaries`, `update_seasonal_summaries`).
 *
 * A table is a map from its primary key to its row; `upsert_all` writes each
 * item in turn, inserting it or replacing the row with the same key.
 */
module Upserts {

  /** `upsert_all(items, pk=...)`: the items written in order, a later one replacing an earlier one with its key. */
  function Upsert<K, R>(t: map<K, R>, items: seq<R>, pk: R -> K): (r: map<K, R>)
    ensures t.Keys <= r.Keys
    ensures forall i :: 0 <= i < |items| ==> pk(items[i]) in r
    ensures |items| > 0 ==> r[pk(items[|items| - 1])] == items[|items| - 1]
  {
    if |items| == 0 then t
    else
      var init, last := items[..|items| - 1], items[|items| - 1];
      assert forall i :: 0 <= i < |init| ==> items[i] == init[i];
      Upsert(t, init, pk)[pk(last) := last]
  }

  /**
   * After an upsert a key is present iff it was before or some item has it;
   * an item's key maps to the last item with that key, and keys no item has
   * keep their old row.
   */
  lemma {:induction false} UpsertLookup<K, R>(t: map<K, R>, items: seq<R>, pk: R -> K, k: K)
    ensures k in Upsert(t, items, pk) <==> k in t || exists i :: 0 <= i < |items| && pk(items[i]) == k
    ensures (forall i :: 0 <= i < |items| ==> pk(items[i]) != k) && k in t ==> Upsert(t, items, pk)[k] == t[k]
    ensures forall i :: 0 <= i < |items| && pk(items[i]) == k && (forall j :: i < j < |items| ==> pk(items[j]) != k) ==>
              k in Upsert(t, items, pk) && Upsert(t, items, pk)[k] == items[i]
  {
    if |items| > 0 {
      var init, last := items[..|items| - 1], items[|items| - 1];
      UpsertLookup(t, init, pk, k);
      if exists i :: 0 <= i < |items| && pk(items[i]) == k {
        var i :| 0 <= i < |items| && pk(items[i]) == k;
        if i < |init| {
          assert pk(init[i]) == k;
        }
      }
      forall i | 0 <= i < |items| && pk(items[i]) == k && (forall j :: i < j < |items| ==> pk(items[j]) != k)
        ensures k in Upsert(t, items, pk) && Upsert(t, items, pk)[k] == items[i]
      {
        if i < |init| {
          assert pk(init[i]) == k;
          assert pk(last) != k;
        }
      }
    }
  }

  /** Upserting overwrites: the result is the old table overlaid with what the items alone give. */
  lemma {:induction false} UpsertOverlays<K, R>(t: map<K, R>, items: seq<R>, pk: R -> K)
    ensures Upsert(t, items, pk) == t + Upsert(map[], items, pk)
  {
    if |items| > 0 {
      var init, last := items[..|items| - 1], items[|items| - 1];
      UpsertOverlays(t, init, pk);
      var u := Upsert(map[], init, pk);
      assert (t + u)[pk(last) := last] == t + u[pk(last) := last];
    }
  }

  /** Re-running an upsert with the same items leaves the table unchanged. */
  lemma UpsertIdempotent<K, R>(t: map<K, R>, items: seq<R>, pk: R -> K)
    ensures Upsert(Upsert(t, items, pk), items, pk) == Upsert(t, items, pk)
  {
    var u := Upsert(map[], items, pk);
    UpsertOverlays(t, items, pk);
    UpsertOverlays(t + u, items, pk);
    assert (t + u) + u == t + u;
  }

  ghost predicate DistinctKeys<K, R>(items: seq<R>, pk: R -> K) {
    forall i, j :: 0 <= i < j < |items| ==> pk(items[i]) != pk(items[j])
  }

  /** Two batches of the same items, each with distinct keys, upsert to the same table whatever their order. */
  lemma UpsertIgnoresOrder<K, R>(t: map<K, R>, a: seq<R>, b: seq<R>, pk: R -> K)
    requires DistinctKeys(a, pk) && DistinctKeys(b, pk)
    requires forall x :: x in a <==> x in b
    ensures Upsert(t, a, pk) == Upsert(t, b, pk)
  {
    var ua, ub := Upsert(t, a, pk), Upsert(t, b, pk);
    forall k
      ensures (k in ua <==> k in ub) && (k in ua ==> ua[k] == ub[k])
    {
      UpsertIgnoresOrderAt(t, a, b, pk, k);
    }
    SameEntries(ua, ub);
  }

  /** Two maps with the same keys and the same value at every key are equal. */
  lemma SameEntries<K, R>(ua: map<K, R>, ub: map<K, R>)
    requires forall k :: (k in ua <==> k in ub) && (k in ua ==> ua[k] == ub[k])
    ensures ua == ub
  {
  }

  lemma UpsertIgnoresOrderAt<K, R>(t: map<K, R>, a: seq<R>, b: seq<R>, pk: R -> K, k: K)
    requires DistinctKeys(a, pk) && DistinctKeys(b, pk)
    requires forall x :: x in a <==> x in b
    ensures k in Upsert(t, a, pk) <==> k in Upsert(t, b, pk)
    ensures k in Upsert(t, a, pk) ==> Upsert(t, a, pk)[k] == Upsert(t, b, pk)[k]
  {
    UpsertLookup(t, a, pk, k);
    UpsertLookup(t, b, pk, k);
    if i :| 0 <= i < |a| && pk(a[i]) == k {
      assert a[i] in b;
      var i2 :| 0 <= i2 < |b| && b[i2] == a[i];
      assert forall j :: i < j < |a| ==> pk(a[j]) != k;
      assert forall j :: i2 < j < |b| ==> pk(b[j]) != k;
    } else {
      forall j | 0 <= j < |b|
        ensures pk(b[j]) != k
      {
        assert b[j] in a;
      }
    }
  }

  /** Several `upsert_all` calls in a row, one batch after another. */
  function UpsertBatches<K, R>(t: map<K, R>, batches: seq<seq<R>>, pk: R -> K): map<K, R>
  {
    if |batches| == 0 then t
    else Upsert(UpsertBatches(t, batches[..|batches| - 1], pk), batches[|batches| - 1], pk)
  }

  function Concat<R>(batches: seq<seq<R>>): seq<R>
  {
    if |batches| == 0 then [] else Concat(batches[..|batches| - 1]) + batches[|batches| - 1]
  }

  lemma {:induction false} UpsertAppend<K, R>(t: map<K, R>, a: seq<R>, b: seq<R>, pk: R -> K)
    ensures Upsert(t, a + b, pk) == Upsert(Upsert(t, a, pk), b, pk)
  {
    if |b| > 0 {
      assert (a + b)[..|a + b| - 1] == a + b[..|b| - 1];
      UpsertAppend(t, a, b[..|b| - 1], pk);
    } else {
      assert a + b == a;
    }
  }

  /** Batches upserted one after another act like one upsert of all their items. */
  lemma {:induction false} UpsertBatchesConcat<K, R>(t: map<K, R>, batches: seq<seq<R>>, pk: R -> K)
    ensures UpsertBatches(t, batches, pk) == Upsert(t, Concat(batches), pk)
  {
    if |batches| > 0 {
      var init := batches[..|batches| - 1];
      UpsertBatchesConcat(t, init, pk);
      UpsertAppend(t, Concat(init), batches[|batches| - 1], pk);
    }
  }

  /** Re-running a whole sequence of upserts leaves the table unchanged. */
  lemma UpsertBatchesIdempotent<K, R>(t: map<K, R>, batches: seq<seq<R>>, pk: R -> K)
    ensures UpsertBatches(UpsertBatches(t, batches, pk), batches, pk) == UpsertBatches(t, batches, pk)
  {
    UpsertBatchesConcat(t, batches, pk);
    UpsertBatchesConcat(UpsertBatches(t, batches, pk), batches, pk);
    UpsertIdempotent(t, Concat(batches), pk);
  }
}

/**
 * The two summary tables of the store, `daily_reads` keyed on (nmi, day)
 * and `season_reads` keyed on (nmi, year, season), and the two update
 * passes that rebuild them.
 */
module Store {
  import opened Calendar
  import opened Readings
  import opened Daily
  import opened Seasonal
  import opened SeasonalProperties
  import opened Upserts

  /** Primary key of `daily_reads`. */
  datatype DailyPk = DailyPk(nmi: string, day: Date)

  /** Primary key of `season_reads`. */
  datatype SeasonPk = SeasonPk(nmi: string, year: int, season: Season)

  function DailyPkOf(r: DailyRow): DailyPk { DailyPk(r.nmi, r.day) }

  function SeasonPkOf(r: SeasonRow): SeasonPk { SeasonPk(r.nmi, r.year, r.season) }

  /** A metering point with its channels and their readings (what `get_nmis` and `get_readings` return). */
  datatype Meter = Meter(nmi: string, channels: seq<ChannelReadings>)

  /** A daily row whose total is the sum of its buckets. */
  predicate BucketsAddUp(r: DailyRow) {
    r.imp == r.impMorning + r.impDay + r.impEvening + r.impNight
  }

  /** The batches `update_daily_summaries` upserts, one per metering point. */
  function DailyBatches(meters: seq<Meter>): (bs: seq<seq<DailyRow>>)
    ensures |bs| == |meters|
  {
    seq(|meters|, i requires 0 <= i < |meters| => DailySummary(meters[i].nmi, meters[i].channels))
  }

  // ---------------------------------------------------------------------
  // Listing the daily rows of a metering point

  /** The rows of `daily` that belong to metering point `nmi`. */
  ghost function RowsOf(daily: map<DailyPk, DailyRow>, nmi: string): set<DailyRow> {
    set k | k in daily && k.nmi == nmi :: daily[k]
  }

  ghost predicate Distinct(rows: seq<DailyRow>) {
    forall i, j :: 0 <= i < j < |rows| ==> rows[i] != rows[j]
  }

  /** `select * from daily_reads where nmi = :nmi`: each row of the metering point once, in some order. */
  ghost predicate IsListingOf(rows: seq<DailyRow>, daily: map<DailyPk, DailyRow>, nmi: string) {
    Distinct(rows) && forall r :: r in rows <==> r in RowsOf(daily, nmi)
  }

  ghost function SetToSeq(s: set<DailyRow>): (rows: seq<DailyRow>)
    ensures Distinct(rows)
    ensures forall r :: r in rows <==> r in s
    decreases |s|
  {
    if s == {} then []
    else
      var x :| x in s;
      var rest := SetToSeq(s - {x});
      assert forall r :: r in [x] + rest <==> r in s;
      [x] + rest
  }

  /** One fixed listing, against which every other listing order is compared. */
  ghost function ListingOf(daily: map<DailyPk, DailyRow>, nmi: string): (rows: seq<DailyRow>)
    ensures IsListingOf(rows, daily, nmi)
  {
    SetToSeq(RowsOf(daily, nmi))
  }

  /** Taking one row out of a listing without repeats. */
  lemma RemoveOne(b: seq<DailyRow>, i: int)
    requires Distinct(b) && 0 <= i < |b|
    ensures var rest := b[..i] + b[i + 1..];
            && Distinct(rest)
            && (forall r :: r in rest <==> r in b && r != b[i])
            && multiset(b) == multiset(rest) + multiset{b[i]}
  {
    var x, rest := b[i], b[..i] + b[i + 1..];
    assert b == b[..i] + [x] + b[i + 1..];
    assert forall m :: 0 <= m < |rest| ==> rest[m] == b[if m < i then m else m + 1];
    forall r | r in b && r != x
      ensures r in rest
    {
      var m :| 0 <= m < |b| && b[m] == r;
      assert rest[if m < i then m else m - 1] == r;
    }
  }

  /** Two listings of the same rows, each without repeats, are permutations of each other. */
  lemma {:induction false} ListingsArePermutations(a: seq<DailyRow>, b: seq<DailyRow>)
    requires Distinct(a) && Distinct(b)
    requires forall r :: r in a <==> r in b
    ensures multiset(a) == multiset(b)
  {
    if |a| == 0 {
      assert forall m :: 0 <= m < |b| ==> b[m] in b;
    } else {
      var x := a[|a| - 1];
      assert x in b;
      var i :| 0 <= i < |b| && b[i] == x;
      RemoveOne(a, |a| - 1);
      RemoveOne(b, i);
      assert a[..|a| - 1] + a[|a| - 1 + 1..] == a[..|a| - 1];
      ListingsArePermutations(a[..|a| - 1], b[..i] + b[i + 1..]);
    }
  }

  /** The seasonal items of a metering point, computed from a listing of its daily rows. */
  ghost function SeasonalBatches(daily: map<DailyPk, DailyRow>, nmis: seq<string>): (bs: seq<seq<SeasonRow>>)
    ensures |bs| == |nmis|
  {
    seq(|nmis|, i requires 0 <= i < |nmis| => SeasonalSummary(nmis[i], ListingOf(daily, nmis[i])))
  }

  /** Within one metering point's items no two share a primary key. */
  lemma SeasonalItemsHaveDistinctKeys(nmi: string, rows: seq<DailyRow>)
    ensures DistinctKeys(SeasonalSummary(nmi, rows), SeasonPkOf)
  {
    var items := SeasonalSummary(nmi, rows);
    OneItemPerSeasonKey(nmi, rows, SeasonKey(0, Summer));
    forall i, j | 0 <= i < j < |items|
      ensures SeasonPkOf(items[i]) != SeasonPkOf(items[j])
    {
      assert items[i].Key() != items[j].Key();
    }
  }

  /**
   * Whatever order the store lists a metering point's daily rows in, the
   * seasonal upsert leaves the table in the same state.
   */
  lemma SeasonalUpsertIgnoresListingOrder(t: map<SeasonPk, SeasonRow>, daily: map<DailyPk, DailyRow>,
                                          nmi: string, rows: seq<DailyRow>)
    requires IsListingOf(rows, daily, nmi)
    ensures Upsert(t, SeasonalSummary(nmi, rows), SeasonPkOf)
         == Upsert(t, SeasonalSummary(nmi, ListingOf(daily, nmi)), SeasonPkOf)
  {
    var canon := ListingOf(daily, nmi);
    ListingsArePermutations(rows, canon);
    SummaryIgnoresRowOrder(nmi, rows, canon);
    SeasonalItemsHaveDistinctKeys(nmi, rows);
    SeasonalItemsHaveDistinctKeys(nmi, canon);
    UpsertIgnoresOrder(t, SeasonalSummary(nmi, rows), SeasonalSummary(nmi, canon), SeasonPkOf);
  }

  // ---------------------------------------------------------------------
  // Invariants the upserts keep

  /** Every row is stored under its own primary key. */
  lemma {:induction false} UpsertFilesByKey<K, R>(t: map<K, R>, items: seq<R>, pk: R -> K)
    requires forall k :: k in t ==> pk(t[k]) == k
    ensures forall k :: k in Upsert(t, items, pk) ==> pk(Upsert(t, items, pk)[k]) == k
  {
    if |items| > 0 {
      UpsertFilesByKey(t, items[..|items| - 1], pk);
    }
  }

  /** A property every old row and every item has, every row of the result has. */
  lemma {:induction false} UpsertKeepsRowProperty<K, R>(t: map<K, R>, items: seq<R>, pk: R -> K, P: R -> bool)
    requires forall k :: k in t ==> P(t[k])
    requires forall i :: 0 <= i < |items| ==> P(items[i])
    ensures forall k :: k in Upsert(t, items, pk) ==> P(Upsert(t, items, pk)[k])
  {
    if |items| > 0 {
      UpsertKeepsRowProperty(t, items[..|items| - 1], pk, P);
    }
  }

  /** Re-running `update_seasonal_summaries` on an unchanged daily table leaves the seasonal table unchanged. */
  lemma SeasonalUpdateIdempotent(t: map<SeasonPk, SeasonRow>, daily: map<DailyPk, DailyRow>, nmis: seq<string>)
    ensures UpsertBatches(UpsertBatches(t, SeasonalBatches(daily, nmis), SeasonPkOf), SeasonalBatches(daily, nmis), SeasonPkOf)
         == UpsertBatches(t, SeasonalBatches(daily, nmis), SeasonPkOf)
  {
    UpsertBatchesIdempotent(t, SeasonalBatches(daily, nmis), SeasonPkOf);
  }

  /** Re-running `update_daily_summaries` on unchanged readings leaves the daily table unchanged. */
  lemma DailyUpdateIdempotent(t: map<DailyPk, DailyRow>, meters: seq<Meter>)
    ensures UpsertBatches(UpsertBatches(t, DailyBatches(meters), DailyPkOf), DailyBatches(meters), DailyPkOf)
         == UpsertBatches(t, DailyBatches(meters), DailyPkOf)
  {
    UpsertBatchesIdempotent(t, DailyBatches(meters), DailyPkOf);
  }

  // ---------------------------------------------------------------------
  // The store

  class SummaryStore {
    var daily: map<DailyPk, DailyRow>
    var seasonal: map<SeasonPk, SeasonRow>

    /** Rows sit under their own keys, and every daily total is the sum of its buckets. */
    ghost predicate Valid()
      reads this
    {
      && (forall k :: k in daily ==> DailyPkOf(daily[k]) == k)
      && (forall k :: k in daily ==> BucketsAddUp(daily[k]))
      && (forall k :: k in seasonal ==> SeasonPkOf(seasonal[k]) == k)
    }

    constructor ()
      ensures daily == map[] && seasonal == map[]
      ensures Valid()
    {
      daily := map[];
      seasonal := map[];
    }

    /** `db["daily_reads"].upsert_all(items, pk=("nmi", "day"))` */
    method UpsertDaily(items: seq<DailyRow>)
      modifies this
      requires Valid()
      requires forall i :: 0 <= i < |items| ==> BucketsAddUp(items[i])
      ensures Valid()
      ensures daily == Upsert(old(daily), items, DailyPkOf)
      ensures seasonal == old(seasonal)
    {
      for i := 0 to |items|
        invariant daily == Upsert(old(daily), items[..i], DailyPkOf)
        invariant seasonal == old(seasonal)
      {
        assert items[..i + 1][..i] == items[..i];
        daily := daily[DailyPkOf(items[i]) := items[i]];
      }
      assert items[..|items|] == items;
      UpsertFilesByKey(old(daily), items, DailyPkOf);
      UpsertKeepsRowProperty(old(daily), items, DailyPkOf, BucketsAddUp);
    }

    /** `db["season_reads"].upsert_all(items, pk=("nmi", "year", "season"))` */
    method UpsertSeasonal(items: seq<SeasonRow>)
      modifies this
      requires Valid()
      ensures Valid()
      ensures seasonal == Upsert(old(seasonal), items, SeasonPkOf)
      ensures daily == old(daily)
    {
      for i := 0 to |items|
        invariant seasonal == Upsert(old(seasonal), items[..i], SeasonPkOf)
        invariant daily == old(daily)
      {
        assert items[..i + 1][..i] == items[..i];
        seasonal := seasonal[SeasonPkOf(items[i]) := items[i]];
      }
      assert items[..|items|] == items;
      UpsertFilesByKey(old(seasonal), items, SeasonPkOf);
    }

    /** `update_daily_summaries`: for every metering point, upsert its daily summary rows. */
    method UpdateDailySummaries(meters: seq<Meter>)
      modifies this
      requires Valid()
      ensures Valid()
      ensures daily == UpsertBatches(old(daily), DailyBatches(meters), DailyPkOf)
      ensures seasonal == old(seasonal)
    {
      for i := 0 to |meters|
        invariant Valid()
        invariant daily == UpsertBatches(old(daily), DailyBatches(meters)[..i], DailyPkOf)
        invariant seasonal == old(seasonal)
      {
        var items := CalcDailySummary(meters[i].nmi, meters[i].channels);
        assert DailyBatches(meters)[..i + 1][..i] == DailyBatches(meters)[..i];
        UpsertDaily(items);
      }
      assert DailyBatches(meters)[..|meters|] == DailyBatches(meters);
    }

    /** `select * from daily_reads where nmi = :nmi`, in whatever order the store returns the rows. */
    method QueryDaily(nmi: string) returns (rows: seq<DailyRow>)
      requires Valid()
      ensures IsListingOf(rows, daily, nmi)
    {
      var remaining := daily.Keys;
      rows := [];
      while remaining != {}
        invariant remaining <= daily.Keys
        invariant Distinct(rows)
        invariant forall r :: r in rows <==>
                    DailyPkOf(r) in daily && DailyPkOf(r) !in remaining && daily[DailyPkOf(r)] == r && r.nmi == nmi
        decreases |remaining|
      {
        var k :| k in remaining;
        if k.nmi == nmi {
          var r := daily[k];
          assert r !in rows;
          rows := rows + [r];
        }
        remaining := remaining - {k};
      }
      forall r
        ensures r in rows <==> r in RowsOf(daily, nmi)
      {
        if r in RowsOf(daily, nmi) {
          var k :| k in daily && k.nmi == nmi && daily[k] == r;
        }
      }
    }

    /**
     * `update_seasonal_summaries`: for every metering point, list its daily
     * rows, compute the seasonal summary and upsert it. The resulting table
     * does not depend on the order the rows are listed in.
     */
    method UpdateSeasonalSummaries(nmis: seq<string>)
      modifies this
      requires Valid()
      ensures Valid()
      ensures seasonal == UpsertBatches(old(seasonal), SeasonalBatches(daily, nmis), SeasonPkOf)
      ensures daily == old(daily)
    {
      for i := 0 to |nmis|
        invariant Valid()
        invariant seasonal == UpsertBatches(old(seasonal), SeasonalBatches(daily, nmis)[..i], SeasonPkOf)
        invariant daily == old(daily)
      {
        var rows := QueryDaily(nmis[i]);
        var items := CalcSeasonalSummary(nmis[i], rows);
        SeasonalUpsertIgnoresListingOrder(seasonal, daily, nmis[i], rows);
        assert SeasonalBatches(daily, nmis)[..i + 1][..i] == SeasonalBatches(daily, nmis)[..i];
        UpsertSeasonal(items);
      }
      assert SeasonalBatches(daily, nmis)[..|nmis|] == SeasonalBatches(daily, nmis);
    }
  }
}
