/**
 * Interval readings of one metering point, grouped by channel as the
 * reading store returns them, and the classification of channels into
 * import and export.
 */
module Readings {
  import opened Calendar
  import opened Units

  /** One interval reading: its start and the energy of the interval. */
  datatype Reading = Reading(start: Timestamp, value: Energy)

  /** A channel of a metering point with its readings, in store order. */
  datatype ChannelReadings = ChannelReadings(channel: string, readings: seq<Reading>)

  /** The export (feed-in) channel code; every other channel is import. */
  const ExportChannel: string := "B1"

  /** `feed_in = ch in ["B1"]` */
  predicate IsFeedIn(channel: string) {
    channel == ExportChannel
  }

  /** A reading together with the classification of the channel it came from. */
  datatype Tagged = Tagged(feedIn: bool, reading: Reading)

  function Tag(c: ChannelReadings): (ts: seq<Tagged>)
    ensures |ts| == |c.readings|
    ensures forall i :: 0 <= i < |ts| ==> ts[i] == Tagged(IsFeedIn(c.channel), c.readings[i])
  {
    seq(|c.readings|, i requires 0 <= i < |c.readings| => Tagged(IsFeedIn(c.channel), c.readings[i]))
  }

  /**
   * The readings in the order the program's nested loops visit them:
   * channel by channel, and within a channel in store order.
   */
  function Flatten(chs: seq<ChannelReadings>): seq<Tagged>
  {
    if |chs| == 0 then [] else Flatten(chs[..|chs| - 1]) + Tag(chs[|chs| - 1])
  }

  /**
   * The visited readings are exactly the channels' readings, each tagged as
   * export precisely when its channel is "B1".
   */
  lemma {:induction false} FlattenClassifiesByChannel(chs: seq<ChannelReadings>, t: Tagged)
    ensures t in Flatten(chs) <==>
              exists c :: c in chs && t.reading in c.readings && t.feedIn == IsFeedIn(c.channel)
  {
    if |chs| > 0 {
      var init, last := chs[..|chs| - 1], chs[|chs| - 1];
      FlattenClassifiesByChannel(init, t);
      assert Flatten(chs) == Flatten(init) + Tag(last);
      if t in Tag(last) {
        var i :| 0 <= i < |Tag(last)| && Tag(last)[i] == t;
        assert last in chs && t.reading == last.readings[i];
      }
      if exists c :: c in chs && t.reading in c.readings && t.feedIn == IsFeedIn(c.channel) {
        var c :| c in chs && t.reading in c.readings && t.feedIn == IsFeedIn(c.channel);
        if c == last {
          var i :| 0 <= i < |last.readings| && last.readings[i] == t.reading;
          assert Tag(last)[i] == t;
        } else {
          assert c in init;
        }
      }
    }
  }
}
