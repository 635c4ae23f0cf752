/**
 * The two HTTP handlers' shared work, given the two fetched feeds (None for a failed fetch) and
 * the clock reading: fill a fresh trains array from the ACE feed and then the BDFM feed, sort it
 * by minutes, and, for /broadcast-trains, compose what is spoken and replied.
 */
module Pipeline {
  import opened Wrappers
  import opened GtfsRealtime
  import opened Extraction
  import opened Sorting
  import opened Aggregation
  import opened Composition

  /**
   * const trains = []; processFeed(feedACE, trains); processFeed(feedBDFM, trains); trains.sort(...)
   * The result is the stable sort by minutes of both feeds' records (ArrivalsSpec states what
   * that sequence holds).
   */
  method CollectArrivals(ace: Option<FeedMessage>, bdfm: Option<FeedMessage>, now: int)
    returns (arrivals: seq<Train>)
    ensures arrivals == Arrivals(ace, bdfm, now)
  {
    var trains := new TrainList();
    ProcessFeed(ace, trains, now);
    ProcessFeed(bdfm, trains, now);
    assert trains.items == Merged(ace, bdfm, now);
    // Every record parses, so comparing by MinutesKey is comparing by parseInt.
    MergedParses(ace, bdfm, now);
    SortTrains(trains, MinutesKey);
    arrivals := trains.items;
  }

  /** The /broadcast-trains handler without its I/O: what is spoken and what is replied. */
  method BroadcastTrains(ace: Option<FeedMessage>, bdfm: Option<FeedMessage>, now: int)
    returns (b: Broadcast)
    ensures b == Compose(Arrivals(ace, bdfm, now))
    ensures b.announcement == NoTrainsAnnouncement <==> Extract(ace, now) + Extract(bdfm, now) == []
    ensures b.reply == NoTrainsReply <==> Extract(ace, now) + Extract(bdfm, now) == []
  {
    var arrivals := CollectArrivals(ace, bdfm, now);
    ComposeSpec(arrivals);
    ArrivalsEmpty(ace, bdfm, now);
    b := Compose(arrivals);
  }
}
