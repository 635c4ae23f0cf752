/**
 * The decoded GTFS-realtime feed, as far as the arrival pipeline looks at it.
 * Decoding itself (protocol buffers) is outside the model: a feed is given as a value,
 * and a failed fetch or decode is the absent feed `None`.
 */
module GtfsRealtime {
  import opened Wrappers

  /** A StopTimeEvent: the predicted instant, in POSIX seconds, when present. */
  datatype StopTimeEvent = StopTimeEvent(time: Option<int>)

  /** A StopTimeUpdate: the stop it is for and the optional arrival and departure events. */
  datatype StopTimeUpdate = StopTimeUpdate(
    stopId: Option<string>,
    arrival: Option<StopTimeEvent>,
    departure: Option<StopTimeEvent>)

  /** A TripUpdate: the route of its trip and its stop time updates, in feed order. */
  datatype TripUpdate = TripUpdate(routeId: string, stopTimeUpdate: seq<StopTimeUpdate>)

  /** A FeedEntity; only those carrying a trip update matter here. */
  datatype FeedEntity = FeedEntity(tripUpdate: Option<TripUpdate>)

  /** A FeedMessage: its entities, in feed order. */
  datatype FeedMessage = FeedMessage(entity: seq<FeedEntity>)
}
