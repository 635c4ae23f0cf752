/**
 * processFeed: the walk over one decoded feed that pushes an arrival record onto the
 * caller's trains array for every stop time update at Cathedral Parkway that lies in the future.
 * The clock is the parameter `now` (epoch milliseconds), one reading for the whole request.
 */
module Extraction {
  import opened Wrappers
  import opened GtfsRealtime
  import opened JsNumber
  import opened Collections

  /** The parent stop id of Cathedral Parkway (110 St); its platforms are A17N and A17S. */
  const StationId: string := "A17"

  /** What follows the minute count in a record's arrivalTimeRel text. */
  const MinsSuffix: string := " mins"

  datatype Direction = Northbound | Southbound {
    /** The text the record carries and the announcement speaks. */
    function Label(): string {
      match this
      case Northbound => "Northbound"
      case Southbound => "Southbound"
    }
  }

  /**
   * One arrival record. arrivalTime is the arrival instant in epoch milliseconds (the source
   * keeps it as a locale-formatted string); arrivalTimeRel is the text "<minutes> mins".
   */
  datatype Train = Train(
    routeId: string,
    direction: Direction,
    arrivalTime: int,
    arrivalTimeRel: string,
    stopId: string)

  /** String.prototype.startsWith. */
  predicate HasPrefix(s: string, prefix: string) {
    |prefix| <= |s| && s[..|prefix|] == prefix
  }

  /** Direction by the stop id's text: any 'N' in it means northbound. */
  function DirectionOf(stopId: string): Direction {
    if 'N' in stopId then Northbound else Southbound
  }

  /** The arrival's time when an arrival is present (whatever that time is), else the departure's. */
  function SelectedTime(u: StopTimeUpdate): Option<int> {
    if u.arrival.Some? then u.arrival.value.time
    else if u.departure.Some? then u.departure.value.time
    else None
  }

  /** JavaScript truthiness of the selected time: absent and 0 are falsy. */
  predicate IsTruthy(time: Option<int>) {
    time.Some? && time.value != 0
  }

  /** What every record the extraction emits satisfies, relative to the clock reading `now`. */
  predicate ValidRecord(t: Train, now: int) {
    && HasPrefix(t.stopId, StationId)
    && (t.direction == Northbound <==> 'N' in t.stopId)
    && now < t.arrivalTime && IsTimeValue(t.arrivalTime) && t.arrivalTime % 1000 == 0
    && ParseInt(t.arrivalTimeRel).Some?
    && ParseInt(t.arrivalTimeRel).value >= 0
    && RoundsTo(ParseInt(t.arrivalTimeRel).value, t.arrivalTime - now)
    && t.arrivalTimeRel == NatToDecimal(ParseInt(t.arrivalTimeRel).value) + MinsSuffix
  }

  /** The arrival instant, in epoch milliseconds, of a time in POSIX seconds (new Date(time * 1000)). */
  function ArrivalInstant(time: int): int {
    time * 1000
  }

  /** The update is for the station and its selected time is truthy, a valid date and after now. */
  predicate Qualifies(u: StopTimeUpdate, now: int) {
    && u.stopId.Some? && HasPrefix(u.stopId.value, StationId)
    && IsTruthy(SelectedTime(u))
    && IsTimeValue(ArrivalInstant(SelectedTime(u).value))
    && ArrivalInstant(SelectedTime(u).value) > now
  }

  /** The record pushed for a stop at an arrival instant, with minutes counted from now. */
  function MakeTrain(routeId: string, stopId: string, arrivalTime: int, now: int): Train
    requires arrivalTime > now
  {
    var minutes := RoundMinutes(arrivalTime - now);
    Train(routeId, DirectionOf(stopId), arrivalTime, NatToDecimal(minutes) + MinsSuffix, stopId)
  }

  /** The record (if any) that one stop time update of a trip on route `routeId` yields. */
  function ExtractUpdate(routeId: string, u: StopTimeUpdate, now: int): Option<Train> {
    if Qualifies(u, now) then
      Some(MakeTrain(routeId, u.stopId.value, ArrivalInstant(SelectedTime(u).value), now))
    else None
  }

  /**
   * What one stop time update yields: a record exactly when its stop id starts with the station
   * id, its selected time (the arrival's whenever an arrival is present) is truthy and its
   * arrival instant is a valid date strictly after now; and then one that is valid, on the
   * trip's route, at the update's stop and at the selected time.
   */
  lemma ExtractUpdateSpec(routeId: string, u: StopTimeUpdate, now: int)
    ensures var r := ExtractUpdate(routeId, u, now);
      && (r.Some? ==> ValidRecord(r.value, now))
      && (r.Some? ==> r.value.routeId == routeId && u.stopId == Some(r.value.stopId))
      && (r.Some? ==> SelectedTime(u).Some? && r.value.arrivalTime == SelectedTime(u).value * 1000)
      && (u.stopId.None? || !HasPrefix(u.stopId.value, StationId) ==> r.None?)
      && (u.arrival.Some? && !IsTruthy(u.arrival.value.time) ==> r.None?)
      && (u.arrival.None? && u.departure.None? ==> r.None?)
      && (r.Some? <==>
            && u.stopId.Some? && HasPrefix(u.stopId.value, StationId) && IsTruthy(SelectedTime(u))
            && IsTimeValue(SelectedTime(u).value * 1000) && SelectedTime(u).value * 1000 > now)
  {
    if Qualifies(u, now) {
      MakeTrainValid(routeId, u.stopId.value, ArrivalInstant(SelectedTime(u).value), now);
    }
  }

  /** A record made for a station stop at a whole-second, valid, future instant is valid. */
  lemma MakeTrainValid(routeId: string, stopId: string, arrivalTime: int, now: int)
    requires HasPrefix(stopId, StationId) && now < arrivalTime && IsTimeValue(arrivalTime)
    requires arrivalTime % 1000 == 0
    ensures ValidRecord(MakeTrain(routeId, stopId, arrivalTime, now), now)
  {
    var minutes := RoundMinutes(arrivalTime - now);
    ParseIntOfDecimal(minutes, MinsSuffix);
    var t := MakeTrain(routeId, stopId, arrivalTime, now);
    assert ParseInt(t.arrivalTimeRel) == Some(minutes);
  }

  /** What each of a trip's stop time updates yields, position by position. */
  function UpdateResults(routeId: string, us: seq<StopTimeUpdate>, now: int): seq<Option<Train>> {
    seq(|us|, j requires 0 <= j < |us| => ExtractUpdate(routeId, us[j], now))
  }

  /** The records of a trip's stop time updates, in update order. */
  function UpdatesRecords(routeId: string, us: seq<StopTimeUpdate>, now: int): seq<Train> {
    Somes(UpdateResults(routeId, us, now))
  }

  /** The records of one entity: none unless it carries a trip update. */
  function EntityRecords(e: FeedEntity, now: int): seq<Train> {
    match e.tripUpdate
    case None => []
    case Some(tu) => UpdatesRecords(tu.routeId, tu.stopTimeUpdate, now)
  }

  /** What each entity yields, entity by entity. */
  function EntityResults(es: seq<FeedEntity>, now: int): seq<seq<Train>> {
    seq(|es|, i requires 0 <= i < |es| => EntityRecords(es[i], now))
  }

  /** The records of a run of entities, in entity order. */
  function EntitiesRecords(es: seq<FeedEntity>, now: int): seq<Train> {
    Flatten(EntityResults(es, now))
  }

  /** Everything processFeed appends for one feed; nothing for an absent feed. */
  function Extract(feed: Option<FeedMessage>, now: int): seq<Train> {
    match feed
    case None => []
    case Some(f) => EntitiesRecords(f.entity, now)
  }

  /** The trains array that processFeed appends to, owned by the caller. */
  class TrainList {
    var items: seq<Train>

    constructor ()
      ensures items == []
    {
      items := [];
    }

    /** Array.prototype.push. */
    method Push(t: Train)
      modifies this
      ensures items == old(items) + [t]
    {
      items := items + [t];
    }
  }

  /** The inner forEach of processFeed: push the records of one trip update's stop time updates. */
  method ProcessTripUpdate(tripUpdate: TripUpdate, trains: TrainList, now: int)
    modifies trains
    ensures trains.items == old(trains.items) + UpdatesRecords(tripUpdate.routeId, tripUpdate.stopTimeUpdate, now)
  {
    var updates := tripUpdate.stopTimeUpdate;
    var j := 0;
    while j < |updates|
      invariant 0 <= j <= |updates|
      invariant trains.items == old(trains.items) + UpdatesRecords(tripUpdate.routeId, updates[..j], now)
    {
      var record := ExtractUpdate(tripUpdate.routeId, updates[j], now);
      if record.Some? {
        trains.Push(record.value);
      }
      UpdatesRecordsStep(tripUpdate.routeId, updates, j, now);
      j := j + 1;
    }
    assert updates[..j] == updates;
  }

  /** processFeed(feed, trains): append the feed's records to trains, leaving what was there untouched. */
  method ProcessFeed(feed: Option<FeedMessage>, trains: TrainList, now: int)
    modifies trains
    ensures trains.items == old(trains.items) + Extract(feed, now)
    ensures feed.None? ==> trains.items == old(trains.items)
  {
    if feed.None? {
      return;
    }
    var entities := feed.value.entity;
    var i := 0;
    while i < |entities|
      invariant 0 <= i <= |entities|
      invariant trains.items == old(trains.items) + EntitiesRecords(entities[..i], now)
    {
      var entity := entities[i];
      if entity.tripUpdate.Some? {
        ProcessTripUpdate(entity.tripUpdate.value, trains, now);
      }
      EntitiesRecordsStep(entities, i, now);
      i := i + 1;
    }
    assert entities[..i] == entities;
  }

  // Properties of the extraction.

  /** One more update appends what it yields. */
  lemma UpdatesRecordsStep(routeId: string, us: seq<StopTimeUpdate>, j: nat, now: int)
    requires j < |us|
    ensures UpdatesRecords(routeId, us[..j + 1], now)
         == UpdatesRecords(routeId, us[..j], now) + (var r := ExtractUpdate(routeId, us[j], now); if r.Some? then [r.value] else [])
  {
    var rs := UpdateResults(routeId, us[..j + 1], now);
    assert rs[..j] == UpdateResults(routeId, us[..j], now);
    assert rs[j] == ExtractUpdate(routeId, us[j], now);
  }

  /** One more entity appends its records. */
  lemma EntitiesRecordsStep(es: seq<FeedEntity>, i: nat, now: int)
    requires i < |es|
    ensures EntitiesRecords(es[..i + 1], now) == EntitiesRecords(es[..i], now) + EntityRecords(es[i], now)
  {
    var rs := EntityResults(es[..i + 1], now);
    assert rs[..i] == EntityResults(es[..i], now);
    assert rs[i] == EntityRecords(es[i], now);
  }

  /** Records of consecutive runs of stop time updates come out one run after the other. */
  lemma UpdatesRecordsAppend(routeId: string, a: seq<StopTimeUpdate>, b: seq<StopTimeUpdate>, now: int)
    ensures UpdatesRecords(routeId, a + b, now) == UpdatesRecords(routeId, a, now) + UpdatesRecords(routeId, b, now)
  {
    assert UpdateResults(routeId, a + b, now) == UpdateResults(routeId, a, now) + UpdateResults(routeId, b, now);
    SomesAppend(UpdateResults(routeId, a, now), UpdateResults(routeId, b, now));
  }

  /** Records of consecutive runs of entities come out one run after the other. */
  lemma EntitiesRecordsAppend(a: seq<FeedEntity>, b: seq<FeedEntity>, now: int)
    ensures EntitiesRecords(a + b, now) == EntitiesRecords(a, now) + EntitiesRecords(b, now)
  {
    assert EntityResults(a + b, now) == EntityResults(a, now) + EntityResults(b, now);
    FlattenAppend(EntityResults(a, now), EntityResults(b, now));
  }

  /** A record comes out of a trip's updates exactly when one of those updates yields it. */
  lemma UpdatesRecordsMembership(routeId: string, us: seq<StopTimeUpdate>, now: int, t: Train)
    ensures t in UpdatesRecords(routeId, us, now) <==> exists j :: 0 <= j < |us| && ExtractUpdate(routeId, us[j], now) == Some(t)
  {
    var rs := UpdateResults(routeId, us, now);
    SomesMembership(rs, t);
    assert forall j :: 0 <= j < |us| ==> rs[j] == ExtractUpdate(routeId, us[j], now);
  }

  /** The update at position j of entity i yields t. */
  predicate EmittedAt(es: seq<FeedEntity>, i: int, j: int, now: int, t: Train) {
    && 0 <= i < |es| && es[i].tripUpdate.Some?
    && 0 <= j < |es[i].tripUpdate.value.stopTimeUpdate|
    && ExtractUpdate(es[i].tripUpdate.value.routeId, es[i].tripUpdate.value.stopTimeUpdate[j], now) == Some(t)
  }

  /**
   * The extraction emits a record exactly when some stop time update of some trip of the feed
   * yields it: nothing is invented, nothing that qualifies is dropped.
   */
  lemma ExtractMembership(f: FeedMessage, now: int, t: Train)
    ensures t in Extract(Some(f), now) <==> exists i, j :: EmittedAt(f.entity, i, j, now, t)
  {
    var es := f.entity;
    var ss := EntityResults(es, now);
    FlattenMembership(ss, t);
    if t in Extract(Some(f), now) {
      var i :| 0 <= i < |ss| && t in ss[i];
      var tu := es[i].tripUpdate.value;
      UpdatesRecordsMembership(tu.routeId, tu.stopTimeUpdate, now, t);
      var j :| 0 <= j < |tu.stopTimeUpdate| && ExtractUpdate(tu.routeId, tu.stopTimeUpdate[j], now) == Some(t);
      assert EmittedAt(es, i, j, now, t);
    }
    if exists i, j :: EmittedAt(es, i, j, now, t) {
      var i, j :| EmittedAt(es, i, j, now, t);
      var tu := es[i].tripUpdate.value;
      UpdatesRecordsMembership(tu.routeId, tu.stopTimeUpdate, now, t);
      assert t in ss[i];
    }
  }

  /**
   * Every record extracted from a feed is at the station, strictly in the future, in the
   * direction its stop id names, and its text parses to the rounded number of minutes to go.
   */
  lemma ExtractValid(feed: Option<FeedMessage>, now: int)
    ensures forall t :: t in Extract(feed, now) ==> ValidRecord(t, now)
  {
    if feed.Some? {
      forall t | t in Extract(feed, now)
        ensures ValidRecord(t, now)
      {
        ExtractMembership(feed.value, now, t);
        var i, j :| EmittedAt(feed.value.entity, i, j, now, t);
        var tu := feed.value.entity[i].tripUpdate.value;
        ExtractUpdateSpec(tu.routeId, tu.stopTimeUpdate[j], now);
      }
    }
  }
}
