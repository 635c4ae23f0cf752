/**
 * A worked example at the clock reading 1 700 000 000 000 ms. The ACE feed has a C train due
 * northbound in 5 minutes, one at the next stop up the line, a southbound update whose arrival
 * carries no time (so its departure is ignored) and a southbound C train in 2 minutes. The BDFM
 * feed has a southbound B train in 5 minutes known only by its departure, a northbound B train
 * in 9 minutes, one that already left and an entity that is not a trip update.
 */
module Scenario {
  import opened Wrappers
  import opened GtfsRealtime
  import opened Collections
  import opened JsNumber
  import opened Extraction
  import opened Sorting
  import opened Aggregation
  import opened Composition

  const Now: int := 1_700_000_000_000

  function At(stopId: string, arrival: Option<int>, departure: Option<int>): StopTimeUpdate {
    StopTimeUpdate(Some(stopId),
                   if arrival.Some? then Some(StopTimeEvent(arrival)) else None,
                   if departure.Some? then Some(StopTimeEvent(departure)) else None)
  }

  function TimelessArrival(stopId: string, departure: int): StopTimeUpdate {
    StopTimeUpdate(Some(stopId), Some(StopTimeEvent(None)), Some(StopTimeEvent(Some(departure))))
  }

  const AceFeed: FeedMessage := FeedMessage([
    FeedEntity(Some(TripUpdate("C", [At("A17N", Some(1_700_000_300), None),
                                     At("A16N", Some(1_700_000_400), None)]))),
    FeedEntity(Some(TripUpdate("C", [TimelessArrival("A17S", 1_700_000_060),
                                     At("A17S", Some(1_700_000_120), None)])))])

  const BdfmFeed: FeedMessage := FeedMessage([
    FeedEntity(Some(TripUpdate("B", [At("A17S", None, Some(1_700_000_290)),
                                     At("A17N", Some(1_700_000_540), None)]))),
    FeedEntity(None),
    FeedEntity(Some(TripUpdate("B", [At("A17N", Some(1_699_999_000), None)])))])

  const SouthC2: Train := Train("C", Southbound, 1_700_000_120_000, NatToDecimal(2) + MinsSuffix, "A17S")
  const NorthC5: Train := Train("C", Northbound, 1_700_000_300_000, NatToDecimal(5) + MinsSuffix, "A17N")
  const SouthB5: Train := Train("B", Southbound, 1_700_000_290_000, NatToDecimal(5) + MinsSuffix, "A17S")
  const NorthB9: Train := Train("B", Northbound, 1_700_000_540_000, NatToDecimal(9) + MinsSuffix, "A17N")

  lemma SmallDecimals()
    ensures NatToDecimal(2) == "2" && NatToDecimal(5) == "5" && NatToDecimal(9) == "9"
  {
  }

  /** The record an update at the station yields for a future, whole-minute-rounded instant. */
  lemma Emits(routeId: string, u: StopTimeUpdate, seconds: int, minutes: nat, t: Train)
    requires u.stopId.Some? && HasPrefix(u.stopId.value, StationId)
    requires SelectedTime(u) == Some(seconds) && seconds != 0
    requires IsTimeValue(seconds * 1000) && seconds * 1000 > Now
    requires RoundMinutes(seconds * 1000 - Now) == minutes && NatToDecimal(minutes) + MinsSuffix == t.arrivalTimeRel
    requires t == Train(routeId, DirectionOf(u.stopId.value), seconds * 1000, t.arrivalTimeRel, u.stopId.value)
    ensures ExtractUpdate(routeId, u, Now) == Some(t)
  {
  }

  lemma Directions()
    ensures DirectionOf("A17N") == Northbound && DirectionOf("A17S") == Southbound
  {
    assert "A17N"[3] == 'N';
  }

  lemma OnStation()
    ensures HasPrefix("A17N", StationId) && HasPrefix("A17S", StationId) && !HasPrefix("A16N", StationId)
  {
    assert "A16N"[2] != StationId[2];
  }

  lemma UpdateOutcomes()
    ensures ExtractUpdate("C", At("A17N", Some(1_700_000_300), None), Now) == Some(NorthC5)
    ensures ExtractUpdate("C", At("A16N", Some(1_700_000_400), None), Now) == None
    ensures ExtractUpdate("C", TimelessArrival("A17S", 1_700_000_060), Now) == None
    ensures ExtractUpdate("C", At("A17S", Some(1_700_000_120), None), Now) == Some(SouthC2)
    ensures ExtractUpdate("B", At("A17S", None, Some(1_700_000_290)), Now) == Some(SouthB5)
    ensures ExtractUpdate("B", At("A17N", Some(1_700_000_540), None), Now) == Some(NorthB9)
    ensures ExtractUpdate("B", At("A17N", Some(1_699_999_000), None), Now) == None
  {
    SmallDecimals();
    Directions();
    OnStation();
    Emits("C", At("A17N", Some(1_700_000_300), None), 1_700_000_300, 5, NorthC5);
    Emits("C", At("A17S", Some(1_700_000_120), None), 1_700_000_120, 2, SouthC2);
    Emits("B", At("A17S", None, Some(1_700_000_290)), 1_700_000_290, 5, SouthB5);
    Emits("B", At("A17N", Some(1_700_000_540), None), 1_700_000_540, 9, NorthB9);
  }

  /** The records of a trip with two stop time updates. */
  lemma TwoUpdates(routeId: string, u0: StopTimeUpdate, u1: StopTimeUpdate, now: int)
    ensures UpdatesRecords(routeId, [u0, u1], now)
         == Somes([ExtractUpdate(routeId, u0, now)]) + Somes([ExtractUpdate(routeId, u1, now)])
  {
    var rs := UpdateResults(routeId, [u0, u1], now);
    assert rs == [ExtractUpdate(routeId, u0, now)] + [ExtractUpdate(routeId, u1, now)];
    SomesAppend([ExtractUpdate(routeId, u0, now)], [ExtractUpdate(routeId, u1, now)]);
  }

  lemma OneUpdate(routeId: string, u: StopTimeUpdate, now: int)
    ensures UpdatesRecords(routeId, [u], now) == Somes([ExtractUpdate(routeId, u, now)])
  {
    assert UpdateResults(routeId, [u], now) == [ExtractUpdate(routeId, u, now)];
  }

  lemma TwoEntities(e0: FeedEntity, e1: FeedEntity, now: int)
    ensures EntitiesRecords([e0, e1], now) == EntityRecords(e0, now) + EntityRecords(e1, now)
  {
    assert EntityResults([e0, e1], now) == [EntityRecords(e0, now)] + [EntityRecords(e1, now)];
    FlattenAppend([EntityRecords(e0, now)], [EntityRecords(e1, now)]);
  }

  lemma ThreeEntities(e0: FeedEntity, e1: FeedEntity, e2: FeedEntity, now: int)
    ensures EntitiesRecords([e0, e1, e2], now)
         == EntityRecords(e0, now) + EntityRecords(e1, now) + EntityRecords(e2, now)
  {
    assert EntityResults([e0, e1, e2], now)
        == [EntityRecords(e0, now), EntityRecords(e1, now)] + [EntityRecords(e2, now)];
    FlattenAppend([EntityRecords(e0, now), EntityRecords(e1, now)], [EntityRecords(e2, now)]);
    assert EntityResults([e0, e1], now) == [EntityRecords(e0, now), EntityRecords(e1, now)];
    TwoEntities(e0, e1, now);
  }

  /** Each feed yields its records in entity order, then update order. */
  lemma ScenarioRecords()
    ensures Extract(Some(AceFeed), Now) == [NorthC5, SouthC2]
    ensures Extract(Some(BdfmFeed), Now) == [SouthB5, NorthB9]
  {
    UpdateOutcomes();
    var ace := AceFeed.entity;
    TwoUpdates("C", At("A17N", Some(1_700_000_300), None), At("A16N", Some(1_700_000_400), None), Now);
    TwoUpdates("C", TimelessArrival("A17S", 1_700_000_060), At("A17S", Some(1_700_000_120), None), Now);
    assert EntityRecords(ace[0], Now) == [NorthC5];
    assert EntityRecords(ace[1], Now) == [SouthC2];
    TwoEntities(ace[0], ace[1], Now);
    var bdfm := BdfmFeed.entity;
    TwoUpdates("B", At("A17S", None, Some(1_700_000_290)), At("A17N", Some(1_700_000_540), None), Now);
    OneUpdate("B", At("A17N", Some(1_699_999_000), None), Now);
    assert EntityRecords(bdfm[0], Now) == [SouthB5, NorthB9];
    assert EntityRecords(bdfm[1], Now) == [];
    assert EntityRecords(bdfm[2], Now) == [];
    ThreeEntities(bdfm[0], bdfm[1], bdfm[2], Now);
  }

  lemma KeyOf(t: Train, n: nat)
    requires t.arrivalTimeRel == NatToDecimal(n) + MinsSuffix
    ensures MinutesKey(t) == n
  {
    ParseIntOfDecimal(n, MinsSuffix);
  }

  lemma Keys()
    ensures MinutesKey(SouthC2) == 2 && MinutesKey(NorthC5) == 5
    ensures MinutesKey(SouthB5) == 5 && MinutesKey(NorthB9) == 9
  {
    SmallDecimals();
    KeyOf(SouthC2, 2);
    KeyOf(NorthC5, 5);
    KeyOf(SouthB5, 5);
    KeyOf(NorthB9, 9);
  }

  /** Sorting four elements whose keys are 5, 2, 5, 9: only the second moves, to the front. */
  lemma SortFour<T>(a: T, b: T, c: T, d: T, key: T -> int)
    requires key(a) == 5 && key(b) == 2 && key(c) == 5 && key(d) == 9
    ensures SortBy([a, b, c, d], key) == [b, a, c, d]
  {
    var s := [a, b, c, d];
    assert s[..3][..2][..1] == [a] && [a][..0] == [];
    assert SortBy([a], key) == [a];
    assert Insert([a], b, key) == Insert([], b, key) + [a] == [b, a];
    assert s[..3][..2] == [a, b];
    assert SortBy([a, b], key) == [b, a];
    assert s[..3] == [a, b, c];
    assert SortBy([a, b, c], key) == [b, a, c];
    assert SortBy(s, key) == Insert([b, a, c], d, key);
  }

  /** Before the sort: the ACE feed's records, then the BDFM feed's. */
  lemma ScenarioMerged()
    ensures Merged(Some(AceFeed), Some(BdfmFeed), Now) == [NorthC5, SouthC2, SouthB5, NorthB9]
  {
    ScenarioRecords();
  }

  /**
   * After the sort the southbound C train in 2 minutes leads; the two 5-minute trains keep the
   * ACE feed's ahead of the BDFM feed's.
   */
  lemma ScenarioArrivals()
    ensures Arrivals(Some(AceFeed), Some(BdfmFeed), Now) == [SouthC2, NorthC5, SouthB5, NorthB9]
  {
    ScenarioMerged();
    Keys();
    SortFour(NorthC5, SouthC2, SouthB5, NorthB9, MinutesKey);
  }

  lemma RenderOf(t: Train, n: nat)
    requires t.arrivalTimeRel == NatToDecimal(n) + MinsSuffix
    ensures Render(t) == t.direction.Label() + " " + t.routeId + " train in " + NatToDecimal(n) + " mins"
  {
  }

  lemma RenderSouthC2()
    ensures Render(SouthC2) == "Southbound C train in 2 mins"
  {
    SmallDecimals();
    RenderOf(SouthC2, 2);
  }

  lemma RenderNorthC5()
    ensures Render(NorthC5) == "Northbound C train in 5 mins"
  {
    SmallDecimals();
    RenderOf(NorthC5, 5);
  }

  lemma RenderSouthB5()
    ensures Render(SouthB5) == "Southbound B train in 5 mins"
  {
    SmallDecimals();
    RenderOf(SouthB5, 5);
  }

  /** The announcement names the three soonest trains; the 9-minute B train is left unsaid. */
  lemma ScenarioBroadcast()
    ensures Compose(Arrivals(Some(AceFeed), Some(BdfmFeed), Now)).announcement
         == AnnouncementPrefix + "Southbound C train in 2 mins" + ", " + "Northbound C train in 5 mins"
          + ", " + "Southbound B train in 5 mins"
  {
    ScenarioArrivals();
    ComposeNamesSoonest([SouthC2, NorthC5, SouthB5, NorthB9]);
    RenderSouthC2();
    RenderNorthC5();
    RenderSouthB5();
  }

  /** With both fetches failed the fixed sentence is spoken and "No trains found." replied. */
  lemma BothFeedsFailed(now: int)
    ensures Compose(Arrivals(None, None, now)) == Broadcast(NoTrainsAnnouncement, NoTrainsReply)
  {
  }
}
