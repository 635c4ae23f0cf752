/**
 * The merge of the two feeds' records into one trains array (ACE first, then BDFM) and its
 * in-place sort with the comparator (a, b) => parseInt(a.arrivalTimeRel) - parseInt(b.arrivalTimeRel).
 */
module Aggregation {
  import opened Wrappers
  import opened GtfsRealtime
  import opened JsNumber
  import opened Extraction
  import opened Sorting

  /** parseInt of the record's arrivalTimeRel is a number, not NaN. */
  predicate Parses(t: Train) {
    ParseInt(t.arrivalTimeRel).Some?
  }

  predicate AllParse(s: seq<Train>) {
    forall k :: 0 <= k < |s| ==> Parses(s[k])
  }

  /**
   * The comparator's key: parseInt of "<minutes> mins". Every record the feeds give parses
   * (MergedParses), so the value 0 given to a NaN is never consulted.
   */
  function MinutesKey(t: Train): int {
    match ParseInt(t.arrivalTimeRel)
    case Some(m) => m
    case None => 0
  }

  /** The trains array after both processFeed calls: the ACE feed's records, then the BDFM feed's. */
  function Merged(ace: Option<FeedMessage>, bdfm: Option<FeedMessage>, now: int): seq<Train> {
    Extract(ace, now) + Extract(bdfm, now)
  }

  /** The trains array after the sort. */
  function Arrivals(ace: Option<FeedMessage>, bdfm: Option<FeedMessage>, now: int): seq<Train> {
    SortBy(Merged(ace, bdfm, now), MinutesKey)
  }

  /**
   * trains.sort((a, b) => key(a) - key(b)): an insertion sort that swaps a record leftward past
   * every record with a larger key, leaving the array holding the stable sort of its old contents.
   */
  method SortTrains(trains: TrainList, key: Train -> int)
    modifies trains
    ensures trains.items == SortBy(old(trains.items), key)
  {
    ghost var original := trains.items;
    var n := |trains.items|;
    var i := 0;
    while i < n
      invariant 0 <= i <= n && |trains.items| == n
      invariant trains.items[..i] == SortBy(original[..i], key)
      invariant trains.items[i..] == original[i..]
    {
      ghost var before := trains.items;
      SinkRecord(trains, i, key);
      assert before[i] == original[i];
      assert original[..i + 1][..i] == original[..i];
      assert original[..i + 1][i] == original[i];
      i := i + 1;
    }
    assert original[..n] == original;
  }

  /** One pass of the insertion sort: move the record at i left past every larger-keyed one before it. */
  method SinkRecord(trains: TrainList, i: nat, key: Train -> int)
    requires i < |trains.items|
    modifies trains
    ensures |trains.items| == |old(trains.items)|
    ensures trains.items[..i + 1] == Insert(old(trains.items)[..i], old(trains.items)[i], key)
    ensures trains.items[i + 1..] == old(trains.items)[i + 1..]
  {
    ghost var prefix := trains.items[..i];
    var x := trains.items[i];
    var j := i;
    while j > 0 && key(trains.items[j - 1]) > key(trains.items[j])
      invariant 0 <= j <= i && |trains.items| == |old(trains.items)|
      invariant trains.items[j] == x
      invariant trains.items[..j] + trains.items[j + 1..i + 1] == prefix
      invariant forall k :: j < k <= i ==> key(trains.items[k]) > key(x)
      invariant trains.items[i + 1..] == old(trains.items)[i + 1..]
    {
      SwapStep(trains.items, j, i);
      trains.items := trains.items[j - 1 := trains.items[j]][j := trains.items[j - 1]];
      j := j - 1;
    }
    InsertAfterSmaller(trains.items[..j], x, trains.items[j + 1..i + 1], key);
    assert trains.items[..i + 1] == trains.items[..j] + [x] + trains.items[j + 1..i + 1];
  }

  /** One swap of SortTrains' inner loop moves s[j] one place left and keeps the rest in place. */
  lemma SwapStep(s: seq<Train>, j: nat, i: nat)
    requires 0 < j <= i < |s|
    ensures var s' := s[j - 1 := s[j]][j := s[j - 1]];
      && s'[..j - 1] + s'[j..i + 1] == s[..j] + s[j + 1..i + 1]
      && s'[j - 1] == s[j]
      && s'[i + 1..] == s[i + 1..]
      && (forall k :: j - 1 < k <= i ==> s'[k] == (if k == j then s[j - 1] else s[k]))
  {
    var s' := s[j - 1 := s[j]][j := s[j - 1]];
    assert s'[..j - 1] == s[..j - 1];
    assert s'[j..i + 1] == [s[j - 1]] + s[j + 1..i + 1];
    assert s[..j] == s[..j - 1] + [s[j - 1]];
  }

  /** Every extracted record parses, so the comparator is consistent on the merged array. */
  lemma MergedParses(ace: Option<FeedMessage>, bdfm: Option<FeedMessage>, now: int)
    ensures AllParse(Merged(ace, bdfm, now))
    ensures forall t :: t in Merged(ace, bdfm, now) ==> ValidRecord(t, now)
  {
    ExtractValid(ace, now);
    ExtractValid(bdfm, now);
    var merged := Merged(ace, bdfm, now);
    forall k | 0 <= k < |merged| ensures Parses(merged[k]) {
      assert merged[k] in merged;
    }
  }

  /** The sorted array is empty exactly when neither feed gave a record. */
  lemma ArrivalsEmpty(ace: Option<FeedMessage>, bdfm: Option<FeedMessage>, now: int)
    ensures Arrivals(ace, bdfm, now) == [] <==> Extract(ace, now) + Extract(bdfm, now) == []
  {
    var merged := Merged(ace, bdfm, now);
    SortByPermutes(merged, MinutesKey);
    assert |Arrivals(ace, bdfm, now)| == |multiset(merged)| == |merged|;
  }

  /**
   * The sorted trains array holds exactly the records of both feeds, each valid, ascending by
   * minutes; records with equal minutes keep their order: first the ACE feed's, in feed order,
   * then the BDFM feed's.
   */
  lemma ArrivalsSpec(ace: Option<FeedMessage>, bdfm: Option<FeedMessage>, now: int)
    ensures multiset(Arrivals(ace, bdfm, now)) == multiset(Extract(ace, now)) + multiset(Extract(bdfm, now))
    ensures Sorted(Arrivals(ace, bdfm, now), MinutesKey)
    ensures forall t :: t in Arrivals(ace, bdfm, now) ==> ValidRecord(t, now)
    ensures forall m :: WithKey(Arrivals(ace, bdfm, now), MinutesKey, m)
                     == WithKey(Extract(ace, now), MinutesKey, m) + WithKey(Extract(bdfm, now), MinutesKey, m)
  {
    var merged := Merged(ace, bdfm, now);
    var sorted := Arrivals(ace, bdfm, now);
    SortByPermutes(merged, MinutesKey);
    SortBySorted(merged, MinutesKey);
    MergedParses(ace, bdfm, now);
    forall t | t in sorted ensures ValidRecord(t, now) {
      assert t in multiset(sorted);
    }
    forall m ensures WithKey(sorted, MinutesKey, m)
                  == WithKey(Extract(ace, now), MinutesKey, m) + WithKey(Extract(bdfm, now), MinutesKey, m) {
      SortByStable(merged, MinutesKey, m);
      WithKeyAppend(Extract(ace, now), Extract(bdfm, now), MinutesKey, m);
    }
  }
}
