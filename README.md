# Cathedral Parkway arrivals, in Dafny

A model of the arrival pipeline of a small Node.js service. The service reads the MTA's GTFS-realtime
feeds for the ACE and BDFM lines and reports the next trains at Cathedral Parkway (110 St). It serves them as
JSON on `GET /cathedral-parkway`, and `POST /broadcast-trains` speaks them on a Google Home.

The model covers the three steps of that work.

- **Extraction** (`processFeed`). The walk over one decoded feed pushes a record onto the caller's
  `trains` array for every stop time update that meets three conditions:
  - its stop id starts with `A17`;
  - its selected time is truthy (the arrival's time whenever an arrival is present, otherwise the departure's);
  - that time lies strictly after the clock reading.

  A record carries the trip's route id and a direction: `Northbound` exactly when the stop id contains
  `N`. It also carries the arrival instant and the text `"<minutes> mins"`, where the minutes are
  `Math.round` of the milliseconds to go over 60000.
- **Aggregation**. A fresh array is filled from the ACE feed, then from the BDFM feed, and then sorted
  in place with the comparator `parseInt(a.arrivalTimeRel) - parseInt(b.arrivalTimeRel)`.
- **Composition** (`/broadcast-trains`). An empty list speaks "No upcoming trains found for
  Cathedral Parkway." and replies "No trains found.". Otherwise the first three records are rendered
  as `"<direction> <routeId> train in <N> mins"` and joined with `", "` after "Next trains at Cathedral
  Parkway: ". The reply is that message after "Broadcast triggered: ".

Modules:

- `Wrappers` holds `Option`.
- `GtfsRealtime` holds the decoded feed as datatypes.
- `Collections` holds the generic `Somes` and `Flatten` with their append and membership laws.
- `JsNumber` holds the JavaScript semantics the pipeline relies on:
  - the Date time-value range of ECMA-262 TimeClip;
  - `Math.round` of the quotient;
  - Number-to-string of a whole number;
  - the global `parseInt`: white space, sign, `0x` prefix and the longest digit run, with `None` for NaN.
- `Extraction` holds `processFeed`. The caller's array is the class `TrainList`, and `ProcessFeed` is a
  method with the source's two nested loops. `ProcessFeed` is proved equal to the specification function
  `Extract`, and the lemmas are about `Extract`.
- `Sorting` holds the stable insertion sort `SortBy` as a function over any integer key. It is proved
  sorted, a permutation and stable. It is also proved the only sequence with those three properties, so
  any stable sort gives the same array (ECMAScript 2019 requires `Array.prototype.sort` to be stable).
- `Aggregation` holds the merge and the in-place sort of the `TrainList`. The sort is proved equal to
  `SortBy`. Every extracted record parses, so the comparator is the key `MinutesKey` and never sees NaN.
- `Composition` builds the spoken message and the HTTP reply.
- `Pipeline` holds the handlers' shared work as methods over the fetched feeds and the clock reading.
- `Scenario` is a worked example with two feeds. It shows the departure fallback, the precedence of a
  timeless arrival, a past train, the stable tie between feeds and the cut after three entries.

The clock is the parameter `now`, in epoch milliseconds. A failed fetch is `None`.

A few facts about index.js that the model keeps:

- directions are labelled `Northbound` / `Southbound` (index.js:47);
- the announcement names the first three records overall (index.js:162);
- records carry no tag saying which feed they came from (index.js:45-51).

## Model

| member | source | states |
|---|---|---|
| JsNumber.RoundMinutes | index.js:49 | `Math.round(d / 60000)`: the minutes m with 60000·m − 30000 ≤ d < 60000·m + 30000 (a tie goes up); non-negative when d > 0 |
| JsNumber.RoundMinutesUnique | index.js:49 | exactly one whole number rounds from each millisecond difference, so any m within half a minute is the rounded value |
| JsNumber.NatToDecimalDigits | index.js:49 | the text of the minute count is a non-empty run of decimal digits, with no leading zero, whose value is the count |
| JsNumber.ParseIntPlain | index.js:73-74 | `parseInt` of text that starts with a digit not followed by x/X is the value of its leading decimal digits |
| JsNumber.ParseIntOfDecimal | index.js:73-74 | `parseInt` reads back the number that `n + ' mins'` wrote: `parseInt(String(n) + rest) = n` when rest starts with neither a digit nor x/X |
| Extraction.ExtractUpdateSpec | index.js:38-51 | one stop time update yields a record iff its stop id starts with A17, its selected time (the arrival's whenever there is an arrival) is truthy and a valid date, and the instant is after now; the record is valid (its text is the rounded minutes in decimal followed by " mins"), on the trip's route and at the update's stop and time |
| Extraction.MakeTrainValid | index.js:45-51 | a record made for a station stop at a future whole-second instant has direction Northbound iff its stop id contains 'N', and minutes text that is exactly the decimal digits of the rounded, non-negative minutes to go followed by " mins" |
| Extraction.TrainList.constructor | index.js:67 | `const trains = []`: the array starts empty |
| Extraction.TrainList.Push | index.js:45 | `trains.push(r)` appends r and changes nothing else |
| Extraction.ProcessTripUpdate | index.js:37-55 | the inner forEach appends exactly the records of the trip's updates, in update order, after what was there |
| Extraction.ProcessFeed | index.js:32-58 | `processFeed` appends exactly `Extract(feed, now)` after the old contents; a null feed leaves the array unchanged |
| Extraction.UpdatesRecordsStep | index.js:37-53 | one more stop time update appends the record it yields, if any |
| Extraction.EntitiesRecordsStep | index.js:35-57 | one more entity appends its trip's records |
| Extraction.UpdatesRecordsAppend | index.js:37-55 | records of consecutive runs of updates come out run after run (update order) |
| Extraction.EntitiesRecordsAppend | index.js:35-57 | records of consecutive runs of entities come out run after run (entity order) |
| Extraction.UpdatesRecordsMembership | index.js:37-53 | a record comes out of a trip iff one of its updates yields it |
| Extraction.ExtractMembership | index.js:35-57 | a record is extracted from a feed iff some update of some trip in it yields that record: nothing invented, nothing dropped |
| Extraction.ExtractValid | index.js:38-51 | every extracted record is at A17, strictly in the future, correctly directed, and its text is the rounded minutes to go in decimal followed by " mins" |
| Sorting.InsertPermutes | index.js:72-76 | one insertion adds the record and loses nothing |
| Sorting.InsertAfterSmaller | index.js:72-76 | inserting after a prefix ending in a key no larger and before records with larger keys places the record exactly there |
| Sorting.InsertSorted | index.js:72-76 | inserting into a sorted array keeps it sorted |
| Sorting.InsertWithKey | index.js:72-76 | insertion appends the record to its own key class and leaves the other classes unchanged |
| Sorting.SortByPermutes | index.js:72-76 | the sort is a permutation of its input |
| Sorting.SortBySorted | index.js:72-76 | the sort is non-decreasing in the key |
| Sorting.SortByStable | index.js:72-76 | stability: for every key value, the records with that key keep their input order |
| Sorting.StableSortUnique | index.js:72-76 | any sorted array that keeps each key class in input order is `SortBy` of the input, so the result does not depend on the engine's stable algorithm |
| Sorting.SortedClassesDetermine | index.js:72-76 | two sorted arrays with the same key classes are equal |
| Aggregation.SinkRecord | index.js:72-76 | one pass of the in-place sort: the first i+1 records become `Insert` of record i into the sorted first i; later records untouched |
| Aggregation.SortTrains | index.js:72-76 | `trains.sort(cmp)` leaves the array holding `SortBy` of its old contents, by the comparator's key |
| Aggregation.MergedParses | index.js:67-76 | every record of both feeds parses, so the comparator reads a number, never NaN |
| Aggregation.ArrivalsEmpty | index.js:145-159 | the sorted array is empty iff neither feed gave a record |
| Aggregation.ArrivalsSpec | index.js:145-154 | the sorted array is a permutation of ACE's records plus BDFM's; it is sorted by minutes and all records are valid; for equal minutes, ACE's records come first in feed order, then BDFM's |
| Composition.ComposeSpec | index.js:156-170 | the "no upcoming trains" sentence is spoken, and "No trains found." replied, iff the list is empty; otherwise the message starts with "Next trains at Cathedral Parkway: " and the reply is "Broadcast triggered: " plus it |
| Composition.JoinFew | index.js:164 | `join(', ')` of one, two or three parts puts the separator between the neighbours |
| Composition.EntriesOfSoonest | index.js:162-164 | the joined entries are the first one, two or three rendered records, in list order |
| Composition.ComposeNamesSoonest | index.js:161-166 | the message is the prefix followed by the first one, two or three records rendered as "<dir> <route> train in <N mins>", separated by ", " |
| Composition.ComposeIgnoresLater | index.js:162 | records after the third never change what is spoken or replied |
| Pipeline.CollectArrivals | index.js:145-154 | a fresh array, `processFeed` of ACE then BDFM, then the sort, gives `Arrivals`: the stable sort by minutes of both feeds' records |
| Pipeline.BroadcastTrains | index.js:145-170 | the handler's broadcast is `Compose` of the sorted arrivals; it speaks, and replies, the "none found" text iff neither feed gave a record |
| Scenario.ScenarioRecords | index.js:32-58 | worked example: the ACE feed yields [C north 5 min, C south 2 min] and the BDFM feed [B south 5 min, B north 9 min]; other stops, a timeless arrival and a past train are dropped |
| Scenario.ScenarioArrivals | index.js:145-154 | worked example: the sort gives [C south 2, C north 5, B south 5, B north 9], so ACE's 5-minute train stays ahead of BDFM's |
| Scenario.ScenarioBroadcast | index.js:161-166 | worked example: "Next trains at Cathedral Parkway: Southbound C train in 2 mins, Northbound C train in 5 mins, Southbound B train in 5 mins" |
| Scenario.BothFeedsFailed | index.js:156-158 | two failed fetches speak "No upcoming trains found for Cathedral Parkway." and reply "No trains found." |

## Left out

- `fetchFeed` (index.js:16-30), the network request and its protobuf decoding, is not modelled. A failed fetch is the input `None`, which is what the code turns every error into.
- `Promise.all` and the concurrency of the two fetches are left out. The model takes both results as inputs.
- The clock (`new Date()`) is the parameter `now`, one reading for the whole request. The source reads it afresh for every station update with a truthy time (index.js:42), in both feed walks. The two agree when the clock does not move during the request.
- `arrivalTime.toLocaleString()` is left out. A record keeps the arrival instant as epoch milliseconds, because the locale format depends on the host.
- `broadcast` (index.js:90-136) is left out: Google TTS, the Cast client, media loading and their logged errors. It is I/O with nothing returned to the handler, so the model stops at the text handed to it.
- The Express plumbing is left out: routes, `res.json` with the station name and timestamp, the 500 error responses and `app.listen`. The JSON route's array is the same `Arrivals` as the broadcast's.
- Feed times are taken as JavaScript numbers. Protobuf 64-bit values decoded as `Long` objects are not modelled. A decoded `Long` zero (the default for an event with no time) is truthy at index.js:40, so the source builds `new Date(0)` and drops it only by the future test at index.js:44, where the model drops it as falsy; the two agree whenever `now` is not negative.
- `JsNumber.RoundMinutes`: takes the quotient of the millisecond difference by 60000 exactly, while index.js:49 divides doubles. The two can differ only for differences of at least 2^53 ms near a half-minute tie. Such a difference needs a clock reading before about 9700 BCE (at most 8.64e15 − 2^53 ≈ −3.67e14 ms) together with an arrival near the largest Date.
- `NatToDecimal` is exact only below 1e21, where Number-to-string starts using exponents. Minute counts from valid dates stay far below that.
- `ParseInt` is exact on integers. For digit runs beyond 2^53 the real `parseInt` loses precision, but minute texts never reach that size.
- `Extraction.ExtractUpdateSpec`: the trip's `trip` field is assumed present. Where it is absent, the source would throw on `trip.routeId`.
- `stopTimeUpdate` is always a sequence. An absent field is the empty one, which the decoder produces and which yields nothing, as in the source.
- `Aggregation.MinutesKey`: gives 0 for a text that would parse to NaN. `MergedParses` shows no record of the pipeline has such a text, so this never changes the order.
- Equal keys are compared through the key itself rather than through the comparator's subtraction. The two agree whenever both texts parse, which is always the case here.
