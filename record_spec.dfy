/** What applyTripUpdatesToRecord computes, stated as functions: the timepoint prediction and
    the deviation candidates of one matched stop-time update, the trip updates read for the
    trips of a block, and, given the stops each stop-time update was matched to, the
    deviation accumulator, the predictions, the latest scheduled arrival and the
    single-timepoint flag after each trip of the block. The lemmas say what these are. */
module RecordSpec {
  import opened Wrappers
  import opened JavaInt
  import opened Feed
  import opened Schedule
  import opened StopMatcher
  import opened Deviation
  import opened Interpolation

  // ---------------------------------------------------------------------------
  // One stop-time update

  /** A prediction that is kept: a skipped stop, or one with a predicted time. */
  predicate IsKept(p: TimepointPrediction) {
    p.relationship == Skipped || p.predictedArrival != UNSET || p.predictedDeparture != UNSET
  }

  /** A skipped stop carries no scheduled and no predicted time. */
  predicate SkippedIsBare(p: TimepointPrediction) {
    p.relationship == Skipped ==> p.scheduledTime.None? && p.predictedArrival == UNSET && p.predictedDeparture == UNSET
  }

  /** The prediction recorded for a stop-time update matched to `stopTime`: a skipped stop
      gets none of its times; any other stop gets its scheduled arrival and, from the
      update's arrival and departure events, its predicted times. */
  function StopPrediction(serviceDate: int, stopTime: StopTimeEntry, update: StopTimeUpdate): (p: TimepointPrediction)
    ensures p.timepointId == stopTime.stop && p.tripId == stopTime.trip && p.stopSequence == update.stopSequence
    ensures SkippedIsBare(p)
    ensures p.relationship == Skipped <==> update.scheduleRelationship == Skipped
    ensures p.relationship != Skipped ==>
      && p.scheduledTime == Some(serviceDate + Wrap(stopTime.arrivalTime * 1000))
      && (ComputeArrivalTime(stopTime, update, serviceDate) >= 0 ==>
            p.predictedArrival == serviceDate + (ComputeArrivalTime(stopTime, update, serviceDate) as int) * 1000)
      && (ComputeArrivalTime(stopTime, update, serviceDate) < 0 ==> p.predictedArrival == UNSET)
      && (ComputeDepartureTime(stopTime, update, serviceDate) >= 0 ==>
            p.predictedDeparture == serviceDate + (ComputeDepartureTime(stopTime, update, serviceDate) as int) * 1000)
      && (ComputeDepartureTime(stopTime, update, serviceDate) < 0 ==> p.predictedDeparture == UNSET)
  {
    if update.scheduleRelationship == Skipped then
      TimepointPrediction(stopTime.stop, stopTime.trip, update.stopSequence, None, UNSET, UNSET, Skipped)
    else
      var arrival := ComputeArrivalTime(stopTime, update, serviceDate);
      var departure := ComputeDepartureTime(stopTime, update, serviceDate);
      TimepointPrediction(stopTime.stop, stopTime.trip, update.stopSequence,
        Some(serviceDate + Wrap(stopTime.arrivalTime * 1000)),
        if arrival >= 0 then serviceDate + (arrival as int) * 1000 else UNSET,
        if departure >= 0 then serviceDate + (departure as int) * 1000 else UNSET,
        StopScheduled)
  }

  /** The deviation candidates a stop-time update matched to `stopTime` offers, arrival
      first: none for a skipped stop, and one per event with a usable time. */
  function StopCandidates(serviceDate: int, stopTime: StopTimeEntry, update: StopTimeUpdate, currentTime: int32, tripId: Id)
    : (cs: seq<Candidate>)
    ensures |cs| <= 2
    ensures update.scheduleRelationship == Skipped ==> cs == []
    ensures forall c :: c in cs ==> c.currentTime == currentTime && c.tripId == tripId && c.actual >= 0
  {
    if update.scheduleRelationship == Skipped then []
    else
      var arrival := ComputeArrivalTime(stopTime, update, serviceDate);
      var departure := ComputeDepartureTime(stopTime, update, serviceDate);
      (if arrival >= 0 then [Candidate(currentTime, stopTime.arrivalTime, arrival, tripId)] else [])
      + (if departure >= 0 then [Candidate(currentTime, stopTime.departureTime, departure, tripId)] else [])
  }

  /** The latest of `latest` and the scheduled arrivals of the stops, each read as the
      service date plus the arrival in `int` milliseconds. */
  function LatestArrival(serviceDate: int, stopTimes: seq<StopTimeEntry>, latest: int): int {
    if |stopTimes| == 0 then latest
    else
      var earlier := LatestArrival(serviceDate, stopTimes[..|stopTimes| - 1], latest);
      var scheduleTime := serviceDate + Wrap(stopTimes[|stopTimes| - 1].arrivalTime * 1000);
      if scheduleTime > earlier then scheduleTime else earlier
  }

  /** `LatestArrival` is the maximum: no less than `latest` or any scheduled arrival, and
      equal to one of them. */
  lemma {:induction false} LatestArrivalIsLatest(serviceDate: int, stopTimes: seq<StopTimeEntry>, latest: int)
    ensures LatestArrival(serviceDate, stopTimes, latest) >= latest
    ensures forall i :: 0 <= i < |stopTimes| ==>
              LatestArrival(serviceDate, stopTimes, latest) >= serviceDate + Wrap(stopTimes[i].arrivalTime * 1000)
    ensures LatestArrival(serviceDate, stopTimes, latest) == latest
            || exists i :: 0 <= i < |stopTimes| && LatestArrival(serviceDate, stopTimes, latest) == serviceDate + Wrap(stopTimes[i].arrivalTime * 1000)
  {
    if |stopTimes| > 0 {
      var n := |stopTimes|;
      var init := stopTimes[..n - 1];
      LatestArrivalIsLatest(serviceDate, init, latest);
      assert forall i :: 0 <= i < n - 1 ==> init[i] == stopTimes[i];
      var earlier := LatestArrival(serviceDate, init, latest);
      if LatestArrival(serviceDate, stopTimes, latest) == earlier && earlier != latest {
        var i :| 0 <= i < n - 1 && earlier == serviceDate + Wrap(init[i].arrivalTime * 1000);
        assert earlier == serviceDate + Wrap(stopTimes[i].arrivalTime * 1000);
      }
    }
  }

  /** Reading a trip's scheduled arrivals a second time changes nothing, so the loop that
      reads them once per stop-time update leaves the same value as reading them once. */
  lemma LatestArrivalIdempotent(serviceDate: int, stopTimes: seq<StopTimeEntry>, latest: int)
    ensures LatestArrival(serviceDate, stopTimes, LatestArrival(serviceDate, stopTimes, latest))
         == LatestArrival(serviceDate, stopTimes, latest)
  {
    LatestArrivalIsLatest(serviceDate, stopTimes, latest);
    LatestArrivalIsLatest(serviceDate, stopTimes, LatestArrival(serviceDate, stopTimes, latest));
  }

  // ---------------------------------------------------------------------------
  // The trip updates read

  /** The trip updates the record builder reads, in order: for each trip of the block in
      turn, the updates whose trip id is that trip's id, in feed order. */
  function UpdatesForTrip(tus: seq<TripUpdate>, tripId: string): (r: seq<TripUpdate>)
    ensures |r| <= |tus|
  {
    if |tus| == 0 then []
    else
      var init := UpdatesForTrip(tus[..|tus| - 1], tripId);
      if tus[|tus| - 1].trip.TripIdOrEmpty() == tripId then init + [tus[|tus| - 1]] else init
  }

  function ProcessedUpdates(trips: seq<TripEntry>, tus: seq<TripUpdate>): seq<TripUpdate> {
    if |trips| == 0 then []
    else ProcessedUpdates(trips[..|trips| - 1], tus) + UpdatesForTrip(tus, trips[|trips| - 1].id.id)
  }

  /** The delay of the last update that has one. */
  function LastDelay(s: seq<TripUpdate>): Option<int32> {
    if |s| == 0 then None
    else if s[|s| - 1].delay.Some? then s[|s| - 1].delay
    else LastDelay(s[..|s| - 1])
  }

  /** `LastDelay` is the delay of an update with no delayed update after it, and there is
      none only when no update has a delay. */
  lemma {:induction false} LastDelayIsLast(s: seq<TripUpdate>)
    ensures LastDelay(s).Some? <==> exists i :: 0 <= i < |s| && s[i].delay.Some?
    ensures LastDelay(s).Some? ==>
      exists i :: 0 <= i < |s| && s[i].delay == LastDelay(s) && forall j :: i < j < |s| ==> s[j].delay.None?
  {
    if |s| > 0 && s[|s| - 1].delay.None? {
      LastDelayIsLast(s[..|s| - 1]);
      assert forall i :: 0 <= i < |s| - 1 ==> s[..|s| - 1][i] == s[i];
    }
  }

  /** The timestamp, in milliseconds, of the last update that has one; zero if none has. */
  function LastTimestamp(s: seq<TripUpdate>): int {
    if |s| == 0 then 0
    else if s[|s| - 1].timestamp.Some? then s[|s| - 1].timestamp.value * 1000
    else LastTimestamp(s[..|s| - 1])
  }

  /** `LastTimestamp` is the timestamp of an update with no timestamped update after it. */
  lemma {:induction false} LastTimestampIsLast(s: seq<TripUpdate>)
    requires exists i :: 0 <= i < |s| && s[i].timestamp.Some?
    ensures exists i :: 0 <= i < |s| && s[i].timestamp.Some? && LastTimestamp(s) == s[i].timestamp.value * 1000
                        && forall j :: i < j < |s| ==> s[j].timestamp.None?
  {
    if s[|s| - 1].timestamp.None? {
      assert forall i :: 0 <= i < |s| - 1 ==> s[..|s| - 1][i] == s[i];
      LastTimestampIsLast(s[..|s| - 1]);
    }
  }

  /** The last update read cancels its trip. */
  predicate EndsCanceled(s: seq<TripUpdate>) {
    |s| > 0 && s[|s| - 1].trip.Relationship() == Canceled
  }

  /** The trip ids reported to the collector as cancelled, or as added, in order. */
  function TripIdsWith(s: seq<TripUpdate>, relationship: TripScheduleRelationship): seq<string> {
    if |s| == 0 then []
    else
      var init := TripIdsWith(s[..|s| - 1], relationship);
      if s[|s| - 1].trip.Relationship() == relationship then init + [s[|s| - 1].trip.TripIdOrEmpty()] else init
  }

  /** The reported ids are the trip ids of the updates with that relationship. */
  lemma {:induction false} TripIdsWithAreThoseTrips(s: seq<TripUpdate>, relationship: TripScheduleRelationship)
    ensures forall id :: id in TripIdsWith(s, relationship) <==>
              exists i :: 0 <= i < |s| && s[i].trip.Relationship() == relationship && s[i].trip.TripIdOrEmpty() == id
  {
    if |s| > 0 {
      TripIdsWithAreThoseTrips(s[..|s| - 1], relationship);
      assert forall i :: 0 <= i < |s| - 1 ==> s[..|s| - 1][i] == s[i];
    }
  }

  lemma {:induction false} TripIdsWithConcat(s: seq<TripUpdate>, t: seq<TripUpdate>, relationship: TripScheduleRelationship)
    ensures TripIdsWith(s + t, relationship) == TripIdsWith(s, relationship) + TripIdsWith(t, relationship)
  {
    if |t| == 0 {
      assert s + t == s;
    } else {
      var n := |t|;
      assert (s + t)[..|s + t| - 1] == s + t[..n - 1];
      TripIdsWithConcat(s, t[..n - 1], relationship);
    }
  }

  /** The record's status after the updates `s` were read: the relationship of the last
      one, or `initial` when none was read. */
  function StatusAfter(initial: Option<TripScheduleRelationship>, s: seq<TripUpdate>): Option<TripScheduleRelationship> {
    if |s| > 0 then Some(s[|s| - 1].trip.Relationship()) else initial
  }

  // ---------------------------------------------------------------------------
  // Matched stops

  /** What one stop-time update yields once it is matched: the stop of the trip it was
      matched to, the prediction recorded for it and the deviation candidates it offers. */
  datatype StopReading = StopReading(stopTime: StopTimeEntry, prediction: TimepointPrediction, candidates: seq<Candidate>)

  /** The readings of the stop-time updates of one trip update, one per update: `None` for
      an update that matched no stop of the trip. */
  type Readings = seq<Option<StopReading>>

  /** The stop a reading was matched to, if any. */
  function MatchOf(r: Option<StopReading>): Option<StopTimeEntry> {
    if r.Some? then Some(r.value.stopTime) else None
  }

  /** `r` is what the stop-time update `update` of `trip` yields: the stop
      getBlockStopTimeForStopTimeUpdate picks for it and, when there is one, the prediction
      and the candidates of the update at that stop. */
  ghost predicate StopRead(env: Env, now: int, serviceDate: int, currentTime: int32, trip: TripEntry,
                           update: StopTimeUpdate, r: Option<StopReading>)
  {
    && IsStopMatch(env, update, trip.stopTimes, serviceDate, now, MatchOf(r))
    && (r.Some? ==>
          && r.value.prediction == StopPrediction(serviceDate, r.value.stopTime, update)
          && r.value.candidates == StopCandidates(serviceDate, r.value.stopTime, update, currentTime, trip.id))
  }

  /** The readings of the stop-time updates of one trip update. */
  ghost predicate StopsRead(env: Env, now: int, serviceDate: int, currentTime: int32, trip: TripEntry,
                            updates: seq<StopTimeUpdate>, rs: Readings)
  {
    && |rs| == |updates|
    && forall k {:trigger StopRead(env, now, serviceDate, currentTime, trip, updates[k], rs[k])} :: 0 <= k < |updates| ==>
         StopRead(env, now, serviceDate, currentTime, trip, updates[k], rs[k])
  }

  /** The readings of the stop-time updates of each trip update of `trip`. */
  ghost predicate UpdatesRead(env: Env, now: int, serviceDate: int, currentTime: int32, trip: TripEntry,
                              updates: seq<TripUpdate>, rss: seq<Readings>)
  {
    && |rss| == |updates|
    && forall j {:trigger StopsRead(env, now, serviceDate, currentTime, trip, updates[j].stopTimeUpdates, rss[j])} :: 0 <= j < |updates| ==>
         StopsRead(env, now, serviceDate, currentTime, trip, updates[j].stopTimeUpdates, rss[j])
  }

  /** The readings of the updates read for each trip of the block, at the time now in
      seconds of the service day. */
  ghost predicate BlockRead(env: Env, now: int, serviceDate: int, trips: seq<TripEntry>,
                            tripUpdates: seq<TripUpdate>, rsss: seq<seq<Readings>>)
  {
    && BlockShaped(trips, tripUpdates, rsss)
    && forall i {:trigger UpdatesRead(env, now, serviceDate, SecondsSinceServiceDate(now, serviceDate), trips[i],
                                      UpdatesForTrip(tripUpdates, trips[i].id.id), rsss[i])} :: 0 <= i < |trips| ==>
         UpdatesRead(env, now, serviceDate, SecondsSinceServiceDate(now, serviceDate), trips[i],
                     UpdatesForTrip(tripUpdates, trips[i].id.id), rsss[i])
  }

  /** One list of readings per trip of the block, one per trip update read for it. */
  predicate BlockShaped(trips: seq<TripEntry>, tripUpdates: seq<TripUpdate>, rsss: seq<seq<Readings>>)
    decreases |trips|
  {
    && |rsss| == |trips|
    && (|trips| > 0 ==>
          && BlockShaped(trips[..|trips| - 1], tripUpdates, rsss[..|trips| - 1])
          && |rsss[|trips| - 1]| == |UpdatesForTrip(tripUpdates, trips[|trips| - 1].id.id)|)
  }

  lemma BlockReadPrefix(env: Env, now: int, serviceDate: int, trips: seq<TripEntry>,
                        tripUpdates: seq<TripUpdate>, rsss: seq<seq<Readings>>)
    requires BlockRead(env, now, serviceDate, trips, tripUpdates, rsss) && |trips| > 0
    ensures var n := |trips|;
      && BlockRead(env, now, serviceDate, trips[..n - 1], tripUpdates, rsss[..n - 1])
      && UpdatesRead(env, now, serviceDate, SecondsSinceServiceDate(now, serviceDate), trips[n - 1],
                     UpdatesForTrip(tripUpdates, trips[n - 1].id.id), rsss[n - 1])
  {
    var n := |trips|;
    assert forall i :: 0 <= i < n - 1 ==> trips[..n - 1][i] == trips[i] && rsss[..n - 1][i] == rsss[i];
  }

  /** The kept predictions of the readings, in order. */
  function MatchedPredictions(rs: Readings): seq<TimepointPrediction> {
    if |rs| == 0 then []
    else
      var earlier := MatchedPredictions(rs[..|rs| - 1]);
      var r := rs[|rs| - 1];
      if r.Some? && IsKept(r.value.prediction) then earlier + [r.value.prediction] else earlier
  }

  /** The deviation candidates of the readings, in order. */
  function MatchedCandidates(rs: Readings): seq<Candidate> {
    if |rs| == 0 then []
    else
      var r := rs[|rs| - 1];
      MatchedCandidates(rs[..|rs| - 1]) + (if r.Some? then r.value.candidates else [])
  }

  /** The predictions kept are exactly the kept ones among the readings. */
  lemma {:induction false} MatchedPredictionsAreKeptReadings(rs: Readings)
    ensures forall k :: 0 <= k < |rs| && rs[k].Some? && IsKept(rs[k].value.prediction)
              ==> rs[k].value.prediction in MatchedPredictions(rs)
    ensures forall p :: p in MatchedPredictions(rs) ==>
              IsKept(p) && exists k :: 0 <= k < |rs| && rs[k].Some? && p == rs[k].value.prediction
  {
    if |rs| > 0 {
      var n := |rs|;
      MatchedPredictionsAreKeptReadings(rs[..n - 1]);
      assert forall k :: 0 <= k < n - 1 ==> rs[..n - 1][k] == rs[k];
    }
  }

  /** A prediction is recorded exactly for the matched stop-time updates whose prediction is
      kept (a skipped stop, or one with a predicted time), and it is the prediction of the
      update at the stop it was matched to. */
  lemma MatchedPredictionsAreOfMatchedStops(env: Env, now: int, serviceDate: int, currentTime: int32, trip: TripEntry,
                                            updates: seq<StopTimeUpdate>, rs: Readings)
    requires StopsRead(env, now, serviceDate, currentTime, trip, updates, rs)
    ensures forall k :: 0 <= k < |updates| && MatchOf(rs[k]).Some? && IsKept(StopPrediction(serviceDate, MatchOf(rs[k]).value, updates[k]))
              ==> StopPrediction(serviceDate, MatchOf(rs[k]).value, updates[k]) in MatchedPredictions(rs)
    ensures forall p :: p in MatchedPredictions(rs) ==>
              IsKept(p) && exists k :: 0 <= k < |updates| && MatchOf(rs[k]).Some?
                                       && IsStopMatch(env, updates[k], trip.stopTimes, serviceDate, now, MatchOf(rs[k]))
                                       && p == StopPrediction(serviceDate, MatchOf(rs[k]).value, updates[k])
  {
    MatchedPredictionsAreKeptReadings(rs);
    forall k | 0 <= k < |updates| && MatchOf(rs[k]).Some?
      ensures rs[k].value.prediction == StopPrediction(serviceDate, MatchOf(rs[k]).value, updates[k])
    {
      assert StopRead(env, now, serviceDate, currentTime, trip, updates[k], rs[k]);
    }
    forall p | p in MatchedPredictions(rs)
      ensures exists k :: 0 <= k < |updates| && MatchOf(rs[k]).Some?
                          && IsStopMatch(env, updates[k], trip.stopTimes, serviceDate, now, MatchOf(rs[k]))
                          && p == StopPrediction(serviceDate, MatchOf(rs[k]).value, updates[k])
    {
      var k :| 0 <= k < |rs| && rs[k].Some? && p == rs[k].value.prediction;
      assert StopRead(env, now, serviceDate, currentTime, trip, updates[k], rs[k]);
    }
  }

  // ---------------------------------------------------------------------------
  // Reading the updates of the trips of a block

  /** The accumulator after the trip-level fields of `tu`: its delay locks the deviation,
      its timestamp is taken in milliseconds, and its relationship sets the cancellation. */
  function TripLevel(d: DeviationState, tu: TripUpdate, tripId: Id): DeviationState {
    var delayed := if tu.delay.Some? then WithTripDelay(d, tu.delay.value, tripId) else d;
    var stamped := if tu.timestamp.Some? then delayed.(timestamp := tu.timestamp.value * 1000) else delayed;
    stamped.(isCanceled := tu.trip.Relationship() == Canceled)
  }

  /** The local variables of applyTripUpdatesToRecord's loop over the trips of the block. */
  datatype Progress = Progress(
    deviation: DeviationState,
    predictions: seq<TimepointPrediction>,
    lastStopScheduleTime: int,
    single: bool)

  /** A fresh accumulator, no predictions, `Long.MIN_VALUE`, and no single timepoint. */
  const START := Progress(INITIAL, [], LONG_MIN, false)

  /** `(int) ((now - serviceDate) / 1000)`: the time now in seconds of the service day. */
  function SecondsSinceServiceDate(now: int, serviceDate: int): int32 {
    Wrap(Quot(now - serviceDate, 1000))
  }

  /** The progress after one more trip update of `trip`, its stop-time updates read as `rs`. */
  function ReadUpdate(p: Progress, serviceDate: int, trip: TripEntry, tu: TripUpdate, rs: Readings): Progress {
    p.(deviation := FoldCandidates(TripLevel(p.deviation, tu, trip.id), MatchedCandidates(rs)),
       predictions := p.predictions + MatchedPredictions(rs),
       lastStopScheduleTime := if |tu.stopTimeUpdates| > 0 then LatestArrival(serviceDate, trip.stopTimes, p.lastStopScheduleTime)
                               else p.lastStopScheduleTime)
  }

  /** The progress after the trip updates `updates` of `trip`, in order. */
  function ReadUpdates(p: Progress, serviceDate: int, trip: TripEntry, updates: seq<TripUpdate>, rss: seq<Readings>): Progress
    requires |rss| == |updates|
  {
    if |updates| == 0 then p
    else
      var n := |updates|;
      ReadUpdate(ReadUpdates(p, serviceDate, trip, updates[..n - 1], rss[..n - 1]), serviceDate, trip, updates[n - 1], rss[n - 1])
  }

  /** The reference time of interpolation: the last update's timestamp, or now. */
  function InterpolationTime(d: DeviationState, now: int): int {
    if d.timestamp != 0 then d.timestamp else now
  }

  /** The end of the loop body for `trip`: the single-timepoint flag is raised when exactly
      one prediction came from a first update with exactly one stop-time update, and the
      trip's unserved stops are interpolated when a trip-level delay applies to some
      prediction or in the single-timepoint case. */
  function FinishTrip(p: Progress, serviceDate: int, now: int, trip: TripEntry, tripUpdates: seq<TripUpdate>): Progress {
    var single := p.single || (|p.predictions| == 1 && |tripUpdates| > 0 && |tripUpdates[0].stopTimeUpdates| == 1);
    if (|p.predictions| > 0 && p.deviation.tripUpdateHasDelay) || single then
      var w := Window(serviceDate, p.deviation.scheduleDeviation, InterpolationTime(p.deviation, now),
                      EarliestTime(p.predictions), single, p.lastStopScheduleTime);
      p.(predictions := p.predictions + Interpolations(trip.stopTimes, Covered(p.predictions), w), single := single)
    else p.(single := single)
  }

  /** The progress after the trips `trips` of the block, each reading its own updates. */
  function BlockProgress(serviceDate: int, now: int, trips: seq<TripEntry>, tripUpdates: seq<TripUpdate>,
                         rsss: seq<seq<Readings>>): Progress
    requires BlockShaped(trips, tripUpdates, rsss)
  {
    if |trips| == 0 then START
    else
      var n := |trips|;
      var before := BlockProgress(serviceDate, now, trips[..n - 1], tripUpdates, rsss[..n - 1]);
      var read := ReadUpdates(before, serviceDate, trips[n - 1], UpdatesForTrip(tripUpdates, trips[n - 1].id.id), rsss[n - 1]);
      FinishTrip(read, serviceDate, now, trips[n - 1], tripUpdates)
  }

  /** Finishing a trip only appends to the predictions, and only when a trip-level delay
      applies to some prediction or in the single-timepoint case. */
  lemma FinishTripInterpolatesOnlyWhenCalledFor(p: Progress, serviceDate: int, now: int, trip: TripEntry,
                                               tripUpdates: seq<TripUpdate>)
    ensures var r := FinishTrip(p, serviceDate, now, trip, tripUpdates);
      && r.deviation == p.deviation && r.lastStopScheduleTime == p.lastStopScheduleTime
      && (r.single <==> p.single || (|p.predictions| == 1 && |tripUpdates| > 0 && |tripUpdates[0].stopTimeUpdates| == 1))
      && |r.predictions| >= |p.predictions| && r.predictions[..|p.predictions|] == p.predictions
      && (|r.predictions| > |p.predictions| ==> (|p.predictions| > 0 && p.deviation.tripUpdateHasDelay) || r.single)
      && (forall q :: q in r.predictions[|p.predictions|..] ==> q.relationship == StopScheduled && q.timepointId !in Covered(p.predictions))
  {
    var r := FinishTrip(p, serviceDate, now, trip, tripUpdates);
    if |r.predictions| > |p.predictions| {
      var single := r.single;
      var w := Window(serviceDate, p.deviation.scheduleDeviation, InterpolationTime(p.deviation, now),
                      EarliestTime(p.predictions), single, p.lastStopScheduleTime);
      assert r.predictions[|p.predictions|..] == Interpolations(trip.stopTimes, Covered(p.predictions), w);
      forall q | q in r.predictions[|p.predictions|..]
        ensures q.relationship == StopScheduled && q.timepointId !in Covered(p.predictions)
      {
        InterpolationsSound(trip.stopTimes, Covered(p.predictions), w, q);
      }
    }
  }

  // ---------------------------------------------------------------------------
  // One step more

  lemma StopsReadNext(env: Env, now: int, serviceDate: int, currentTime: int32, trip: TripEntry,
                      updates: seq<StopTimeUpdate>, k: nat, rs: Readings, r: Option<StopReading>)
    requires k < |updates|
    requires StopsRead(env, now, serviceDate, currentTime, trip, updates[..k], rs)
    requires StopRead(env, now, serviceDate, currentTime, trip, updates[k], r)
    ensures StopsRead(env, now, serviceDate, currentTime, trip, updates[..k + 1], rs + [r])
  {
    forall i | 0 <= i <= k
      ensures StopRead(env, now, serviceDate, currentTime, trip, updates[..k + 1][i], (rs + [r])[i])
    {
      if i < k {
        assert updates[..k][i] == updates[..k + 1][i] && rs[i] == (rs + [r])[i];
      }
    }
  }

  lemma MatchedSnoc(rs: Readings, r: Option<StopReading>)
    ensures MatchedPredictions(rs + [r])
         == MatchedPredictions(rs) + (if r.Some? && IsKept(r.value.prediction) then [r.value.prediction] else [])
    ensures MatchedCandidates(rs + [r]) == MatchedCandidates(rs) + (if r.Some? then r.value.candidates else [])
  {
    assert (rs + [r])[..|rs|] == rs;
  }

  lemma PredictionsSnoc(base: seq<TimepointPrediction>, rs: Readings, r: Option<StopReading>)
    ensures base + MatchedPredictions(rs + [r])
         == base + MatchedPredictions(rs) + (if r.Some? && IsKept(r.value.prediction) then [r.value.prediction] else [])
  {
    MatchedSnoc(rs, r);
  }

  /** Reading updates only appends to the predictions. */
  lemma {:induction false} ReadUpdatesAppends(p: Progress, serviceDate: int, trip: TripEntry,
                                              updates: seq<TripUpdate>, rss: seq<Readings>)
    requires |rss| == |updates|
    ensures var r := ReadUpdates(p, serviceDate, trip, updates, rss);
      |r.predictions| >= |p.predictions| && r.predictions[..|p.predictions|] == p.predictions && r.single == p.single
  {
    if |updates| > 0 {
      var n := |updates|;
      ReadUpdatesAppends(p, serviceDate, trip, updates[..n - 1], rss[..n - 1]);
      var q := ReadUpdates(p, serviceDate, trip, updates[..n - 1], rss[..n - 1]);
      var r := ReadUpdates(p, serviceDate, trip, updates, rss);
      assert r.predictions == q.predictions + MatchedPredictions(rss[n - 1]);
      assert r.predictions[..|p.predictions|] == q.predictions[..|p.predictions|];
    }
  }

  lemma UpdatesReadSnoc(env: Env, now: int, serviceDate: int, currentTime: int32, trip: TripEntry,
                        updates: seq<TripUpdate>, rss: seq<Readings>, tu: TripUpdate, rs: Readings)
    requires UpdatesRead(env, now, serviceDate, currentTime, trip, updates, rss)
    requires StopsRead(env, now, serviceDate, currentTime, trip, tu.stopTimeUpdates, rs)
    ensures UpdatesRead(env, now, serviceDate, currentTime, trip, updates + [tu], rss + [rs])
  {
    assert forall j :: 0 <= j < |updates| ==> (updates + [tu])[j] == updates[j] && (rss + [rs])[j] == rss[j];
  }

  lemma ReadUpdatesSnoc(p: Progress, serviceDate: int, trip: TripEntry,
                        updates: seq<TripUpdate>, rss: seq<Readings>, tu: TripUpdate, rs: Readings)
    requires |rss| == |updates|
    ensures ReadUpdates(p, serviceDate, trip, updates + [tu], rss + [rs])
         == ReadUpdate(ReadUpdates(p, serviceDate, trip, updates, rss), serviceDate, trip, tu, rs)
  {
    assert (updates + [tu])[..|updates|] == updates;
    assert (rss + [rs])[..|updates|] == rss;
  }

  lemma ProcessedUpdatesNext(trips: seq<TripEntry>, tripUpdates: seq<TripUpdate>, i: nat)
    requires i < |trips|
    ensures ProcessedUpdates(trips[..i + 1], tripUpdates)
         == ProcessedUpdates(trips[..i], tripUpdates) + UpdatesForTrip(tripUpdates, trips[i].id.id)
  {
    assert trips[..i + 1][..i] == trips[..i];
  }

  lemma BlockReadNext(env: Env, now: int, serviceDate: int, trips: seq<TripEntry>, tripUpdates: seq<TripUpdate>,
                      i: nat, rsss: seq<seq<Readings>>, rss: seq<Readings>)
    requires i < |trips|
    requires BlockRead(env, now, serviceDate, trips[..i], tripUpdates, rsss)
    requires UpdatesRead(env, now, serviceDate, SecondsSinceServiceDate(now, serviceDate), trips[i],
                         UpdatesForTrip(tripUpdates, trips[i].id.id), rss)
    ensures BlockRead(env, now, serviceDate, trips[..i + 1], tripUpdates, rsss + [rss])
  {
    assert trips[..i + 1][..i] == trips[..i];
    assert (rsss + [rss])[..i] == rsss;
    forall t | 0 <= t <= i
      ensures UpdatesRead(env, now, serviceDate, SecondsSinceServiceDate(now, serviceDate), trips[..i + 1][t],
                          UpdatesForTrip(tripUpdates, trips[..i + 1][t].id.id), (rsss + [rss])[t])
    {
      if t < i {
        assert trips[..i][t] == trips[..i + 1][t] && rsss[t] == (rsss + [rss])[t];
      }
    }
  }

  lemma BlockProgressNext(serviceDate: int, now: int, trips: seq<TripEntry>, tripUpdates: seq<TripUpdate>,
                          i: nat, rsss: seq<seq<Readings>>, rss: seq<Readings>)
    requires i < |trips|
    requires BlockShaped(trips[..i], tripUpdates, rsss) && |rss| == |UpdatesForTrip(tripUpdates, trips[i].id.id)|
    ensures BlockShaped(trips[..i + 1], tripUpdates, rsss + [rss])
    ensures BlockProgress(serviceDate, now, trips[..i + 1], tripUpdates, rsss + [rss])
         == FinishTrip(ReadUpdates(BlockProgress(serviceDate, now, trips[..i], tripUpdates, rsss), serviceDate,
                                   trips[i], UpdatesForTrip(tripUpdates, trips[i].id.id), rss),
                       serviceDate, now, trips[i], tripUpdates)
  {
    assert trips[..i + 1][..i] == trips[..i];
    assert (rsss + [rss])[..i] == rsss;
  }

  // ---------------------------------------------------------------------------
  // What the accumulator says

  /** The accumulator's trip-level fields after the updates `s` were read, from a fresh one:
      locked exactly when some update has a delay, and then holding the last delay; cancelled
      exactly when the last update cancels its trip; the last timestamp. */
  ghost predicate DevTracks(d: DeviationState, s: seq<TripUpdate>) {
    && (d.tripUpdateHasDelay <==> LastDelay(s).Some?)
    && (LastDelay(s).Some? ==> d.scheduleDeviation == LastDelay(s).value)
    && d.isCanceled == EndsCanceled(s)
    && d.timestamp == LastTimestamp(s)
  }

  lemma TripLevelTracks(d: DeviationState, done: seq<TripUpdate>, tu: TripUpdate, tripId: Id, cs: seq<Candidate>)
    requires DevTracks(d, done)
    ensures DevTracks(FoldCandidates(TripLevel(d, tu, tripId), cs), done + [tu])
  {
    assert (done + [tu])[..|done|] == done;
    var t := TripLevel(d, tu, tripId);
    assert DevTracks(t, done + [tu]);
    CandidatesKeepTripFields(t, cs);
    if t.tripUpdateHasDelay {
      DelayLockHolds(t, cs);
    }
  }

  /** The stop-level candidates of each trip update, in order. */
  function CandidatesPerUpdate(rss: seq<Readings>): (css: seq<seq<Candidate>>)
    ensures |css| == |rss|
  {
    if |rss| == 0 then [] else CandidatesPerUpdate(rss[..|rss| - 1]) + [MatchedCandidates(rss[|rss| - 1])]
  }

  /** The accumulator after the trip updates `updates` of trip `tripId`, whose stop-level
      candidates are `css`: each update's trip-level fields, then its candidates. */
  function DeviationAfter(d: DeviationState, tripId: Id, updates: seq<TripUpdate>, css: seq<seq<Candidate>>): DeviationState
    requires |css| == |updates|
  {
    if |updates| == 0 then d
    else
      var n := |updates|;
      FoldCandidates(TripLevel(DeviationAfter(d, tripId, updates[..n - 1], css[..n - 1]), updates[n - 1], tripId), css[n - 1])
  }

  /** The accumulator of `ReadUpdates` is the one the updates' trip-level fields and their
      stop-level candidates give. */
  lemma {:induction false} ReadUpdatesDeviation(p: Progress, serviceDate: int, trip: TripEntry,
                                                updates: seq<TripUpdate>, rss: seq<Readings>)
    requires |rss| == |updates|
    ensures ReadUpdates(p, serviceDate, trip, updates, rss).deviation
         == DeviationAfter(p.deviation, trip.id, updates, CandidatesPerUpdate(rss))
  {
    if |updates| > 0 {
      var n := |updates|;
      ReadUpdatesDeviation(p, serviceDate, trip, updates[..n - 1], rss[..n - 1]);
    }
  }

  /** Reading more updates keeps the accumulator's trip-level fields those of the updates
      read so far. */
  lemma {:induction false} DeviationAfterTracks(d: DeviationState, tripId: Id, done: seq<TripUpdate>,
                                                updates: seq<TripUpdate>, css: seq<seq<Candidate>>)
    requires |css| == |updates| && DevTracks(d, done)
    ensures DevTracks(DeviationAfter(d, tripId, updates, css), done + updates)
  {
    if |updates| == 0 {
      assert done + updates == done;
    } else {
      var n := |updates|;
      DeviationAfterTracks(d, tripId, done, updates[..n - 1], css[..n - 1]);
      TripLevelTracks(DeviationAfter(d, tripId, updates[..n - 1], css[..n - 1]), done + updates[..n - 1],
                      updates[n - 1], tripId, css[n - 1]);
      assert done + updates[..n - 1] + [updates[n - 1]] == done + updates;
    }
  }

  /** After the whole block, the accumulator's trip-level fields are those of the updates
      read, in the order of the block's trips. */
  lemma {:induction false} BlockProgressTracks(serviceDate: int, now: int, trips: seq<TripEntry>,
                                               tripUpdates: seq<TripUpdate>, rsss: seq<seq<Readings>>)
    requires BlockShaped(trips, tripUpdates, rsss)
    ensures DevTracks(BlockProgress(serviceDate, now, trips, tripUpdates, rsss).deviation, ProcessedUpdates(trips, tripUpdates))
  {
    if |trips| > 0 {
      var n := |trips|;
      BlockProgressTracks(serviceDate, now, trips[..n - 1], tripUpdates, rsss[..n - 1]);
      var before := BlockProgress(serviceDate, now, trips[..n - 1], tripUpdates, rsss[..n - 1]);
      var own := UpdatesForTrip(tripUpdates, trips[n - 1].id.id);
      ReadUpdatesDeviation(before, serviceDate, trips[n - 1], own, rsss[n - 1]);
      DeviationAfterTracks(before.deviation, trips[n - 1].id, ProcessedUpdates(trips[..n - 1], tripUpdates), own,
                           CandidatesPerUpdate(rsss[n - 1]));
    }
  }

  /** The accumulator without its timestamp and cancellation, which candidates ignore. */
  function Untimed(d: DeviationState): DeviationState {
    d.(timestamp := 0, isCanceled := false)
  }

  lemma {:induction false} FoldIgnoresTiming(d: DeviationState, cs: seq<Candidate>)
    ensures Untimed(FoldCandidates(d, cs)) == FoldCandidates(Untimed(d), cs)
    decreases |cs|
  {
    if |cs| > 0 {
      assert Untimed(UpdatedDeviation(d, cs[0])) == UpdatedDeviation(Untimed(d), cs[0]);
      FoldIgnoresTiming(UpdatedDeviation(d, cs[0]), cs[1..]);
    }
  }

  /** Candidate lists, one after the other. */
  function Flatten(css: seq<seq<Candidate>>): seq<Candidate> {
    if |css| == 0 then [] else Flatten(css[..|css| - 1]) + css[|css| - 1]
  }

  /** The deviation candidates of the whole block, in the order they are offered. */
  function BlockCandidates(rsss: seq<seq<Readings>>): seq<Candidate> {
    if |rsss| == 0 then [] else BlockCandidates(rsss[..|rsss| - 1]) + Flatten(CandidatesPerUpdate(rsss[|rsss| - 1]))
  }

  /** Without trip-level delays, updates leave the accumulator, but for its timestamp and
      cancellation, as their stop-level candidates fold it, one after the other. */
  lemma {:induction false} UndelayedUpdatesFoldTheirCandidates(d: DeviationState, tripId: Id, updates: seq<TripUpdate>,
                                                               css: seq<seq<Candidate>>)
    requires |css| == |updates|
    requires forall u :: u in updates ==> u.delay.None?
    ensures Untimed(DeviationAfter(d, tripId, updates, css)) == FoldCandidates(Untimed(d), Flatten(css))
  {
    if |updates| > 0 {
      var n := |updates|;
      UndelayedUpdatesFoldTheirCandidates(d, tripId, updates[..n - 1], css[..n - 1]);
      var t := TripLevel(DeviationAfter(d, tripId, updates[..n - 1], css[..n - 1]), updates[n - 1], tripId);
      assert Untimed(t) == Untimed(DeviationAfter(d, tripId, updates[..n - 1], css[..n - 1]));
      FoldIgnoresTiming(t, css[n - 1]);
      FoldCandidatesConcat(Untimed(d), Flatten(css[..n - 1]), css[n - 1]);
    }
  }

  lemma {:induction false} UndelayedBlockFoldsItsCandidates(serviceDate: int, now: int, trips: seq<TripEntry>,
                                                            tripUpdates: seq<TripUpdate>, rsss: seq<seq<Readings>>)
    requires BlockShaped(trips, tripUpdates, rsss)
    requires forall u :: u in ProcessedUpdates(trips, tripUpdates) ==> u.delay.None?
    ensures Untimed(BlockProgress(serviceDate, now, trips, tripUpdates, rsss).deviation)
         == FoldCandidates(INITIAL, BlockCandidates(rsss))
  {
    if |trips| > 0 {
      var n := |trips|;
      var done := ProcessedUpdates(trips[..n - 1], tripUpdates);
      var own := UpdatesForTrip(tripUpdates, trips[n - 1].id.id);
      assert ProcessedUpdates(trips, tripUpdates) == done + own;
      UndelayedBlockFoldsItsCandidates(serviceDate, now, trips[..n - 1], tripUpdates, rsss[..n - 1]);
      var before := BlockProgress(serviceDate, now, trips[..n - 1], tripUpdates, rsss[..n - 1]);
      ReadUpdatesDeviation(before, serviceDate, trips[n - 1], own, rsss[n - 1]);
      UndelayedUpdatesFoldTheirCandidates(before.deviation, trips[n - 1].id, own, CandidatesPerUpdate(rsss[n - 1]));
      FoldCandidatesConcat(INITIAL, BlockCandidates(rsss[..n - 1]), Flatten(CandidatesPerUpdate(rsss[n - 1])));
    }
  }

  /** Without a trip-level delay among the updates read, the block's deviation is what its
      stop-level candidates give, folded in the order they are offered into a fresh
      accumulator (see `DeviationComesFromACandidate`). */
  lemma UndelayedDeviationFoldsTheCandidates(serviceDate: int, now: int, trips: seq<TripEntry>,
                                             tripUpdates: seq<TripUpdate>, rsss: seq<seq<Readings>>)
    requires BlockShaped(trips, tripUpdates, rsss)
    requires LastDelay(ProcessedUpdates(trips, tripUpdates)).None?
    ensures BlockProgress(serviceDate, now, trips, tripUpdates, rsss).deviation.scheduleDeviation
         == FoldCandidates(INITIAL, BlockCandidates(rsss)).scheduleDeviation
  {
    LastDelayIsLast(ProcessedUpdates(trips, tripUpdates));
    UndelayedBlockFoldsItsCandidates(serviceDate, now, trips, tripUpdates, rsss);
  }

  /** The candidates of the block are those of its matched stop-time updates: each is the
      candidate of an event of a stop-time update at the stop it was matched to, taken at
      the time now in seconds of the service day. */
  lemma BlockCandidatesAreOfMatchedStops(env: Env, now: int, serviceDate: int, trips: seq<TripEntry>,
                                         tripUpdates: seq<TripUpdate>, rsss: seq<seq<Readings>>, c: Candidate)
    requires BlockRead(env, now, serviceDate, trips, tripUpdates, rsss)
    requires c in BlockCandidates(rsss)
    ensures exists i, j, k ::
      && 0 <= i < |trips| && 0 <= j < |rsss[i]| && 0 <= k < |rsss[i][j]| && rsss[i][j][k].Some?
      && var updates := UpdatesForTrip(tripUpdates, trips[i].id.id);
      && j < |updates| && k < |updates[j].stopTimeUpdates|
      && IsStopMatch(env, updates[j].stopTimeUpdates[k], trips[i].stopTimes, serviceDate, now, MatchOf(rsss[i][j][k]))
      && c in StopCandidates(serviceDate, rsss[i][j][k].value.stopTime, updates[j].stopTimeUpdates[k],
                             SecondsSinceServiceDate(now, serviceDate), trips[i].id)
  {
    var i, j, k := CandidateSource(rsss, c);
    var updates := UpdatesForTrip(tripUpdates, trips[i].id.id);
    assert UpdatesRead(env, now, serviceDate, SecondsSinceServiceDate(now, serviceDate), trips[i], updates, rsss[i]);
    assert StopsRead(env, now, serviceDate, SecondsSinceServiceDate(now, serviceDate), trips[i], updates[j].stopTimeUpdates, rsss[i][j]);
    assert StopRead(env, now, serviceDate, SecondsSinceServiceDate(now, serviceDate), trips[i],
                    updates[j].stopTimeUpdates[k], rsss[i][j][k]);
  }

  /** Where a candidate of the block comes from: the reading `k` of trip update `j` of trip `i`. */
  lemma {:induction false} CandidateSource(rsss: seq<seq<Readings>>, c: Candidate) returns (i: nat, j: nat, k: nat)
    requires c in BlockCandidates(rsss)
    ensures i < |rsss| && j < |rsss[i]| && k < |rsss[i][j]| && rsss[i][j][k].Some? && c in rsss[i][j][k].value.candidates
  {
    var n := |rsss|;
    if c in BlockCandidates(rsss[..n - 1]) {
      i, j, k := CandidateSource(rsss[..n - 1], c);
    } else {
      i := n - 1;
      j := FlattenSource(CandidatesPerUpdate(rsss[n - 1]), c);
      assert CandidatesPerUpdate(rsss[n - 1])[j] == MatchedCandidates(rsss[n - 1][j]) by {
        CandidatesPerUpdateAt(rsss[n - 1], j);
      }
      k := MatchedCandidatesSource(rsss[n - 1][j], c);
    }
  }

  lemma {:induction false} CandidatesPerUpdateAt(rss: seq<Readings>, j: nat)
    requires j < |rss|
    ensures CandidatesPerUpdate(rss)[j] == MatchedCandidates(rss[j])
  {
    var n := |rss|;
    if j < n - 1 {
      CandidatesPerUpdateAt(rss[..n - 1], j);
    }
  }

  lemma {:induction false} FlattenSource(css: seq<seq<Candidate>>, c: Candidate) returns (j: nat)
    requires c in Flatten(css)
    ensures j < |css| && c in css[j]
  {
    var n := |css|;
    if c in Flatten(css[..n - 1]) {
      j := FlattenSource(css[..n - 1], c);
    } else {
      j := n - 1;
    }
  }

  lemma {:induction false} MatchedCandidatesSource(rs: Readings, c: Candidate) returns (k: nat)
    requires c in MatchedCandidates(rs)
    ensures k < |rs| && rs[k].Some? && c in rs[k].value.candidates
  {
    var n := |rs|;
    if c in MatchedCandidates(rs[..n - 1]) {
      k := MatchedCandidatesSource(rs[..n - 1], c);
    } else {
      k := n - 1;
    }
  }

  // ---------------------------------------------------------------------------
  // What the predictions are

  lemma {:induction false} ReadUpdatesKeepsBare(env: Env, now: int, p: Progress, serviceDate: int, currentTime: int32,
                                                trip: TripEntry, updates: seq<TripUpdate>, rss: seq<Readings>)
    requires UpdatesRead(env, now, serviceDate, currentTime, trip, updates, rss)
    requires forall q :: q in p.predictions ==> SkippedIsBare(q)
    ensures forall q :: q in ReadUpdates(p, serviceDate, trip, updates, rss).predictions ==> SkippedIsBare(q)
  {
    if |updates| > 0 {
      var n := |updates|;
      assert forall j :: 0 <= j < n - 1 ==> updates[..n - 1][j] == updates[j] && rss[..n - 1][j] == rss[j];
      ReadUpdatesKeepsBare(env, now, p, serviceDate, currentTime, trip, updates[..n - 1], rss[..n - 1]);
      assert StopsRead(env, now, serviceDate, currentTime, trip, updates[n - 1].stopTimeUpdates, rss[n - 1]);
      MatchedPredictionsAreOfMatchedStops(env, now, serviceDate, currentTime, trip, updates[n - 1].stopTimeUpdates, rss[n - 1]);
    }
  }

  /** Every prediction of the block is bare when its stop is skipped: skipped stops carry no
      times, and interpolation only adds SCHEDULED stops. */
  lemma {:induction false} BlockPredictionsAreBare(env: Env, now: int, serviceDate: int, trips: seq<TripEntry>,
                                                   tripUpdates: seq<TripUpdate>, rsss: seq<seq<Readings>>)
    requires BlockRead(env, now, serviceDate, trips, tripUpdates, rsss)
    ensures forall q :: q in BlockProgress(serviceDate, now, trips, tripUpdates, rsss).predictions ==> SkippedIsBare(q)
  {
    if |trips| > 0 {
      var n := |trips|;
      BlockReadPrefix(env, now, serviceDate, trips, tripUpdates, rsss);
      BlockPredictionsAreBare(env, now, serviceDate, trips[..n - 1], tripUpdates, rsss[..n - 1]);
      var before := BlockProgress(serviceDate, now, trips[..n - 1], tripUpdates, rsss[..n - 1]);
      var own := UpdatesForTrip(tripUpdates, trips[n - 1].id.id);
      var read := ReadUpdates(before, serviceDate, trips[n - 1], own, rsss[n - 1]);
      ReadUpdatesKeepsBare(env, now, before, serviceDate, SecondsSinceServiceDate(now, serviceDate), trips[n - 1],
                           own, rsss[n - 1]);
      FinishTripInterpolatesOnlyWhenCalledFor(read, serviceDate, now, trips[n - 1], tripUpdates);
      var r := FinishTrip(read, serviceDate, now, trips[n - 1], tripUpdates);
      forall q | q in r.predictions
        ensures SkippedIsBare(q)
      {
        var i :| 0 <= i < |r.predictions| && r.predictions[i] == q;
        if i < |read.predictions| {
          assert q == read.predictions[i];
        } else {
          assert q == r.predictions[|read.predictions|..][i - |read.predictions|];
        }
      }
    }
  }
}
