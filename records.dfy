/** The record builder: applyTripUpdatesToRecord, applyVehiclePositionToRecord and
    createVehicleOccupancyRecordForUpdate. The `VehicleLocationRecord` under construction
    and the optional `MonitoredResult` statistics collector are objects updated in place. */
module Records {
  import opened Wrappers
  import opened JavaInt
  import opened Feed
  import opened Schedule
  import opened BlockResolver
  import opened StopMatcher
  import opened Deviation
  import opened Interpolation
  import opened Correlator
  import opened RecordSpec

  /** A runtime exception the source throws. */
  datatype Fault = NullPointer | IndexOutOfBounds

  /** The statistics collector a caller may pass in (`MonitoredResult`). */
  class MonitoredResult {
    var matchedTripIds: seq<string>
    var cancelledTripIds: seq<string>
    var addedTripIds: seq<string>
    var latLons: seq<Position>

    constructor ()
      ensures matchedTripIds == [] && cancelledTripIds == [] && addedTripIds == [] && latLons == []
    {
      matchedTripIds := [];
      cancelledTripIds := [];
      addedTripIds := [];
      latLons := [];
    }

    function Snapshot(): Collected
      reads this
    {
      Collected(matchedTripIds, cancelledTripIds, addedTripIds, latLons)
    }
  }

  /** What a `MonitoredResult` has collected. */
  datatype Collected = Collected(matchedTripIds: seq<string>, cancelledTripIds: seq<string>,
                                 addedTripIds: seq<string>, latLons: seq<Position>)
  {
    /** The collection after a matched trip id was reported. */
    function WithMatchedTrip(id: string): Collected {
      Collected(matchedTripIds + [id], cancelledTripIds, addedTripIds, latLons)
    }

    /** The collection after a vehicle's location was reported. */
    function WithLatLon(position: Position): Collected {
      Collected(matchedTripIds, cancelledTripIds, addedTripIds, latLons + [position])
    }

    /** The collection after the cancelled and the added trips of `s` were reported. */
    function WithTrips(s: seq<TripUpdate>): Collected {
      Collected(matchedTripIds, cancelledTripIds + TripIdsWith(s, Canceled), addedTripIds + TripIdsWith(s, Added), latLons)
    }
  }

  /** `VehicleLocationRecord`, with the fields this library sets; `None` is an unset field. */
  class VehicleLocationRecord {
    var timeOfRecord: int
    var blockId: Option<Id>
    var status: Option<TripScheduleRelationship>
    var serviceDate: int
    var blockStartTime: Option<int32>
    var scheduleDeviation: Option<int32>
    var timepointPredictions: seq<TimepointPrediction>
    var vehicleId: Option<Id>
    var location: Option<Position>
    var timeOfLocationUpdate: Option<int>

    constructor ()
      ensures timeOfRecord == 0 && blockId.None? && status.None? && serviceDate == 0
      ensures blockStartTime.None? && scheduleDeviation.None? && timepointPredictions == []
      ensures vehicleId.None? && location.None? && timeOfLocationUpdate.None?
    {
      timeOfRecord := 0;
      blockId := None;
      status := None;
      serviceDate := 0;
      blockStartTime := None;
      scheduleDeviation := None;
      timepointPredictions := [];
      vehicleId := None;
      location := None;
      timeOfLocationUpdate := None;
    }
  }

  // ---------------------------------------------------------------------------
  // One stop-time update

  /** The latest scheduled arrival, as `int` arithmetic on the service date, over the
      stops of a trip and `latest`. */
  method LatestScheduledArrival(serviceDate: int, stopTimes: seq<StopTimeEntry>, latest: int) returns (r: int)
    ensures r == LatestArrival(serviceDate, stopTimes, latest)
    ensures r >= latest
    ensures forall i :: 0 <= i < |stopTimes| ==> r >= serviceDate + Wrap(stopTimes[i].arrivalTime * 1000)
    ensures r == latest || exists i :: 0 <= i < |stopTimes| && r == serviceDate + Wrap(stopTimes[i].arrivalTime * 1000)
  {
    r := latest;
    for i := 0 to |stopTimes|
      invariant r == LatestArrival(serviceDate, stopTimes[..i], latest)
    {
      assert stopTimes[..i + 1][..i] == stopTimes[..i];
      var scheduleTime := serviceDate + Wrap(stopTimes[i].arrivalTime * 1000);
      if scheduleTime > r {
        r := scheduleTime;
      }
    }
    assert stopTimes[..|stopTimes|] == stopTimes;
    LatestArrivalIsLatest(serviceDate, stopTimes, latest);
  }

  /** The body of the stop-time-update loop of applyTripUpdatesToRecord: the latest
      scheduled arrival of the trip is folded in, the update is matched to a stop of the
      trip and, when it matches, its prediction is kept and its candidates are offered to
      the deviation accumulator. */
  method ApplyStopTimeUpdate(env: Env, now: int, instance: BlockInstance, blockTrip: TripEntry, update: StopTimeUpdate,
                             currentTime: int32, best: BestScheduleDeviation,
                             predictions: seq<TimepointPrediction>, lastStopScheduleTime: int)
    returns (predictions': seq<TimepointPrediction>, lastStopScheduleTime': int, ghost read: Option<StopReading>)
    modifies best
    ensures StopRead(env, now, instance.serviceDate, currentTime, blockTrip, update, read)
    ensures lastStopScheduleTime' == LatestArrival(instance.serviceDate, blockTrip.stopTimes, lastStopScheduleTime)
    ensures lastStopScheduleTime' >= lastStopScheduleTime
    ensures forall i :: 0 <= i < |blockTrip.stopTimes| ==>
              lastStopScheduleTime' >= instance.serviceDate + Wrap(blockTrip.stopTimes[i].arrivalTime * 1000)
    ensures read.None? ==> predictions' == predictions && best.State() == old(best.State())
    ensures read.Some? ==>
      && predictions' == predictions + (if IsKept(read.value.prediction) then [read.value.prediction] else [])
      && best.State() == FoldCandidates(old(best.State()), read.value.candidates)
  {
    var blockStopTime := GetBlockStopTimeForStopTimeUpdate(env, update, blockTrip.stopTimes, instance.serviceDate, now);
    read := None;
    // the latest scheduled arrival of the trip, whether or not the update matches
    lastStopScheduleTime' := LatestScheduledArrival(instance.serviceDate, blockTrip.stopTimes, lastStopScheduleTime);
    predictions' := predictions;
    if blockStopTime.None? {
      return;
    }
    predictions' := RecordMatchedStop(instance.serviceDate, blockStopTime.value, update, currentTime, blockTrip.id, best, predictions);
    read := Some(StopReading(blockStopTime.value, StopPrediction(instance.serviceDate, blockStopTime.value, update),
                             StopCandidates(instance.serviceDate, blockStopTime.value, update, currentTime, blockTrip.id)));
  }

  /** The part of the stop-time-update loop that runs once the update is matched to
      `stopTime`. */
  method RecordMatchedStop(sd: int, stopTime: StopTimeEntry, update: StopTimeUpdate, currentTime: int32, tripId: Id,
                           best: BestScheduleDeviation, predictions: seq<TimepointPrediction>)
    returns (predictions': seq<TimepointPrediction>)
    modifies best
    ensures var p := StopPrediction(sd, stopTime, update);
      && predictions' == predictions + (if IsKept(p) then [p] else [])
      && best.State() == FoldCandidates(old(best.State()), StopCandidates(sd, stopTime, update, currentTime, tripId))
  {
    var skipped := update.scheduleRelationship == Skipped;
    var scheduledTime := if skipped then None else Some(sd + Wrap(stopTime.arrivalTime * 1000));
    if skipped {
      return predictions + [TimepointPrediction(stopTime.stop, stopTime.trip, update.stopSequence, scheduledTime, UNSET, UNSET, Skipped)];
    }
    var currentArrivalTime := ComputeArrivalTime(stopTime, update, sd);
    var currentDepartureTime := ComputeDepartureTime(stopTime, update, sd);
    ghost var start := best.State();
    var predictedArrival := UNSET;
    var predictedDeparture := UNSET;
    if currentArrivalTime >= 0 {
      UpdateBestScheduleDeviation(currentTime, stopTime.arrivalTime, currentArrivalTime, best, tripId);
      predictedArrival := sd + (currentArrivalTime as int) * 1000;
    }
    if currentDepartureTime >= 0 {
      UpdateBestScheduleDeviation(currentTime, stopTime.departureTime, currentDepartureTime, best, tripId);
      predictedDeparture := sd + (currentDepartureTime as int) * 1000;
    }
    ghost var onArrival := Candidate(currentTime, stopTime.arrivalTime, currentArrivalTime, tripId);
    ghost var onDeparture := Candidate(currentTime, stopTime.departureTime, currentDepartureTime, tripId);
    if currentArrivalTime >= 0 && currentDepartureTime >= 0 {
      FoldTwoCandidates(start, onArrival, onDeparture);
    }
    var tpr := TimepointPrediction(stopTime.stop, stopTime.trip, update.stopSequence, scheduledTime,
                                   predictedArrival, predictedDeparture, StopScheduled);
    predictions' := predictions;
    if tpr.predictedArrival != UNSET || tpr.predictedDeparture != UNSET {
      // timepoints are consumed across the block
      predictions' := predictions' + [tpr];
    }
  }

  lemma FoldTwoCandidates(best: DeviationState, first: Candidate, second: Candidate)
    ensures FoldCandidates(best, [first, second]) == UpdatedDeviation(UpdatedDeviation(best, first), second)
  {
    assert [first, second][1..] == [second];
    assert [second][1..] == [];
    assert FoldCandidates(UpdatedDeviation(best, first), [second])
        == FoldCandidates(UpdatedDeviation(UpdatedDeviation(best, first), second), []);
  }

  /** The stop-time-update loop of one trip update: the record holds the kept prediction of
      each matched update, in order, and the accumulator has been offered the candidates of
      each matched update, in order. */
  method ApplyStopTimeUpdates(env: Env, now: int, instance: BlockInstance, blockTrip: TripEntry,
                              updates: seq<StopTimeUpdate>, currentTime: int32, best: BestScheduleDeviation,
                              predictions: seq<TimepointPrediction>, lastStopScheduleTime: int)
    returns (predictions': seq<TimepointPrediction>, lastStopScheduleTime': int, ghost rs: Readings)
    modifies best
    ensures StopsRead(env, now, instance.serviceDate, currentTime, blockTrip, updates, rs)
    ensures predictions' == predictions + MatchedPredictions(rs)
    ensures best.State() == FoldCandidates(old(best.State()), MatchedCandidates(rs))
    ensures lastStopScheduleTime' ==
              if |updates| > 0 then LatestArrival(instance.serviceDate, blockTrip.stopTimes, lastStopScheduleTime)
              else lastStopScheduleTime
  {
    var sd := instance.serviceDate;
    predictions' := predictions;
    lastStopScheduleTime' := lastStopScheduleTime;
    rs := [];
    for k := 0 to |updates|
      invariant StopsRead(env, now, sd, currentTime, blockTrip, updates[..k], rs)
      invariant predictions' == predictions + MatchedPredictions(rs)
      invariant best.State() == FoldCandidates(old(best.State()), MatchedCandidates(rs))
      invariant lastStopScheduleTime' ==
                  if k > 0 then LatestArrival(sd, blockTrip.stopTimes, lastStopScheduleTime) else lastStopScheduleTime
    {
      ghost var read;
      if k > 0 {
        LatestArrivalIdempotent(sd, blockTrip.stopTimes, lastStopScheduleTime);
      }
      predictions', lastStopScheduleTime', read :=
        ApplyStopTimeUpdate(env, now, instance, blockTrip, updates[k], currentTime, best, predictions', lastStopScheduleTime');
      FoldCandidatesConcat(old(best.State()), MatchedCandidates(rs), if read.Some? then read.value.candidates else []);
      MatchedSnoc(rs, read);
      PredictionsSnoc(predictions, rs, read);
      StopsReadNext(env, now, sd, currentTime, blockTrip, updates, k, rs, read);
      rs := rs + [read];
    }
    assert updates[..|updates|] == updates;
  }

  // ---------------------------------------------------------------------------
  // One trip update

  /** Reading trip updates changes no field of the record but its status. */
  twostate predicate OnlyStatusChanged(record: VehicleLocationRecord)
    reads record
  {
    && record.timeOfRecord == old(record.timeOfRecord) && record.blockId == old(record.blockId)
    && record.serviceDate == old(record.serviceDate) && record.blockStartTime == old(record.blockStartTime)
    && record.scheduleDeviation == old(record.scheduleDeviation)
    && record.timepointPredictions == old(record.timepointPredictions)
    && record.vehicleId == old(record.vehicleId) && record.location == old(record.location)
    && record.timeOfLocationUpdate == old(record.timeOfLocationUpdate)
  }

  /** The collector, if any, was told of the cancelled and the added trips of `s`. */
  twostate predicate ReportedTrips(result: MonitoredResult?, s: seq<TripUpdate>)
    reads result
  {
    result != null ==> result.Snapshot() == old(result.Snapshot()).WithTrips(s)
  }

  /** The collector reports cancelled and added trips (corrected: only when there is one). */
  method ReportTripStatus(result: MonitoredResult?, tu: TripUpdate)
    modifies result
    ensures ReportedTrips(result, [tu])
  {
    var relationship := tu.trip.Relationship();
    assert [tu][..0] == [];
    assert TripIdsWith([tu], Canceled) == if relationship == Canceled then [tu.trip.TripIdOrEmpty()] else [];
    assert TripIdsWith([tu], Added) == if relationship == Added then [tu.trip.TripIdOrEmpty()] else [];
    if relationship == Canceled && result != null {
      result.cancelledTripIds := result.cancelledTripIds + [tu.trip.TripIdOrEmpty()];
    }
    if relationship == Added && result != null {
      result.addedTripIds := result.addedTripIds + [tu.trip.TripIdOrEmpty()];
    }
  }

  /** The collector reporting as written: no null check before reporting a cancelled or an
      added trip. */
  function ReportTripStatusAsWritten(hasCollector: bool, tu: TripUpdate): (r: Option<Fault>)
    ensures r == Some(NullPointer) <==> !hasCollector && tu.trip.Relationship() in {Canceled, Added}
    ensures r.None? || r == Some(NullPointer)
  {
    var relationship := tu.trip.Relationship();
    if relationship == Canceled && !hasCollector then Some(NullPointer)
    else if relationship == Added && !hasCollector then Some(NullPointer)
    else None
  }

  /** Without a collector, a cancelled trip update fails as written. */
  lemma CanceledTripWithoutCollectorFails()
    ensures ReportTripStatusAsWritten(false, TripUpdate(TripDescriptor(Some("T1"), None, None, Some(Canceled)), None, None, None, [])) == Some(NullPointer)
  { }

  /** The first fault the collector reporting raises, as written, over the trip updates read
      in order. */
  function ReportingFault(hasCollector: bool, s: seq<TripUpdate>): (r: Option<Fault>)
    ensures r.Some? <==> !hasCollector && exists i :: 0 <= i < |s| && s[i].trip.Relationship() in {Canceled, Added}
  {
    if |s| == 0 then None
    else if ReportTripStatusAsWritten(hasCollector, s[0]).Some? then ReportTripStatusAsWritten(hasCollector, s[0])
    else
      var rest := ReportingFault(hasCollector, s[1..]);
      assert forall i :: 0 <= i < |s[1..]| ==> s[1..][i] == s[i + 1];
      rest
  }

  /** As written, a bundle for a block whose one trip has a single CANCELED update fails
      when there is no collector: createVehicleLocationRecordForUpdate with a null
      `MonitoredResult` throws where the model reports nothing. */
  lemma CanceledBundleWithoutCollectorFails(bd: BlockDescriptor, tu: TripUpdate)
    requires |bd.instance.block.trips| == 1
    requires tu.trip.tripId == Some(bd.instance.block.trips[0].id.id)
    requires tu.trip.Relationship() == Canceled
    ensures ReportingFault(false, ProcessedUpdates(bd.instance.block.trips, [tu])) == Some(NullPointer)
  {
    var trips := bd.instance.block.trips;
    assert trips[..0] == [];
    assert tu.trip.TripIdOrEmpty() == trips[0].id.id;
    assert UpdatesForTrip([tu], trips[0].id.id) == [tu] by {
      assert [tu][..0] == [];
    }
    assert ProcessedUpdates(trips, [tu]) == [tu] by {
      assert trips[..1] == trips;
    }
  }

  /** The trip-level part of one trip update: its delay locks the deviation, and its
      timestamp and schedule relationship are recorded. */
  method ApplyTripLevelFields(result: MonitoredResult?, record: VehicleLocationRecord, tu: TripUpdate, tripId: Id,
                              best: BestScheduleDeviation)
    modifies best, record, result
    ensures best.State() == TripLevel(old(best.State()), tu, tripId)
    ensures record.status == Some(tu.trip.Relationship())
    ensures OnlyStatusChanged(record)
    ensures ReportedTrips(result, [tu])
  {
    if tu.delay.Some? {
      // a trip-level delay is taken as the schedule deviation
      best.delta := 0;
      best.isInPast := false;
      best.scheduleDeviation := tu.delay.value;
      best.tripId := Some(tripId);
      best.tripUpdateHasDelay := true;
    }
    if tu.timestamp.Some? {
      best.timestamp := tu.timestamp.value * 1000;
    }
    best.isCanceled := tu.trip.Relationship() == Canceled;
    ReportTripStatus(result, tu);
    record.status := Some(tu.trip.Relationship());
  }

  // ---------------------------------------------------------------------------
  // The whole block

  /** `MappingLibrary.mapToValueList(tripUpdates, "trip.tripId")`: the updates listed by
      trip id, in feed order. */
  function TripUpdatesByTripId(tus: seq<TripUpdate>): map<string, seq<TripUpdate>> {
    if |tus| == 0 then map[]
    else Put(TripUpdatesByTripId(tus[..|tus| - 1]), tus[|tus| - 1].trip.TripIdOrEmpty(), tus[|tus| - 1])
  }

  method MapTripUpdatesByTripId(tus: seq<TripUpdate>) returns (m: map<string, seq<TripUpdate>>)
    ensures m == TripUpdatesByTripId(tus)
  {
    m := map[];
    for i := 0 to |tus|
      invariant m == TripUpdatesByTripId(tus[..i])
    {
      assert tus[..i + 1][..i] == tus[..i];
      m := Put(m, tus[i].trip.TripIdOrEmpty(), tus[i]);
    }
    assert tus[..|tus|] == tus;
  }

  /** The list of a trip id is exactly the updates with that trip id, in feed order, and
      a trip id without updates has no list. */
  lemma {:induction false} TripUpdatesByTripIdFilters(tus: seq<TripUpdate>, tripId: string)
    ensures tripId in TripUpdatesByTripId(tus) <==> |UpdatesForTrip(tus, tripId)| > 0
    ensures tripId in TripUpdatesByTripId(tus) ==> TripUpdatesByTripId(tus)[tripId] == UpdatesForTrip(tus, tripId)
  {
    if |tus| > 0 {
      TripUpdatesByTripIdFilters(tus[..|tus| - 1], tripId);
    }
  }

  lemma WithTripsConcat(c: Collected, s: seq<TripUpdate>, t: seq<TripUpdate>)
    ensures c.WithTrips(s).WithTrips(t) == c.WithTrips(s + t)
  {
    TripIdsWithConcat(s, t, Canceled);
    TripIdsWithConcat(s, t, Added);
  }

  /** One trip update of a trip of the block: its trip-level fields, then its stop-time
      updates, as `ReadUpdate` says. */
  method ApplyTripUpdate(env: Env, now: int, result: MonitoredResult?, record: VehicleLocationRecord,
                         instance: BlockInstance, trip: TripEntry, tu: TripUpdate, currentTime: int32,
                         best: BestScheduleDeviation, predictions: seq<TimepointPrediction>, lastStopScheduleTime: int,
                         ghost single: bool)
    returns (predictions': seq<TimepointPrediction>, lastStopScheduleTime': int, ghost rs: Readings)
    modifies best, record, result
    ensures StopsRead(env, now, instance.serviceDate, currentTime, trip, tu.stopTimeUpdates, rs)
    ensures Progress(best.State(), predictions', lastStopScheduleTime', single)
         == ReadUpdate(Progress(old(best.State()), predictions, lastStopScheduleTime, single), instance.serviceDate, trip, tu, rs)
    ensures record.status == Some(tu.trip.Relationship())
    ensures OnlyStatusChanged(record)
    ensures ReportedTrips(result, [tu])
  {
    ApplyTripLevelFields(result, record, tu, trip.id, best);
    predictions', lastStopScheduleTime', rs :=
      ApplyStopTimeUpdates(env, now, instance, trip, tu.stopTimeUpdates, currentTime, best,
                           predictions, lastStopScheduleTime);
  }

  /** The updates of one trip of the block, in order: the accumulator, the predictions and
      the latest scheduled arrival end up as `ReadUpdates` says, given the stops each
      stop-time update was matched to, and the record's status is the last update's. */
  method ApplyUpdatesOfTrip(env: Env, now: int, result: MonitoredResult?, record: VehicleLocationRecord,
                            instance: BlockInstance, trip: TripEntry, updates: seq<TripUpdate>, currentTime: int32,
                            best: BestScheduleDeviation, predictions: seq<TimepointPrediction>, lastStopScheduleTime: int,
                            ghost single: bool)
    returns (predictions': seq<TimepointPrediction>, lastStopScheduleTime': int, ghost rss: seq<Readings>)
    modifies best, record, result
    ensures UpdatesRead(env, now, instance.serviceDate, currentTime, trip, updates, rss)
    ensures Progress(best.State(), predictions', lastStopScheduleTime', single)
         == ReadUpdates(Progress(old(best.State()), predictions, lastStopScheduleTime, single),
                        instance.serviceDate, trip, updates, rss)
    ensures |predictions'| > |predictions| ==> |updates| > 0
    ensures record.status == StatusAfter(old(record.status), updates)
    ensures OnlyStatusChanged(record)
    ensures ReportedTrips(result, updates)
  {
    ghost var start := Progress(best.State(), predictions, lastStopScheduleTime, single);
    predictions' := predictions;
    lastStopScheduleTime' := lastStopScheduleTime;
    rss := [];
    for j := 0 to |updates|
      invariant UpdatesRead(env, now, instance.serviceDate, currentTime, trip, updates[..j], rss)
      invariant Progress(best.State(), predictions', lastStopScheduleTime', single)
             == ReadUpdates(start, instance.serviceDate, trip, updates[..j], rss)
      invariant j == 0 ==> predictions' == predictions
      invariant record.status == StatusAfter(old(record.status), updates[..j])
      invariant OnlyStatusChanged(record)
      invariant ReportedTrips(result, updates[..j])
    {
      var tu := updates[j];
      assert updates[..j + 1] == updates[..j] + [tu];
      if result != null {
        WithTripsConcat(old(result.Snapshot()), updates[..j], [tu]);
      }
      ghost var rs;
      predictions', lastStopScheduleTime', rs :=
        ApplyTripUpdate(env, now, result, record, instance, trip, tu, currentTime, best,
                        predictions', lastStopScheduleTime', single);
      UpdatesReadSnoc(env, now, instance.serviceDate, currentTime, trip, updates[..j], rss, tu, rs);
      ReadUpdatesSnoc(start, instance.serviceDate, trip, updates[..j], rss, tu, rs);
      rss := rss + [rs];
    }
    assert updates[..|updates|] == updates;
  }

  /** One trip of the block in applyTripUpdatesToRecord: its updates are read, and its
      timepoints interpolated when a trip-level delay, or a single timepoint, calls for it;
      the whole step is `FinishTrip` after `ReadUpdates`. */
  method ApplyBlockTrip(env: Env, now: int, result: MonitoredResult?, record: VehicleLocationRecord,
                        instance: BlockInstance, trip: TripEntry, tripUpdates: seq<TripUpdate>,
                        byTripId: map<string, seq<TripUpdate>>, currentTime: int32,
                        best: BestScheduleDeviation, predictions: seq<TimepointPrediction>, lastStopScheduleTime: int,
                        single: bool)
    returns (predictions': seq<TimepointPrediction>, lastStopScheduleTime': int, single': bool, ghost rss: seq<Readings>)
    requires byTripId == TripUpdatesByTripId(tripUpdates)
    requires |predictions| > 0 ==> |tripUpdates| > 0
    requires single ==> |predictions| > 0
    modifies best, record, result
    ensures UpdatesRead(env, now, instance.serviceDate, currentTime, trip, UpdatesForTrip(tripUpdates, trip.id.id), rss)
    ensures Progress(best.State(), predictions', lastStopScheduleTime', single')
         == FinishTrip(ReadUpdates(Progress(old(best.State()), predictions, lastStopScheduleTime, single),
                                   instance.serviceDate, trip, UpdatesForTrip(tripUpdates, trip.id.id), rss),
                       instance.serviceDate, now, trip, tripUpdates)
    ensures |predictions'| > 0 ==> |tripUpdates| > 0
    ensures single' ==> |predictions'| > 0
    ensures record.status == StatusAfter(old(record.status), UpdatesForTrip(tripUpdates, trip.id.id))
    ensures OnlyStatusChanged(record)
    ensures ReportedTrips(result, UpdatesForTrip(tripUpdates, trip.id.id))
  {
    TripUpdatesByTripIdFilters(tripUpdates, trip.id.id);
    var updatesForTrip := if trip.id.id in byTripId then byTripId[trip.id.id] else [];
    assert updatesForTrip == UpdatesForTrip(tripUpdates, trip.id.id);
    predictions', lastStopScheduleTime', rss :=
      ApplyUpdatesOfTrip(env, now, result, record, instance, trip, updatesForTrip, currentTime, best,
                         predictions, lastStopScheduleTime, single);
    ReadUpdatesAppends(Progress(old(best.State()), predictions, lastStopScheduleTime, single),
                       instance.serviceDate, trip, updatesForTrip, rss);
    predictions', single' := FinishBlockTrip(now, instance.serviceDate, trip, tripUpdates, best, predictions',
                                             lastStopScheduleTime', single);
  }

  /** The end of the loop body for one trip of the block: the single-timepoint flag, then
      the interpolation of the trip's timepoints when a trip-level delay applies to some
      prediction or in the single-timepoint case, as `FinishTrip` says. */
  method FinishBlockTrip(now: int, serviceDate: int, trip: TripEntry, tripUpdates: seq<TripUpdate>,
                         best: BestScheduleDeviation, predictions: seq<TimepointPrediction>, lastStopScheduleTime: int,
                         single: bool)
    returns (predictions': seq<TimepointPrediction>, single': bool)
    requires |predictions| > 0 ==> |tripUpdates| > 0
    ensures Progress(best.State(), predictions', lastStopScheduleTime, single')
         == FinishTrip(Progress(best.State(), predictions, lastStopScheduleTime, single), serviceDate, now, trip, tripUpdates)
  {
    single' := single;
    if |predictions| == 1 && |tripUpdates[0].stopTimeUpdates| == 1 {
      single' := true;
    }
    predictions' := predictions;
    // a trip-level delay, or a single timepoint, is spread over the trip's other stops
    if (|predictions| > 0 && best.tripUpdateHasDelay) || single' {
      var time := if best.timestamp != 0 then best.timestamp else now;
      predictions' := InterpolateTimepoints(trip.stopTimes, predictions, serviceDate, best.scheduleDeviation,
                                            time, single', lastStopScheduleTime);
    }
  }

  lemma StatusAfterConcat(initial: Option<TripScheduleRelationship>, s: seq<TripUpdate>, t: seq<TripUpdate>)
    ensures StatusAfter(StatusAfter(initial, s), t) == StatusAfter(initial, s + t)
  {
    if |t| == 0 {
      assert s + t == s;
    }
  }

  /** The loop of applyTripUpdatesToRecord over the trips of the block, reading the
      updates of each trip in turn into a fresh accumulator: the accumulator and the
      predictions end up as `BlockProgress` says. */
  method ApplyBlockTrips(env: Env, now: int, result: MonitoredResult?, record: VehicleLocationRecord,
                         instance: BlockInstance, tripUpdates: seq<TripUpdate>, best: BestScheduleDeviation)
    returns (predictions: seq<TimepointPrediction>, ghost rsss: seq<seq<Readings>>)
    requires best.State() == INITIAL
    modifies best, record, result
    ensures BlockRead(env, now, instance.serviceDate, instance.block.trips, tripUpdates, rsss)
    ensures best.State() == BlockProgress(instance.serviceDate, now, instance.block.trips, tripUpdates, rsss).deviation
    ensures predictions == BlockProgress(instance.serviceDate, now, instance.block.trips, tripUpdates, rsss).predictions
    ensures record.status == StatusAfter(old(record.status), ProcessedUpdates(instance.block.trips, tripUpdates))
    ensures OnlyStatusChanged(record)
    ensures ReportedTrips(result, ProcessedUpdates(instance.block.trips, tripUpdates))
  {
    var blockTrips := instance.block.trips;
    var sd := instance.serviceDate;
    var byTripId := MapTripUpdatesByTripId(tripUpdates);
    var currentTime := Wrap(Quot(now - sd, 1000));
    var lastStopScheduleTime := LONG_MIN;
    var single := false;
    predictions := [];
    rsss := [];
    ghost var start := if result != null then result.Snapshot() else Collected([], [], [], []);
    for i := 0 to |blockTrips|
      invariant BlockRead(env, now, sd, blockTrips[..i], tripUpdates, rsss)
      invariant Progress(best.State(), predictions, lastStopScheduleTime, single)
             == BlockProgress(sd, now, blockTrips[..i], tripUpdates, rsss)
      invariant |predictions| > 0 ==> |tripUpdates| > 0
      invariant single ==> |predictions| > 0
      invariant record.status == StatusAfter(old(record.status), ProcessedUpdates(blockTrips[..i], tripUpdates))
      invariant OnlyStatusChanged(record)
      invariant result != null ==> result.Snapshot() == start.WithTrips(ProcessedUpdates(blockTrips[..i], tripUpdates))
    {
      predictions, lastStopScheduleTime, single, rsss :=
        ApplyNextBlockTrip(env, now, result, record, instance, tripUpdates, byTripId, currentTime, best, i,
                           predictions, lastStopScheduleTime, single, rsss, start, old(record.status));
    }
    assert blockTrips[..|blockTrips|] == blockTrips;
  }

  /** One turn of the loop of `ApplyBlockTrips`: the block's trip `i`, after the trips
      before it. */
  method ApplyNextBlockTrip(env: Env, now: int, result: MonitoredResult?, record: VehicleLocationRecord,
                            instance: BlockInstance, tripUpdates: seq<TripUpdate>, byTripId: map<string, seq<TripUpdate>>,
                            currentTime: int32, best: BestScheduleDeviation, i: nat,
                            predictions: seq<TimepointPrediction>, lastStopScheduleTime: int, single: bool,
                            ghost rsss: seq<seq<Readings>>, ghost start: Collected,
                            ghost status: Option<TripScheduleRelationship>)
    returns (predictions': seq<TimepointPrediction>, lastStopScheduleTime': int, single': bool,
             ghost rsss': seq<seq<Readings>>)
    requires i < |instance.block.trips|
    requires byTripId == TripUpdatesByTripId(tripUpdates)
    requires currentTime == SecondsSinceServiceDate(now, instance.serviceDate)
    requires BlockRead(env, now, instance.serviceDate, instance.block.trips[..i], tripUpdates, rsss)
    requires Progress(best.State(), predictions, lastStopScheduleTime, single)
          == BlockProgress(instance.serviceDate, now, instance.block.trips[..i], tripUpdates, rsss)
    requires |predictions| > 0 ==> |tripUpdates| > 0
    requires single ==> |predictions| > 0
    requires record.status == StatusAfter(status, ProcessedUpdates(instance.block.trips[..i], tripUpdates))
    requires result != null ==> result.Snapshot() == start.WithTrips(ProcessedUpdates(instance.block.trips[..i], tripUpdates))
    modifies best, record, result
    ensures BlockRead(env, now, instance.serviceDate, instance.block.trips[..i + 1], tripUpdates, rsss')
    ensures Progress(best.State(), predictions', lastStopScheduleTime', single')
         == BlockProgress(instance.serviceDate, now, instance.block.trips[..i + 1], tripUpdates, rsss')
    ensures |predictions'| > 0 ==> |tripUpdates| > 0
    ensures single' ==> |predictions'| > 0
    ensures record.status == StatusAfter(status, ProcessedUpdates(instance.block.trips[..i + 1], tripUpdates))
    ensures OnlyStatusChanged(record)
    ensures result != null ==> result.Snapshot() == start.WithTrips(ProcessedUpdates(instance.block.trips[..i + 1], tripUpdates))
  {
    var blockTrips := instance.block.trips;
    var sd := instance.serviceDate;
    ghost var done := ProcessedUpdates(blockTrips[..i], tripUpdates);
    ghost var own := UpdatesForTrip(tripUpdates, blockTrips[i].id.id);
    ProcessedUpdatesNext(blockTrips, tripUpdates, i);
    WithTripsConcat(start, done, own);
    StatusAfterConcat(status, done, own);
    ghost var rss;
    predictions', lastStopScheduleTime', single', rss :=
      ApplyBlockTrip(env, now, result, record, instance, blockTrips[i], tripUpdates, byTripId, currentTime, best,
                     predictions, lastStopScheduleTime, single);
    BlockReadNext(env, now, sd, blockTrips, tripUpdates, i, rsss, rss);
    BlockProgressNext(sd, now, blockTrips, tripUpdates, i, rsss, rss);
    rsss' := rsss + [rss];
  }

  /** applyTripUpdatesToRecord. The trips of the block are read in order and, for each,
      the updates with its trip id; then the timepoints of the trip are interpolated when
      a trip-level delay or a single timepoint calls for it. Given the stops each stop-time
      update was matched to, the record holds the predictions `BlockProgress` gives and,
      unless the last update read cancels its trip, its deviation: the last trip-level
      delay, or without one the fold of the stop-level candidates of the block. The status
      is the block's unless that update cancels the trip, and the record's time is the
      timestamp of the last update that has one. */
  method ApplyTripUpdatesToRecord(env: Env, now: int, result: MonitoredResult?, bd: BlockDescriptor,
                                  tripUpdates: seq<TripUpdate>, record: VehicleLocationRecord)
    returns (ghost rsss: seq<seq<Readings>>)
    modifies record, result
    ensures BlockRead(env, now, bd.instance.serviceDate, bd.instance.block.trips, tripUpdates, rsss)
    ensures BlockRecorded(now, bd, tripUpdates, rsss, record.serviceDate, record.timepointPredictions,
                            record.status, record.scheduleDeviation)
    ensures var read := ProcessedUpdates(bd.instance.block.trips, tripUpdates);
      && (EndsCanceled(read) ==> record.scheduleDeviation == old(record.scheduleDeviation))
      && record.timeOfRecord == (if LastTimestamp(read) != 0 then LastTimestamp(read) else old(record.timeOfRecord))
      && ReportedTrips(result, read)
    ensures record.blockStartTime == (if bd.startTime.Some? then bd.startTime else old(record.blockStartTime))
    ensures record.blockId == old(record.blockId) && record.vehicleId == old(record.vehicleId)
    ensures record.location == old(record.location) && record.timeOfLocationUpdate == old(record.timeOfLocationUpdate)
  {
    var best := new BestScheduleDeviation();
    var predictions;
    predictions, rsss := ApplyBlockTrips(env, now, result, record, bd.instance, tripUpdates, best);
    BlockRecordedFacts(env, now, bd, tripUpdates, rsss);
    StoreBlockResult(bd, best, predictions, record);
  }

  /** The end of applyTripUpdatesToRecord: the service date, the block's start time if it
      has one, the status and the deviation unless the accumulator says the trip is
      cancelled, its timestamp if it has one, and the predictions go on the record. */
  method StoreBlockResult(bd: BlockDescriptor, best: BestScheduleDeviation, predictions: seq<TimepointPrediction>,
                          record: VehicleLocationRecord)
    modifies record
    ensures record.serviceDate == bd.instance.serviceDate
    ensures record.blockStartTime == (if bd.startTime.Some? then bd.startTime else old(record.blockStartTime))
    ensures record.status == (if best.isCanceled then old(record.status) else Some(bd.Relationship()))
    ensures record.scheduleDeviation == (if best.isCanceled then old(record.scheduleDeviation) else Some(best.scheduleDeviation))
    ensures record.timeOfRecord == (if best.timestamp != 0 then best.timestamp else old(record.timeOfRecord))
    ensures record.timepointPredictions == predictions
    ensures record.blockId == old(record.blockId) && record.vehicleId == old(record.vehicleId)
    ensures record.location == old(record.location) && record.timeOfLocationUpdate == old(record.timeOfLocationUpdate)
  {
    record.serviceDate := bd.instance.serviceDate;
    if bd.startTime.Some? {
      record.blockStartTime := bd.startTime;
    }
    if !best.isCanceled {
      record.status := Some(bd.Relationship());
      record.scheduleDeviation := Some(best.scheduleDeviation);
    }
    if best.timestamp != 0 {
      record.timeOfRecord := best.timestamp;
    }
    record.timepointPredictions := predictions;
  }

  /** What the trip updates of a block leave on the record, given the stops each stop-time
      update was matched to: its service date; the predictions `BlockProgress` gives, in
      which a skipped stop is bare; the status of the block unless the last update read
      cancels its trip; and otherwise the deviation of the accumulator, which is the last
      trip-level delay or, without one, the fold of the block's stop-level candidates. */
  ghost predicate BlockRecorded(now: int, bd: BlockDescriptor, tripUpdates: seq<TripUpdate>, rsss: seq<seq<Readings>>,
                                serviceDate: int, predictions: seq<TimepointPrediction>,
                                status: Option<TripScheduleRelationship>, scheduleDeviation: Option<int32>)
  {
    var trips := bd.instance.block.trips;
    var read := ProcessedUpdates(trips, tripUpdates);
    && BlockShaped(trips, tripUpdates, rsss)
    && var progress := BlockProgress(bd.instance.serviceDate, now, trips, tripUpdates, rsss);
    && serviceDate == bd.instance.serviceDate
    && predictions == progress.predictions
    && (forall p :: p in predictions ==> SkippedIsBare(p))
    && status == Some(if EndsCanceled(read) then Canceled else bd.Relationship())
    && (!EndsCanceled(read) ==> scheduleDeviation == Some(progress.deviation.scheduleDeviation))
    && (!EndsCanceled(read) && LastDelay(read).Some? ==> scheduleDeviation == LastDelay(read))
    && (!EndsCanceled(read) && LastDelay(read).None? ==>
          scheduleDeviation
          == Some(FoldCandidates(INITIAL, BlockCandidates(rsss)).scheduleDeviation))
  }

  /** What a recorded block says, in the source's terms: every prediction of a skipped stop
      is bare; unless the last update read cancels its trip there is a deviation, which is
      the last trip-level delay or, without one, what the block's stop-level candidates give
      folded in order into a fresh accumulator. */
  lemma BlockRecordedFacts(env: Env, now: int, bd: BlockDescriptor, tripUpdates: seq<TripUpdate>, rsss: seq<seq<Readings>>)
    requires BlockRead(env, now, bd.instance.serviceDate, bd.instance.block.trips, tripUpdates, rsss)
    ensures var trips := bd.instance.block.trips;
      var read := ProcessedUpdates(trips, tripUpdates);
      var progress := BlockProgress(bd.instance.serviceDate, now, trips, tripUpdates, rsss);
      && (forall p :: p in progress.predictions ==> SkippedIsBare(p))
      && progress.deviation.isCanceled == EndsCanceled(read)
      && progress.deviation.timestamp == LastTimestamp(read)
      && (LastDelay(read).Some? ==> progress.deviation.scheduleDeviation == LastDelay(read).value)
      && (LastDelay(read).None? ==>
            progress.deviation.scheduleDeviation
            == FoldCandidates(INITIAL, BlockCandidates(rsss)).scheduleDeviation)
  {
    var trips := bd.instance.block.trips;
    BlockProgressTracks(bd.instance.serviceDate, now, trips, tripUpdates, rsss);
    BlockPredictionsAreBare(env, now, bd.instance.serviceDate, trips, tripUpdates, rsss);
    if LastDelay(ProcessedUpdates(trips, tripUpdates)).None? {
      UndelayedDeviationFoldsTheCandidates(bd.instance.serviceDate, now, trips, tripUpdates, rsss);
    }
  }

  // ---------------------------------------------------------------------------
  // Vehicle position

  /** applyVehiclePositionToRecord: the position and, when the feed gives one, its time in
      milliseconds go on the record; the collector records the location. */
  method ApplyVehiclePositionToRecord(result: MonitoredResult?, vp: VehiclePosition, record: VehicleLocationRecord)
    modifies record, result
    ensures record.location == Some(vp.position)
    ensures record.timeOfLocationUpdate ==
              if vp.timestamp.Some? then Some(vp.timestamp.value * 1000) else old(record.timeOfLocationUpdate)
    ensures result != null ==> result.Snapshot() == old(result.Snapshot()).WithLatLon(vp.position)
    ensures && record.timeOfRecord == old(record.timeOfRecord) && record.blockId == old(record.blockId)
            && record.status == old(record.status) && record.serviceDate == old(record.serviceDate)
            && record.blockStartTime == old(record.blockStartTime)
            && record.scheduleDeviation == old(record.scheduleDeviation)
            && record.timepointPredictions == old(record.timepointPredictions)
            && record.vehicleId == old(record.vehicleId)
  {
    if vp.timestamp.Some? {
      record.timeOfLocationUpdate := Some(vp.timestamp.value * 1000);
    }
    record.location := Some(vp.position);
    if result != null {
      result.latLons := result.latLons + [vp.position];
    }
  }

  // ---------------------------------------------------------------------------
  // The location record of one bundle

  /** The record createVehicleLocationRecordForUpdate builds for a bundle with a block,
      given the stops each stop-time update was matched to: the block's id, the vehicle id
      (the block's vehicle id under the block's agency, or the block id), what the trip
      updates leave (`BlockRecorded`), a deviation exactly when the last update read does
      not cancel its trip, the time of the last update with a timestamp or else now, the
      block's start time, and the bundle's position and its time in milliseconds. */
  ghost predicate BuiltRecord(env: Env, now: int, update: Bundle, rsss: seq<seq<Readings>>, record: VehicleLocationRecord)
    reads record
  {
    && update.block.Some?
    && var bd := update.block.value;
    && var blockId := bd.instance.block.block;
    && var read := ProcessedUpdates(bd.instance.block.trips, update.tripUpdates);
    && BlockRead(env, now, bd.instance.serviceDate, bd.instance.block.trips, update.tripUpdates, rsss)
    && BlockRecorded(now, bd, update.tripUpdates, rsss, record.serviceDate, record.timepointPredictions,
                     record.status, record.scheduleDeviation)
    && record.blockId == Some(blockId)
    && record.vehicleId == Some(if bd.vehicleId.Some? then Id(blockId.agencyId, bd.vehicleId.value) else blockId)
    && record.scheduleDeviation.Some? == !EndsCanceled(read)
    && record.timeOfRecord == (if LastTimestamp(read) != 0 then LastTimestamp(read) else now)
    && record.blockStartTime == bd.startTime
    && record.location == (if update.vehiclePosition.Some? then Some(update.vehiclePosition.value.position) else None)
    && record.timeOfLocationUpdate ==
         (if update.vehiclePosition.Some? && update.vehiclePosition.value.timestamp.Some?
          then Some(update.vehiclePosition.value.timestamp.value * 1000) else None)
  }

  /** What the collector holds after a bundle with a block: the cancelled and added trips
      read, the position if any, then the block as the matched trip. */
  function CollectedForBundle(c: Collected, update: Bundle): Collected
    requires update.block.Some?
  {
    var reported := c.WithTrips(ProcessedUpdates(update.block.value.instance.block.trips, update.tripUpdates));
    var located := if update.vehiclePosition.Some? then reported.WithLatLon(update.vehiclePosition.value.position) else reported;
    located.WithMatchedTrip(IdString(update.block.value.instance.block.block))
  }

  /** createVehicleLocationRecordForUpdate. A bundle without a block gives no record.
      Otherwise the record starts at the current time with the block's id and status,
      takes the block's trip updates and then its vehicle position, and always has a
      vehicle id. The collector counts the block as a matched trip. */
  method CreateVehicleLocationRecordForUpdate(env: Env, now: int, result: MonitoredResult?, update: Bundle)
    returns (record: VehicleLocationRecord?, ghost rsss: seq<seq<Readings>>)
    modifies result
    ensures record == null <==> update.block.None?
    ensures update.block.None? ==> result == null || result.Snapshot() == old(result.Snapshot())
    ensures record != null ==> fresh(record) && BuiltRecord(env, now, update, rsss, record)
    ensures record != null && result != null ==> result.Snapshot() == CollectedForBundle(old(result.Snapshot()), update)
  {
    if update.block.None? {
      return null, [];
    }
    var bd := update.block.value;
    record := new VehicleLocationRecord();
    record.timeOfRecord := now;
    record.blockId := Some(bd.instance.block.block);
    record.status := Some(bd.Relationship());
    rsss := ApplyTripUpdatesToRecord(env, now, result, bd, update.tripUpdates, record);
    IdentifyVehicle(result, bd, update.vehiclePosition, record);
  }

  /** The end of createVehicleLocationRecordForUpdate: the bundle's position, if any, then
      the vehicle id and the collector's matched trip. */
  method IdentifyVehicle(result: MonitoredResult?, bd: BlockDescriptor, vp: Option<VehiclePosition>,
                         record: VehicleLocationRecord)
    requires record.blockId == Some(bd.instance.block.block)
    modifies record, result
    ensures record.vehicleId ==
              Some(if bd.vehicleId.Some? then Id(bd.instance.block.block.agencyId, bd.vehicleId.value) else bd.instance.block.block)
    ensures record.location == (if vp.Some? then Some(vp.value.position) else old(record.location))
    ensures record.timeOfLocationUpdate ==
              if vp.Some? && vp.value.timestamp.Some? then Some(vp.value.timestamp.value * 1000) else old(record.timeOfLocationUpdate)
    ensures result != null ==>
              var located := if vp.Some? then old(result.Snapshot()).WithLatLon(vp.value.position) else old(result.Snapshot());
              result.Snapshot() == located.WithMatchedTrip(IdString(bd.instance.block.block))
    ensures && record.timeOfRecord == old(record.timeOfRecord) && record.blockId == old(record.blockId)
            && record.status == old(record.status) && record.serviceDate == old(record.serviceDate)
            && record.blockStartTime == old(record.blockStartTime)
            && record.scheduleDeviation == old(record.scheduleDeviation)
            && record.timepointPredictions == old(record.timepointPredictions)
  {
    if vp.Some? {
      ApplyVehiclePositionToRecord(result, vp.value, record);
    }
    // the block id stands in for the vehicle id until the block names a vehicle
    record.vehicleId := record.blockId;
    if result != null {
      // the record never carries a trip id, so the block counts as the matched trip
      result.matchedTripIds := result.matchedTripIds + [IdString(record.blockId.value)];
    }
    if bd.vehicleId.Some? {
      record.vehicleId := Some(Id(record.blockId.value.agencyId, bd.vehicleId.value));
    }
  }

  // ---------------------------------------------------------------------------
  // The occupancy record of one bundle

  /** `VehicleOccupancyRecord`: the vehicle id is the block's agency with the block's
      vehicle id, which may be missing; route and direction link the record to a trip. */
  datatype OccupancyRecord = OccupancyRecord(
    agencyId: string,
    vehicleId: Option<string>,
    occupancyStatus: FeedOccupancy,
    routeId: Option<string>,
    directionId: Option<string>)

  /** The trip an occupancy is linked to: the position's own trip when the schedule knows
      it, else the trip of the bundle's first update; reading the first update of an empty
      bundle fails. */
  function OccupancyTrip(env: Env, vp: VehiclePosition, tripUpdates: seq<TripUpdate>): Result<Option<TripEntry>, Fault> {
    var fromPosition := if vp.trip.Some? && vp.trip.value.tripId.Some? then env.getTrip(vp.trip.value.tripId.value) else None;
    if fromPosition.Some? then Success(fromPosition)
    else if |tripUpdates| == 0 then Failure(IndexOutOfBounds)
    else Success(env.getTrip(tripUpdates[0].trip.TripIdOrEmpty()))
  }

  /** createVehicleOccupancyRecordForUpdate: a record only for a bundle whose position
      carries an occupancy status the schedule side knows. */
  function CreateVehicleOccupancyRecordForUpdate(env: Env, update: Option<Bundle>): (r: Result<Option<OccupancyRecord>, Fault>)
    ensures r.Success? && r.value.Some? ==>
      && update.Some? && update.value.block.Some? && update.value.vehiclePosition.Some?
      && update.value.vehiclePosition.value.occupancyStatus == Some(r.value.value.occupancyStatus)
      && env.knownOccupancy(r.value.value.occupancyStatus)
      && r.value.value.agencyId == update.value.block.value.instance.block.block.agencyId
      && r.value.value.vehicleId == update.value.block.value.vehicleId
    ensures r.Failure? <==>
      && update.Some? && update.value.vehiclePosition.Some? && update.value.vehiclePosition.value.occupancyStatus.Some?
      && (update.value.block.None? || OccupancyTrip(env, update.value.vehiclePosition.value, update.value.tripUpdates).Failure?)
    ensures r.Failure? && update.value.block.Some? ==> r.error == IndexOutOfBounds && |update.value.tripUpdates| == 0
  {
    if update.None? || update.value.vehiclePosition.None? then Success(None)
    else
      var vp := update.value.vehiclePosition.value;
      if vp.occupancyStatus.None? then Success(None)
      // the vehicle's agency is read from the block, which may be missing
      else if update.value.block.None? then Failure(NullPointer)
      else
        var bd := update.value.block.value;
        match OccupancyTrip(env, vp, update.value.tripUpdates)
        case Failure(e) => Failure(e)
        case Success(firstTrip) =>
          var linked := firstTrip.Some? && firstTrip.value.route.Some?;
          // a status the schedule side cannot name gives no record
          if !env.knownOccupancy(vp.occupancyStatus.value) then Success(None)
          else Success(Some(OccupancyRecord(
            bd.instance.block.block.agencyId, bd.vehicleId, vp.occupancyStatus.value,
            if linked then Some(IdString(firstTrip.value.route.value)) else None,
            if linked then firstTrip.value.directionId else None)))
  }

  /** The route and direction of an occupancy come from the position's own trip whenever
      the schedule knows it and it has a route, whatever the bundle's updates say. */
  lemma OccupancyFollowsPositionTrip(env: Env, update: Bundle, trip: TripEntry)
    requires update.vehiclePosition.Some? && update.vehiclePosition.value.trip.Some?
    requires update.vehiclePosition.value.trip.value.tripId.Some?
    requires env.getTrip(update.vehiclePosition.value.trip.value.tripId.value) == Some(trip) && trip.route.Some?
    requires CreateVehicleOccupancyRecordForUpdate(env, Some(update)).Success?
    requires CreateVehicleOccupancyRecordForUpdate(env, Some(update)).value.Some?
    ensures CreateVehicleOccupancyRecordForUpdate(env, Some(update)).value.value.routeId == Some(IdString(trip.route.value))
    ensures CreateVehicleOccupancyRecordForUpdate(env, Some(update)).value.value.directionId == trip.directionId
  {
  }

  /** A known occupancy status of a bundle with a block and at least one update always
      gives a record. */
  lemma KnownOccupancyIsRecorded(env: Env, update: Bundle)
    requires update.block.Some? && |update.tripUpdates| > 0
    requires update.vehiclePosition.Some? && update.vehiclePosition.value.occupancyStatus.Some?
    requires env.knownOccupancy(update.vehiclePosition.value.occupancyStatus.value)
    ensures CreateVehicleOccupancyRecordForUpdate(env, Some(update)).Success?
    ensures CreateVehicleOccupancyRecordForUpdate(env, Some(update)).value.Some?
  {
  }
}
