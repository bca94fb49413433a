/** Timepoint predictions, the earliest predicted time among them
    (getEarliestTimeInRecords), and the timepoint interpolator of applyTripUpdatesToRecord:
    predictions synthesised for the scheduled stops of a trip that the feed did not mention,
    by applying the winning deviation uniformly. Times here are epoch milliseconds. */
module Interpolation {
  import opened Wrappers
  import opened JavaInt
  import opened Feed
  import opened Schedule

  /** The "unset" value of a predicted time in a TimepointPredictionRecord. */
  const UNSET: int := -1

  /** `TimepointPredictionRecord`; a predicted time of UNSET means there is none. */
  datatype TimepointPrediction = TimepointPrediction(
    timepointId: Id,
    tripId: Id,
    stopSequence: Option<int>,
    scheduledTime: Option<int>,
    predictedArrival: int,
    predictedDeparture: int,
    relationship: StopScheduleRelationship)

  /** The time getEarliestTimeInRecords reads from a record: its arrival, else its departure. */
  function PredictedTime(p: TimepointPrediction): Option<int> {
    if p.predictedArrival != UNSET then Some(p.predictedArrival)
    else if p.predictedDeparture != UNSET then Some(p.predictedDeparture)
    else None
  }

  /** The least predicted time of the records, or `Long.MAX_VALUE` when none is smaller. */
  function EarliestTime(records: seq<TimepointPrediction>): int {
    if |records| == 0 then LONG_MAX
    else
      var earlier := EarliestTime(records[..|records| - 1]);
      var t := PredictedTime(records[|records| - 1]);
      if t.Some? && t.value < earlier then t.value else earlier
  }

  /** getEarliestTimeInRecords: the least predicted time of the records, or `Long.MAX_VALUE`
      when no record has one. */
  method GetEarliestTimeInRecords(records: seq<TimepointPrediction>) returns (earliest: int)
    ensures earliest == EarliestTime(records)
    ensures earliest <= LONG_MAX
    ensures forall i :: 0 <= i < |records| && PredictedTime(records[i]).Some? ==> earliest <= PredictedTime(records[i]).value
    ensures earliest == LONG_MAX || exists i :: 0 <= i < |records| && PredictedTime(records[i]) == Some(earliest)
  {
    earliest := LONG_MAX;
    for i := 0 to |records|
      invariant earliest == EarliestTime(records[..i])
      invariant earliest <= LONG_MAX
      invariant forall j :: 0 <= j < i && PredictedTime(records[j]).Some? ==> earliest <= PredictedTime(records[j]).value
      invariant earliest == LONG_MAX || exists j :: 0 <= j < i && PredictedTime(records[j]) == Some(earliest)
    {
      assert records[..i + 1][..i] == records[..i];
      var p := records[i];
      if p.predictedArrival != UNSET {
        earliest := if p.predictedArrival < earliest then p.predictedArrival else earliest;
      } else if p.predictedDeparture != UNSET {
        earliest := if p.predictedDeparture < earliest then p.predictedDeparture else earliest;
      }
    }
    assert records[..|records|] == records;
  }

  /** The stops the records already cover. */
  function Covered(records: seq<TimepointPrediction>): set<Id> {
    if |records| == 0 then {} else Covered(records[..|records| - 1]) + {records[|records| - 1].timepointId}
  }

  /** A stop is covered exactly when some record is for it. */
  lemma {:induction false} CoveredIsTheRecordedStops(records: seq<TimepointPrediction>)
    ensures forall id :: id in Covered(records) <==> exists p :: p in records && p.timepointId == id
  {
    if |records| > 0 {
      var n := |records|;
      CoveredIsTheRecordedStops(records[..n - 1]);
      assert records == records[..n - 1] + [records[n - 1]];
    }
  }

  /** The set of the stops the records cover, built record by record. */
  method CoveredTimepoints(records: seq<TimepointPrediction>) returns (covered: set<Id>)
    ensures covered == Covered(records)
  {
    covered := {};
    for i := 0 to |records|
      invariant covered == Covered(records[..i])
    {
      assert records[..i + 1][..i] == records[..i];
      covered := covered + {records[i].timepointId};
    }
    assert records[..|records|] == records;
  }

  /** The inputs of one interpolation pass over a trip's stops. `deviation` is the winning
      schedule deviation in seconds; `time` is the reference time (the trip update's
      timestamp, or now); `earliest` is the earliest existing prediction; `single` is the
      single-timepoint case, bounded by the scheduled arrival `lastStopScheduleTime`. */
  datatype Window = Window(
    serviceDate: int,
    deviation: int32,
    time: int,
    earliest: int,
    single: bool,
    lastStopScheduleTime: int)

  /** The prediction synthesised for a scheduled stop. */
  function Synthesised(st: StopTimeEntry, w: Window): TimepointPrediction {
    var predictionOffset := w.serviceDate + w.deviation * 1000;
    TimepointPrediction(
      st.stop, st.trip, Some(st.gtfsSequence),
      Some(w.serviceDate + Wrap(st.arrivalTime * 1000)),
      st.arrivalTime * 1000 + predictionOffset,
      st.departureTime * 1000 + predictionOffset,
      StopScheduled)
  }

  /** A synthesised prediction is the scheduled time moved by the deviation, as long as the
      scheduled arrival in milliseconds fits the `int` the source computes it in. */
  lemma SynthesisedIsShiftedSchedule(st: StopTimeEntry, w: Window)
    requires INT_MIN <= st.arrivalTime * 1000 <= INT_MAX
    ensures var p := Synthesised(st, w);
      && p.predictedArrival == p.scheduledTime.value + w.deviation * 1000
      && p.predictedDeparture - p.predictedArrival == (st.departureTime - st.arrivalTime) * 1000
  {
  }

  /** The stop is worth a prediction: its predicted departure is still to come, and either
      precedes the earliest existing prediction or, in the single-timepoint case, the stop
      is scheduled no later than the last stop. */
  predicate InWindow(st: StopTimeEntry, w: Window) {
    var p := Synthesised(st, w);
    || (p.predictedDeparture > w.time && p.predictedDeparture < w.earliest)
    || (w.single && p.predictedDeparture > w.time && p.scheduledTime.value <= w.lastStopScheduleTime)
  }

  /** The predictions one pass adds, in stop order: one per stop not already covered and in
      the window. */
  function Interpolations(stopTimes: seq<StopTimeEntry>, covered: set<Id>, w: Window): seq<TimepointPrediction>
  {
    if |stopTimes| == 0 then []
    else
      var st := stopTimes[|stopTimes| - 1];
      var earlier := Interpolations(stopTimes[..|stopTimes| - 1], covered, w);
      if st.stop !in covered && InWindow(st, w) then earlier + [Synthesised(st, w)] else earlier
  }

  /** Every added prediction is the scheduled one shifted by the deviation, is marked
      SCHEDULED, lies in the window, and belongs to an uncovered stop of the trip. */
  lemma {:induction false} InterpolationsSound(stopTimes: seq<StopTimeEntry>, covered: set<Id>, w: Window, p: TimepointPrediction)
    requires p in Interpolations(stopTimes, covered, w)
    ensures p.relationship == StopScheduled
    ensures p.timepointId !in covered
    ensures exists i :: 0 <= i < |stopTimes| && stopTimes[i].stop == p.timepointId && InWindow(stopTimes[i], w)
                        && p == Synthesised(stopTimes[i], w)
    ensures p.predictedDeparture > w.time
    ensures p.predictedDeparture < w.earliest || (w.single && p.scheduledTime.value <= w.lastStopScheduleTime)
  {
    var n := |stopTimes|;
    var st := stopTimes[n - 1];
    var earlier := Interpolations(stopTimes[..n - 1], covered, w);
    if p in earlier {
      InterpolationsSound(stopTimes[..n - 1], covered, w, p);
      var i :| 0 <= i < n - 1 && stopTimes[..n - 1][i].stop == p.timepointId && InWindow(stopTimes[..n - 1][i], w)
                && p == Synthesised(stopTimes[..n - 1][i], w);
      assert stopTimes[i] == stopTimes[..n - 1][i];
    } else {
      assert p == Synthesised(st, w);
    }
  }

  /** Every uncovered stop in the window gets a prediction. */
  lemma {:induction false} InterpolationsComplete(stopTimes: seq<StopTimeEntry>, covered: set<Id>, w: Window, i: int)
    requires 0 <= i < |stopTimes|
    requires stopTimes[i].stop !in covered && InWindow(stopTimes[i], w)
    ensures Synthesised(stopTimes[i], w) in Interpolations(stopTimes, covered, w)
  {
    var n := |stopTimes|;
    if i < n - 1 {
      assert stopTimes[..n - 1][i] == stopTimes[i];
      InterpolationsComplete(stopTimes[..n - 1], covered, w, i);
    }
  }

  /** The timepoint interpolation block of applyTripUpdatesToRecord, for one trip's stops:
      appends a prediction for each stop that no existing prediction covers and that lies
      in the window. */
  method InterpolateTimepoints(stopTimes: seq<StopTimeEntry>, predictions: seq<TimepointPrediction>,
                               serviceDate: int, deviation: int32, time: int, single: bool,
                               lastStopScheduleTime: int)
    returns (out: seq<TimepointPrediction>)
    ensures out == predictions + Interpolations(stopTimes, Covered(predictions),
                                                Window(serviceDate, deviation, time, EarliestTime(predictions), single, lastStopScheduleTime))
  {
    var covered := CoveredTimepoints(predictions);
    var earliest := GetEarliestTimeInRecords(predictions);
    var w := Window(serviceDate, deviation, time, earliest, single, lastStopScheduleTime);
    out := predictions;
    for i := 0 to |stopTimes|
      invariant out == predictions + Interpolations(stopTimes[..i], covered, w)
    {
      assert stopTimes[..i + 1][..i] == stopTimes[..i];
      var stopTime := stopTimes[i];
      if stopTime.stop in covered {
        continue;
      }
      var predictionOffset := serviceDate + deviation * 1000;
      var predictedDepartureTime := stopTime.departureTime * 1000 + predictionOffset;
      var predictedArrivalTime := stopTime.arrivalTime * 1000 + predictionOffset;
      var scheduledArrivalTime := serviceDate + Wrap(stopTime.arrivalTime * 1000);
      if (predictedDepartureTime > time && predictedDepartureTime < earliest)
         || (single && predictedDepartureTime > time && scheduledArrivalTime <= lastStopScheduleTime)
      {
        out := out + [TimepointPrediction(stopTime.stop, stopTime.trip, Some(stopTime.gtfsSequence),
                                          Some(scheduledArrivalTime), predictedArrivalTime,
                                          predictedDepartureTime, StopScheduled)];
      }
    }
    assert stopTimes[..|stopTimes|] == stopTimes;
  }
}
