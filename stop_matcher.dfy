/** The stop-time matcher: finds the scheduled stop a StopTimeUpdate speaks of, by stop
    sequence first and by stop id otherwise (the closest occurrence in time when the stop
    recurs on a loop route), and the times a StopTimeUpdate reports. Times are `int`
    seconds since the service date; the service date and the clock are epoch milliseconds. */
module StopMatcher {
  import opened Wrappers
  import opened JavaInt
  import opened Feed
  import opened Schedule

  /** The "no time" value of computeArrivalTime, computeDepartureTime and getTimeForStopTimeUpdate. */
  const NO_TIME: int := -1

  /** convertStopId: the configured strategy's conversion, or the id unchanged. */
  function ConvertStopId(env: Env, stopId: string): (r: string)
    ensures env.stopModification.None? ==> r == stopId
    ensures env.stopModification.Some? ==> r == env.stopModification.value(stopId)
  {
    match env.stopModification
    case None => stopId
    case Some(convert) => convert(stopId)
  }

  /** The actual time of one event of a stop: its absolute time when the feed gives one,
      else the scheduled time plus the delay, else NO_TIME. */
  function EventTime(event: Option<StopTimeEvent>, scheduled: int32, serviceDate: int): int32 {
    if event.None? then NO_TIME
    else if event.value.time.Some? then Wrap(event.value.time.value - Quot(serviceDate, 1000))
    else if event.value.delay.Some? then Wrap(scheduled + event.value.delay.value)
    else NO_TIME
  }

  /** computeArrivalTime */
  function ComputeArrivalTime(stopTime: StopTimeEntry, update: StopTimeUpdate, serviceDate: int): (r: int32)
    ensures update.arrival.None? ==> r == NO_TIME
    ensures update.arrival.Some? && update.arrival.value.time.Some?
            ==> r == Wrap(update.arrival.value.time.value - Quot(serviceDate, 1000))
    ensures update.arrival.Some? && update.arrival.value.time.None? && update.arrival.value.delay.Some?
            ==> r == Wrap(stopTime.arrivalTime + update.arrival.value.delay.value)
    ensures update.arrival.Some? && update.arrival.value.time.None? && update.arrival.value.delay.None? ==> r == NO_TIME
  {
    EventTime(update.arrival, stopTime.arrivalTime, serviceDate)
  }

  /** computeDepartureTime */
  function ComputeDepartureTime(stopTime: StopTimeEntry, update: StopTimeUpdate, serviceDate: int): (r: int32)
    ensures update.departure.None? ==> r == NO_TIME
    ensures update.departure.Some? && update.departure.value.time.Some?
            ==> r == Wrap(update.departure.value.time.value - Quot(serviceDate, 1000))
    ensures update.departure.Some? && update.departure.value.time.None? && update.departure.value.delay.Some?
            ==> r == Wrap(stopTime.departureTime + update.departure.value.delay.value)
    ensures update.departure.Some? && update.departure.value.time.None? && update.departure.value.delay.None? ==> r == NO_TIME
  {
    EventTime(update.departure, stopTime.departureTime, serviceDate)
  }

  /** An absolute event time is preferred over a delay: with a time present, the delay
      does not matter. */
  lemma AbsoluteTimePreferred(time: int, delay1: Option<int32>, delay2: Option<int32>, scheduled: int32, serviceDate: int)
    ensures EventTime(Some(StopTimeEvent(delay1, Some(time))), scheduled, serviceDate)
         == EventTime(Some(StopTimeEvent(delay2, Some(time))), scheduled, serviceDate)
  {
  }

  /** A delay-only event lies `delay` seconds after the scheduled time. */
  lemma DelayOnlyEvent(scheduled: int32, delay: int32, serviceDate: int)
    requires INT_MIN <= scheduled + delay <= INT_MAX
    ensures EventTime(Some(StopTimeEvent(Some(delay), None)), scheduled, serviceDate) - scheduled == delay
  {
  }

  /** An absolute time round-trips: the predicted epoch milliseconds the library derives
      from it (service date plus the seconds offset) are the feed's time in milliseconds,
      for a service date on a whole second. */
  lemma AbsoluteTimeRoundTrip(time: int, delay: Option<int32>, scheduled: int32, serviceDate: int)
    requires serviceDate % 1000 == 0
    requires INT_MIN <= time - serviceDate / 1000 <= INT_MAX
    ensures serviceDate + EventTime(Some(StopTimeEvent(delay, Some(time))), scheduled, serviceDate) * 1000 == time * 1000
  {
    var q := Quot(serviceDate, 1000);
    assert q == serviceDate / 1000 by {
      if serviceDate < 0 {
        assert (-serviceDate) % 1000 == 0;
        assert -serviceDate == ((-serviceDate) / 1000) * 1000;
      }
    }
  }

  /** The time one event of a StopTimeUpdate reports, as getTimeForStopTimeUpdate reads it:
      the absolute time, else the time now minus the delay, else nothing. */
  function ReportedEventTime(event: Option<StopTimeEvent>, serviceDate: int, now: int): Option<int32> {
    if event.None? then None
    else if event.value.time.Some? then Some(Wrap(event.value.time.value - Quot(serviceDate, 1000)))
    else if event.value.delay.Some? then Some(Wrap(Quot(now - serviceDate, 1000) - event.value.delay.value))
    else None
  }

  /** getTimeForStopTimeUpdate: the arrival is consulted before the departure. */
  function TimeForStopTimeUpdate(update: StopTimeUpdate, serviceDate: int, now: int): (r: int32)
    ensures ReportedEventTime(update.arrival, serviceDate, now).Some? ==> r == ReportedEventTime(update.arrival, serviceDate, now).value
    ensures ReportedEventTime(update.arrival, serviceDate, now).None? && ReportedEventTime(update.departure, serviceDate, now).Some?
            ==> r == ReportedEventTime(update.departure, serviceDate, now).value
    ensures ReportedEventTime(update.arrival, serviceDate, now).None? && ReportedEventTime(update.departure, serviceDate, now).None?
            ==> r == NO_TIME
  {
    match ReportedEventTime(update.arrival, serviceDate, now)
    case Some(t) => t
    case None =>
      match ReportedEventTime(update.departure, serviceDate, now)
      case Some(t) => t
      case None => NO_TIME
  }

  /** Arrival before departure: when the arrival says anything, the departure is not read. */
  lemma ArrivalConsultedFirst(update: StopTimeUpdate, departure: Option<StopTimeEvent>, serviceDate: int, now: int)
    requires update.arrival.Some? && (update.arrival.value.time.Some? || update.arrival.value.delay.Some?)
    ensures TimeForStopTimeUpdate(update, serviceDate, now) == TimeForStopTimeUpdate(update.(departure := departure), serviceDate, now)
  {
  }

  /** The entry `MappingLibrary.mapToValue(stopTimes, "stopTime.gtfsSequence")` maps a stop
      sequence to: the last entry with that sequence. */
  function EntryAtSequence(stopTimes: seq<StopTimeEntry>, sequence: int): (r: Option<StopTimeEntry>)
    ensures r.None? <==> forall i :: 0 <= i < |stopTimes| ==> stopTimes[i].gtfsSequence != sequence
    ensures r.Some? ==> exists k :: 0 <= k < |stopTimes| && stopTimes[k] == r.value && r.value.gtfsSequence == sequence
                                    && forall i :: k < i < |stopTimes| ==> stopTimes[i].gtfsSequence != sequence
  {
    if |stopTimes| == 0 then None
    else if stopTimes[|stopTimes| - 1].gtfsSequence == sequence then Some(stopTimes[|stopTimes| - 1])
    else EntryAtSequence(stopTimes[..|stopTimes| - 1], sequence)
  }

  /** The match by stop sequence succeeds: the sequence is present, and the update either
      names no stop or names (after conversion) the stop at that sequence. */
  predicate SequenceMatches(env: Env, update: StopTimeUpdate, stopTimes: seq<StopTimeEntry>) {
    && update.stopSequence.Some?
    && EntryAtSequence(stopTimes, update.stopSequence.value).Some?
    && (update.stopId.None?
        || EntryAtSequence(stopTimes, update.stopSequence.value).value.stop.id == ConvertStopId(env, update.stopId.value))
  }

  /** How far a scheduled stop lies from a reported time: the nearer of its departure and its arrival. */
  function MatchDistance(entry: StopTimeEntry, time: int32): int32 {
    var departureDelta := Abs32(Wrap(entry.departureTime - time));
    var arrivalDelta := Abs32(Wrap(entry.arrivalTime - time));
    if departureDelta <= arrivalDelta then departureDelta else arrivalDelta
  }

  /** What getBlockStopTimeForStopTimeUpdate may return. Which of several equally near
      occurrences of a stop wins is not specified. */
  ghost predicate IsStopMatch(env: Env, update: StopTimeUpdate, stopTimes: seq<StopTimeEntry>,
                              serviceDate: int, now: int, r: Option<StopTimeEntry>)
  {
    && (r.Some? ==> r.value in stopTimes)
    && (SequenceMatches(env, update, stopTimes) ==> r == EntryAtSequence(stopTimes, update.stopSequence.value))
    && (!SequenceMatches(env, update, stopTimes) ==>
          if update.stopId.None? then r.None?
          else
            var stopId := ConvertStopId(env, update.stopId.value);
            var time := TimeForStopTimeUpdate(update, serviceDate, now);
            && (r.Some? <==> exists i :: 0 <= i < |stopTimes| && stopTimes[i].stop.id == stopId)
            && (r.Some? ==>
                  && r.value.stop.id == stopId
                  && forall i :: 0 <= i < |stopTimes| && stopTimes[i].stop.id == stopId
                       ==> MatchDistance(r.value, time) <= MatchDistance(stopTimes[i], time)))
  }

  /** getBlockStopTimeForStopTimeUpdate */
  method GetBlockStopTimeForStopTimeUpdate(env: Env, update: StopTimeUpdate, stopTimes: seq<StopTimeEntry>,
                                           serviceDate: int, now: int) returns (r: Option<StopTimeEntry>)
    ensures IsStopMatch(env, update, stopTimes, serviceDate, now, r)
  {
    if update.stopSequence.Some? {
      var bySequence := EntryAtSequence(stopTimes, update.stopSequence.value);
      if bySequence.Some? {
        if update.stopId.None? {
          return bySequence;
        }
        if bySequence.value.stop.id == ConvertStopId(env, update.stopId.value) {
          return bySequence;
        }
        // the sequence and the id disagree: fall through to the match by id
      }
    }
    if update.stopId.Some? {
      var time := TimeForStopTimeUpdate(update, serviceDate, now);
      var stopId := ConvertStopId(env, update.stopId.value);
      // a stop may recur on a loop route: keep the occurrence nearest in time
      var best: Option<StopTimeEntry> := None;
      var bestDistance: int32 := 0;
      for i := 0 to |stopTimes|
        invariant best.Some? ==> best.value in stopTimes && best.value.stop.id == stopId
        invariant best.Some? ==> bestDistance == MatchDistance(best.value, time)
        invariant best.Some? <==> exists j :: 0 <= j < i && stopTimes[j].stop.id == stopId
        invariant best.Some? ==> forall j :: 0 <= j < i && stopTimes[j].stop.id == stopId
                                   ==> bestDistance <= MatchDistance(stopTimes[j], time)
      {
        if stopTimes[i].stop.id == stopId {
          var distance := MatchDistance(stopTimes[i], time);
          if best.None? || distance < bestDistance {
            best, bestDistance := Some(stopTimes[i]), distance;
          }
        }
      }
      if best.Some? {
        return best;
      }
    }
    return None;
  }

  /** A loop route: stop "S1" is scheduled at 08:00 and again at 09:00, and the feed
      reports an arrival at 08:58; the 09:00 occurrence is the only admissible match. */
  lemma LoopRouteExample(env: Env, now: int, r: Option<StopTimeEntry>)
    requires env.stopModification.None?
    requires
      var first := StopTimeEntry(Id("a", "S1"), Id("a", "T1"), 28800, 28800, 1);
      var second := StopTimeEntry(Id("a", "S1"), Id("a", "T1"), 32400, 32400, 5);
      var update := StopTimeUpdate(None, Some("S1"), Some(StopTimeEvent(None, Some(31080))), None, StopScheduled);
      IsStopMatch(env, update, [first, second], 0, now, r)
    ensures r == Some(StopTimeEntry(Id("a", "S1"), Id("a", "T1"), 32400, 32400, 5))
  {
    var first := StopTimeEntry(Id("a", "S1"), Id("a", "T1"), 28800, 28800, 1);
    var second := StopTimeEntry(Id("a", "S1"), Id("a", "T1"), 32400, 32400, 5);
    var update := StopTimeUpdate(None, Some("S1"), Some(StopTimeEvent(None, Some(31080))), None, StopScheduled);
    assert TimeForStopTimeUpdate(update, 0, now) == 31080;
    assert MatchDistance(first, 31080) == 2280;
    assert MatchDistance(second, 31080) == 1320;
    assert [first, second][1].stop.id == "S1";
  }
}
