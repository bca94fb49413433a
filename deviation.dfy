/** The deviation estimator's accumulator, `BestScheduleDeviation`, and the rule that
    folds one stop-level signal into it (updateBestScheduleDeviation). A trip-level delay
    locks the deviation; otherwise a candidate replaces the best one when it is nearer to
    now, or when it is still to come while the best one is already past. */
module Deviation {
  import opened Wrappers
  import opened JavaInt
  import opened Schedule

  /** The accumulator's fields, as a value. */
  datatype DeviationState = DeviationState(
    delta: int32,
    scheduleDeviation: int32,
    isInPast: bool,
    tripUpdateHasDelay: bool,
    timestamp: int,
    tripId: Option<Id>,
    isCanceled: bool)

  /** A freshly constructed accumulator. */
  const INITIAL: DeviationState := DeviationState(INT_MAX, 0, true, false, 0, None, false)

  /** One stop-level signal: the time now and the expected and actual times of a stop event,
      all in seconds since the service date. */
  datatype Candidate = Candidate(currentTime: int32, expected: int32, actual: int32, tripId: Id)

  /** How far the candidate's event lies from now (`int` arithmetic). */
  function CandidateDelta(c: Candidate): int32 {
    Abs32(Wrap(c.currentTime - c.actual))
  }

  /** How late the candidate's stop event is: actual minus expected time (`int` arithmetic). */
  function Lateness(c: Candidate): int32 {
    Wrap(c.actual - c.expected)
  }

  predicate CandidateInPast(c: Candidate) {
    c.currentTime > c.actual
  }

  /** The candidate takes the place of the best signal so far. */
  predicate Replaces(best: DeviationState, c: Candidate) {
    && !best.tripUpdateHasDelay
    && (CandidateDelta(c) < best.delta || (!CandidateInPast(c) && best.isInPast))
  }

  /** updateBestScheduleDeviation, on the accumulator's value. */
  function UpdatedDeviation(best: DeviationState, c: Candidate): (r: DeviationState)
    // once a trip-level delay is set, stop-level candidates change nothing
    ensures best.tripUpdateHasDelay ==> r == best
    // a candidate that does not qualify changes nothing
    ensures !Replaces(best, c) ==> r == best
    // a qualifying candidate brings its distance, its side of now, its deviation and its trip
    ensures Replaces(best, c) ==>
      r == best.(delta := CandidateDelta(c), isInPast := CandidateInPast(c),
                 scheduleDeviation := Lateness(c), tripId := Some(c.tripId))
  {
    if best.tripUpdateHasDelay then best
    else
      var delta := Abs32(Wrap(c.currentTime - c.actual));
      var isInPast := c.currentTime > c.actual;
      var scheduleDeviation := Wrap(c.actual - c.expected);
      if delta < best.delta || (!isInPast && best.isInPast) then
        best.(delta := delta, isInPast := isInPast, scheduleDeviation := scheduleDeviation, tripId := Some(c.tripId))
      else best
  }

  /** The accumulator after a trip update that carries a trip-level delay (the delay is
      authoritative, so the tie-break state is reset). */
  function WithTripDelay(best: DeviationState, delay: int32, tripId: Id): (r: DeviationState)
    ensures r.tripUpdateHasDelay && r.scheduleDeviation == delay && r.delta == 0 && !r.isInPast
    ensures r.timestamp == best.timestamp && r.isCanceled == best.isCanceled
  {
    best.(delta := 0, isInPast := false, scheduleDeviation := delay, tripId := Some(tripId), tripUpdateHasDelay := true)
  }

  /** The accumulator after a sequence of stop-level candidates, in order. */
  function FoldCandidates(best: DeviationState, cs: seq<Candidate>): DeviationState
    decreases |cs|
  {
    if |cs| == 0 then best else FoldCandidates(UpdatedDeviation(best, cs[0]), cs[1..])
  }

  /** Folding two runs of candidates one after the other is folding them together. */
  lemma {:induction false} FoldCandidatesConcat(best: DeviationState, cs: seq<Candidate>, ds: seq<Candidate>)
    ensures FoldCandidates(best, cs + ds) == FoldCandidates(FoldCandidates(best, cs), ds)
    decreases |cs|
  {
    if |cs| > 0 {
      assert (cs + ds)[1..] == cs[1..] + ds;
      FoldCandidatesConcat(UpdatedDeviation(best, cs[0]), cs[1..], ds);
    } else {
      assert cs + ds == ds;
    }
  }

  /** The delay lock: once a trip-level delay is set, no sequence of stop-level candidates
      changes the accumulator. */
  lemma {:induction false} DelayLockHolds(best: DeviationState, cs: seq<Candidate>)
    requires best.tripUpdateHasDelay
    ensures FoldCandidates(best, cs) == best
    decreases |cs|
  {
    if |cs| > 0 {
      DelayLockHolds(UpdatedDeviation(best, cs[0]), cs[1..]);
    }
  }

  /** Stop-level candidates never touch the delay lock, the timestamp or the cancellation. */
  lemma {:induction false} CandidatesKeepTripFields(best: DeviationState, cs: seq<Candidate>)
    ensures var r := FoldCandidates(best, cs);
      r.tripUpdateHasDelay == best.tripUpdateHasDelay && r.timestamp == best.timestamp && r.isCanceled == best.isCanceled
    decreases |cs|
  {
    if |cs| > 0 {
      CandidatesKeepTripFields(UpdatedDeviation(best, cs[0]), cs[1..]);
    }
  }

  /** Without a delay lock, the deviation after any number of candidates is the one the
      accumulator started with or the actual-minus-expected time of one of the candidates. */
  lemma {:induction false} DeviationComesFromACandidate(best: DeviationState, cs: seq<Candidate>)
    ensures var r := FoldCandidates(best, cs);
      r.scheduleDeviation == best.scheduleDeviation
      || exists i :: 0 <= i < |cs| && r.scheduleDeviation == Lateness(cs[i])
    decreases |cs|
  {
    if |cs| > 0 {
      var next := UpdatedDeviation(best, cs[0]);
      DeviationComesFromACandidate(next, cs[1..]);
      var r := FoldCandidates(next, cs[1..]);
      if r.scheduleDeviation != next.scheduleDeviation {
        var i :| 0 <= i < |cs[1..]| && r.scheduleDeviation == Lateness(cs[1..][i]);
        assert cs[i + 1] == cs[1..][i];
        assert 0 <= i + 1 < |cs| && r.scheduleDeviation == Lateness(cs[i + 1]);
      } else if next.scheduleDeviation != best.scheduleDeviation {
        assert r.scheduleDeviation == Lateness(cs[0]);
      }
    }
  }

  /** A replaced deviation is the stop's lateness: actual minus expected time. */
  lemma ReplacedDeviationIsLateness(best: DeviationState, c: Candidate)
    requires Replaces(best, c)
    requires INT_MIN <= c.actual - c.expected <= INT_MAX
    ensures UpdatedDeviation(best, c).scheduleDeviation + c.expected == c.actual
  {
  }

  /** The tie-break prefers what is still to come: a past signal 10 s away is replaced by a
      future signal 20 s away, although it is nearer. */
  lemma FutureSignalBeatsNearerPastSignal(tripId: Id)
    ensures
      var past := UpdatedDeviation(INITIAL, Candidate(1000, 980, 990, tripId));
      var after := UpdatedDeviation(past, Candidate(1000, 1000, 1020, tripId));
      past.delta == 10 && past.isInPast && past.scheduleDeviation == 10
      && after.delta == 20 && !after.isInPast && after.scheduleDeviation == 20
  {
  }

  /** The mutable accumulator of applyTripUpdatesToRecord. */
  class BestScheduleDeviation {
    var delta: int32
    var scheduleDeviation: int32
    var isInPast: bool
    var tripUpdateHasDelay: bool
    var timestamp: int
    var tripId: Option<Id>
    var isCanceled: bool

    function State(): DeviationState
      reads this
    {
      DeviationState(delta, scheduleDeviation, isInPast, tripUpdateHasDelay, timestamp, tripId, isCanceled)
    }

    constructor ()
      ensures State() == INITIAL
    {
      delta := INT_MAX;
      scheduleDeviation := 0;
      isInPast := true;
      tripUpdateHasDelay := false;
      timestamp := 0;
      tripId := None;
      isCanceled := false;
    }
  }

  /** updateBestScheduleDeviation: updates the accumulator's fields in place. */
  method UpdateBestScheduleDeviation(currentTime: int32, expectedStopTime: int32, actualStopTime: int32,
                                     best: BestScheduleDeviation, tripId: Id)
    modifies best
    ensures best.State() == UpdatedDeviation(old(best.State()), Candidate(currentTime, expectedStopTime, actualStopTime, tripId))
  {
    // a deviation that comes from a trip-level delay is not recalculated
    if best.tripUpdateHasDelay {
      return;
    }
    var delta := Abs32(Wrap(currentTime - actualStopTime));
    var isInPast := currentTime > actualStopTime;
    var scheduleDeviation := Wrap(actualStopTime - expectedStopTime);
    if delta < best.delta || (!isInPast && best.isInPast) {
      best.delta := delta;
      best.isInPast := isInPast;
      best.scheduleDeviation := scheduleDeviation;
      best.tripId := Some(tripId);
    }
  }
}
