/** The block descriptor resolver: turns a feed's trip reference and an observation
    time into a concrete block instance, its service date and, when the feed reports a
    trip start time, the block start time shifted by the same amount. */
module BlockResolver {
  import opened Wrappers
  import opened JavaInt
  import opened Feed
  import opened Schedule

  /** The join key of a bundle. `scheduleRelationship` is set only when the feed set it;
      `vehicleId` is stamped by the correlator once the bundle is built. */
  datatype BlockDescriptor = BlockDescriptor(
    instance: BlockInstance,
    startDate: ServiceDate,
    startTime: Option<int32>,
    scheduleRelationship: Option<TripScheduleRelationship>,
    vehicleId: Option<string>)
  {
    /** `getScheduleRelationship()`, SCHEDULED unless the feed set another value. */
    function Relationship(): TripScheduleRelationship {
      scheduleRelationship.GetOr(Scheduled)
    }
  }

  /** Half the width of the window of active block instances searched around the observation time. */
  const HALF_HOUR_MILLIS: int := 30 * 60 * 1000

  /** The index `MappingLibrary.mapToValue(trips, "trip.id")` maps `tripId` to: the last
      trip with that id, or -1 when there is none. */
  function LastIndexOfTrip(trips: seq<TripEntry>, tripId: Id): (k: int)
    ensures -1 <= k < |trips|
    ensures k == -1 <==> forall i :: 0 <= i < |trips| ==> trips[i].id != tripId
    ensures 0 <= k ==> trips[k].id == tripId && forall i :: k < i < |trips| ==> trips[i].id != tripId
  {
    if |trips| == 0 then -1
    else if trips[|trips| - 1].id == tripId then |trips| - 1
    else LastIndexOfTrip(trips[..|trips| - 1], tripId)
  }

  predicate TripInBlock(block: ScheduledBlock, tripId: Id) {
    exists i :: 0 <= i < |block.trips| && block.trips[i].id == tripId
  }

  /** The scheduled departure from the block's first stop. */
  function ScheduledBlockStart(block: ScheduledBlock): int32 {
    block.trips[0].stopTimes[0].departureTime
  }

  /** The scheduled departure from the first stop of the block's trip `tripId`. */
  function ScheduledTripStart(block: ScheduledBlock, tripId: Id): int32
    requires TripInBlock(block, tripId)
  {
    block.trips[LastIndexOfTrip(block.trips, tripId)].stopTimes[0].departureTime
  }

  /** getBlockStartTimeForTripStartTime: the block start moved by as much as the reported
      trip start differs from the scheduled one (in `int` arithmetic); the unadjusted block
      start when that comes out negative; -1 when the trip is not one of the block's. */
  function BlockStartTimeForTripStartTime(instance: BlockInstance, tripId: Id, tripStartTime: int32): (r: int32)
    ensures !TripInBlock(instance.block, tripId) ==> r == -1
    ensures TripInBlock(instance.block, tripId) ==>
      var raw := ScheduledBlockStart(instance.block);
      var adjusted := Wrap(raw + Wrap(tripStartTime - ScheduledTripStart(instance.block, tripId)));
      (adjusted >= 0 ==> r == adjusted) && (adjusted < 0 ==> r == raw)
  {
    var trips := instance.block.trips;
    var rawBlockStartTime := trips[0].stopTimes[0].departureTime;
    var k := LastIndexOfTrip(trips, tripId);
    if k < 0 then -1
    else
      var rawTripStartTime := trips[k].stopTimes[0].departureTime;
      var adjustedBlockStartTime := Wrap(rawBlockStartTime + Wrap(tripStartTime - rawTripStartTime));
      if adjustedBlockStartTime < 0 then rawBlockStartTime else adjustedBlockStartTime
  }

  /** With a non-negative scheduled block start, the adjusted start is -1 exactly when the
      trip is not in the block, and never negative otherwise. */
  lemma BlockStartTimeSign(instance: BlockInstance, tripId: Id, tripStartTime: int32)
    requires ScheduledBlockStart(instance.block) >= 0
    ensures var r := BlockStartTimeForTripStartTime(instance, tripId, tripStartTime);
      (r == -1 <==> !TripInBlock(instance.block, tripId)) && (r != -1 ==> r >= 0)
  {
  }

  /** Without overflow, the adjusted block start lies as far from the scheduled block start
      as the reported trip start lies from the scheduled trip start. */
  lemma BlockStartTimeShift(instance: BlockInstance, tripId: Id, tripStartTime: int32)
    requires TripInBlock(instance.block, tripId) && ScheduledBlockStart(instance.block) >= 0
    requires var shifted := ScheduledBlockStart(instance.block) + (tripStartTime - ScheduledTripStart(instance.block, tripId));
      0 <= shifted <= INT_MAX
    ensures BlockStartTimeForTripStartTime(instance, tripId, tripStartTime) - ScheduledBlockStart(instance.block)
            == tripStartTime - ScheduledTripStart(instance.block, tripId)
  {
    var delta := tripStartTime - ScheduledTripStart(instance.block, tripId);
    assert INT_MIN <= delta <= INT_MAX;
  }

  /** A scheduled block start of 08:00, a scheduled trip start of 08:10 and a reported trip
      start of 08:15 give an adjusted block start of 08:05. */
  lemma BlockStartTimeExample()
    ensures
      var trip0 := TripEntry(Id("a", "t0"), Id("a", "b"), None, None, [StopTimeEntry(Id("a", "s0"), Id("a", "t0"), 28800, 28800, 1)]);
      var trip1 := TripEntry(Id("a", "t1"), Id("a", "b"), None, None, [StopTimeEntry(Id("a", "s1"), Id("a", "t1"), 29400, 29400, 1)]);
      var instance := BlockInstance(BlockConfiguration(Id("a", "b"), [trip0, trip1]), 0);
      BlockStartTimeForTripStartTime(instance, Id("a", "t1"), 29700) == 29100
  {
    var trip0 := TripEntry(Id("a", "t0"), Id("a", "b"), None, None, [StopTimeEntry(Id("a", "s0"), Id("a", "t0"), 28800, 28800, 1)]);
    var trip1 := TripEntry(Id("a", "t1"), Id("a", "b"), None, None, [StopTimeEntry(Id("a", "s1"), Id("a", "t1"), 29400, 29400, 1)]);
    var block := BlockConfiguration(Id("a", "b"), [trip0, trip1]);
    assert TripInBlock(block, Id("a", "t1")) by { assert block.trips[1].id == Id("a", "t1"); }
    BlockStartTimeShift(BlockInstance(block, 0), Id("a", "t1"), 29700);
  }

  /** The feed's trip start time, when it is set and is not the sentinel "0". */
  predicate HasStartTime(trip: TripDescriptor) {
    trip.startTime.Some? && trip.startTime.value != "0"
  }

  /** The feed's service date, when it is set, is not the sentinel "0", and parses. */
  function ReportedServiceDate(env: Env, trip: TripDescriptor): Option<ServiceDate> {
    if trip.startDate.Some? && trip.startDate.value != "0" then env.parseServiceDate(trip.startDate.value) else None
  }

  /** The active block instances in the half hour either side of `time`. */
  function ActiveAround(env: Env, blockId: Id, time: int): seq<BlockInstance> {
    env.getActiveBlocks(blockId, time - HALF_HOUR_MILLIS, time + HALF_HOUR_MILLIS)
  }

  /** The block instance of the reported service date; without one, the first active
      instance around `time`, else the first of the closest instances. */
  function ResolveInstance(env: Env, blockId: Id, reported: Option<ServiceDate>, time: int): Option<BlockInstance> {
    if reported.Some? then env.getBlockInstance(blockId, env.serviceDateMillis(reported.value))
    else
      var active := ActiveAround(env, blockId, time);
      if |active| > 0 then Some(active[0])
      else
        var closest := env.getClosestActiveBlocks(blockId, time);
        if |closest| > 0 then Some(closest[0]) else None
  }

  /** getTripDescriptorAsBlockDescriptor */
  function TripDescriptorAsBlockDescriptor(env: Env, trip: TripDescriptor, time: int): (r: Option<BlockDescriptor>)
    // the trip id is absent or unknown
    ensures trip.tripId.None? ==> r.None?
    ensures trip.tripId.Some? && env.getTrip(trip.tripId.value).None? ==> r.None?
    ensures trip.tripId.Some? && env.getTrip(trip.tripId.value).Some? ==>
      var entry := env.getTrip(trip.tripId.value).value;
      var reported := ReportedServiceDate(env, trip);
      var active := ActiveAround(env, entry.block, time);
      var closest := env.getClosestActiveBlocks(entry.block, time);
      // a reported service date on which the block does not run
      && (reported.Some? && env.getBlockInstance(entry.block, env.serviceDateMillis(reported.value)).None? ==> r.None?)
      // no service date, no active instance in the window and no closest instance
      && (reported.None? && active == [] && closest == [] ==> r.None?)
      // an unparsable start time
      && (HasStartTime(trip) && env.parseTimeOfDay(trip.startTime.value).None? ==> r.None?)
      // what a resolved descriptor holds
      && (r.Some? ==>
            && (reported.Some? ==>
                  env.getBlockInstance(entry.block, env.serviceDateMillis(reported.value)) == Some(r.value.instance)
                  && r.value.startDate == reported.value)
            && (reported.None? ==>
                  r.value.instance == (if active != [] then active[0] else closest[0])
                  && r.value.startDate == env.serviceDateOf(r.value.instance.serviceDate))
            && r.value.scheduleRelationship == trip.scheduleRelationship
            && r.value.vehicleId.None?
            && (r.value.startTime.Some? <==> HasStartTime(trip))
            // a start time is only accepted for a trip of the resolved block, and never negative
            && (HasStartTime(trip) ==>
                  && TripInBlock(r.value.instance.block, entry.id)
                  && 0 <= r.value.startTime.value
                  && r.value.startTime.value
                     == BlockStartTimeForTripStartTime(r.value.instance, entry.id, env.parseTimeOfDay(trip.startTime.value).value)))
      // and these are the only ways to fail
      && (ResolveInstance(env, entry.block, reported, time).Some? ==>
            var instance := ResolveInstance(env, entry.block, reported, time).value;
            (!HasStartTime(trip)
             || (env.parseTimeOfDay(trip.startTime.value).Some?
                 && BlockStartTimeForTripStartTime(instance, entry.id, env.parseTimeOfDay(trip.startTime.value).value) >= 0))
            ==> r.Some?)
  {
    if trip.tripId.None? then None
    else match env.getTrip(trip.tripId.value)
      case None => None
      case Some(entry) =>
        var reported := ReportedServiceDate(env, trip);
        match ResolveInstance(env, entry.block, reported, time)
        case None => None
        case Some(instance) =>
          var serviceDate := if reported.Some? then reported.value else env.serviceDateOf(instance.serviceDate);
          if HasStartTime(trip) then
            match env.parseTimeOfDay(trip.startTime.value)
            case None => None
            case Some(tripStartTime) =>
              var blockStartTime := BlockStartTimeForTripStartTime(instance, entry.id, tripStartTime);
              if blockStartTime < 0 then None
              else Some(BlockDescriptor(instance, serviceDate, Some(blockStartTime), trip.scheduleRelationship, None))
          else
            Some(BlockDescriptor(instance, serviceDate, None, trip.scheduleRelationship, None))
  }

  /** A trip of the resolved block with a non-negative scheduled block start never fails
      resolution on account of its start time once that start time parses. */
  lemma ResolutionFailsOnlyOffBlock(env: Env, trip: TripDescriptor, time: int)
    requires trip.tripId.Some? && env.getTrip(trip.tripId.value).Some?
    requires var entry := env.getTrip(trip.tripId.value).value;
      var instance := ResolveInstance(env, entry.block, ReportedServiceDate(env, trip), time);
      && instance.Some?
      && ScheduledBlockStart(instance.value.block) >= 0
      && (HasStartTime(trip) ==> env.parseTimeOfDay(trip.startTime.value).Some? && TripInBlock(instance.value.block, entry.id))
    ensures TripDescriptorAsBlockDescriptor(env, trip, time).Some?
  {
    var entry := env.getTrip(trip.tripId.value).value;
    var instance := ResolveInstance(env, entry.block, ReportedServiceDate(env, trip), time).value;
    if HasStartTime(trip) {
      BlockStartTimeSign(instance, entry.id, env.parseTimeOfDay(trip.startTime.value).value);
    }
  }
}
