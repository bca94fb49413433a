/** The library object: its configuration, the feed-clock override and its guard, and the
    public entry points, which read the clock once and hand the time to the components. */
module TripLibrary {
  import opened Wrappers
  import opened Feed
  import opened Schedule
  import opened BlockResolver
  import opened Correlator
  import opened RecordSpec
  import opened Records

  /** How far the feed clock may drift from the system clock before it is distrusted. */
  const HOUR_MILLIS := 60 * 60 * 1000

  function AbsLong(x: int): (r: int)
    ensures r >= 0 && (r == x || r == -x)
  {
    if x < 0 then -x else x
  }

  /** The override `currentTime()` leaves in place: a set override that is validated and
      more than an hour away from the system clock is replaced by the system clock. */
  function GuardedOverride(override: int, validate: bool, wall: int): int {
    if override != 0 && validate && AbsLong(override - wall) > HOUR_MILLIS then wall else override
  }

  /** The time `currentTime()` returns: the override when one is set, else the system clock. */
  function FeedTime(override: int, wall: int): int {
    if override != 0 then override else wall
  }

  /** With validation on, the time the library works with is never more than an hour
      away from the system clock. */
  lemma ValidatedFeedTimeIsNearWallClock(override: int, wall: int)
    ensures AbsLong(FeedTime(GuardedOverride(override, true, wall), wall) - wall) <= HOUR_MILLIS
  {
  }

  /** A second guard with the same system clock changes nothing: the clock can be read
      once per call and the time passed on. */
  lemma GuardIsIdempotent(override: int, validate: bool, wall: int)
    ensures GuardedOverride(GuardedOverride(override, validate, wall), validate, wall) == GuardedOverride(override, validate, wall)
    ensures FeedTime(GuardedOverride(override, validate, wall), wall) == FeedTime(override, wall)
            || GuardedOverride(override, validate, wall) == wall
  {
  }

  /** With validation off, a set override is always what the library works with. */
  lemma UnvalidatedOverrideWins(override: int, wall: int)
    requires override != 0
    ensures FeedTime(GuardedOverride(override, false, wall), wall) == override
  {
  }

  /** A feed clock an hour and a second ahead, as a wrong time zone gives, is dropped; one
      within the hour is kept. */
  lemma SkewedFeedClockIsDropped(wall: int)
    requires wall > 0
    ensures GuardedOverride(wall + HOUR_MILLIS + 1000, true, wall) == wall
    ensures GuardedOverride(wall + HOUR_MILLIS, true, wall) == wall + HOUR_MILLIS
  {
  }

  /** `Calendar.roll(Calendar.HOUR, n)` on the local time of `t`: the hour of the half day
      (0 to 11) moves by `n` modulo 12 and the date, the AM/PM half, the minutes and the
      seconds stay (daylight-saving transitions aside). */
  function RollHours(env: Env, t: int, n: int): int {
    var hour := env.localTimeOfDay(t) / 3600 % 12;
    var rolled := (hour + n) % 12;
    t + (rolled - hour) * HOUR_MILLIS
  }

  /** A roll moves the time by whole hours, less than half a day either way, and a roll by
      a multiple of twelve does not move it. */
  lemma RollStaysInHalfDay(env: Env, t: int, n: int)
    ensures (RollHours(env, t, n) - t) % HOUR_MILLIS == 0
    ensures AbsLong(RollHours(env, t, n) - t) < 12 * HOUR_MILLIS
    ensures n % 12 == 0 ==> RollHours(env, t, n) == t
  {
    var hour := env.localTimeOfDay(t) / 3600 % 12;
    var rolled := (hour + n) % 12;
    var k := rolled - hour;
    assert -12 < k < 12;
    assert RollHours(env, t, n) - t == k * HOUR_MILLIS;
    if n % 12 == 0 {
      assert (hour + n) % 12 == hour % 12;
    }
  }

  /** `GtfsRealtimeTripLibrary`: the collaborators and switches of `env`, the feed-clock
      override (zero when unset) and whether the override is checked against the system
      clock. */
  class GtfsRealtimeTripLibrary {
    var env: Env
    var currentTime: int
    var validateCurrentTime: bool

    constructor (env: Env)
      ensures this.env == env && currentTime == 0 && validateCurrentTime
    {
      this.env := env;
      currentTime := 0;
      validateCurrentTime := true;
    }

    method SetValidateCurrentTime(validate: bool)
      modifies this
      ensures validateCurrentTime == validate && currentTime == old(currentTime) && env == old(env)
    {
      validateCurrentTime := validate;
    }

    method SetUseLabelAsVehicleId(useLabelAsVehicleId: bool)
      modifies this
      ensures env == old(env).(useLabelAsVehicleId := useLabelAsVehicleId)
      ensures currentTime == old(currentTime) && validateCurrentTime == old(validateCurrentTime)
    {
      env := env.(useLabelAsVehicleId := useLabelAsVehicleId);
    }

    /** setCurrentTime(currentTime, originOffsetHours): the override, rolled by the given
        number of hours when that is not zero. */
    method SetCurrentTime(time: int, originOffsetHours: int)
      modifies this
      ensures currentTime == if originOffsetHours != 0 then RollHours(env, time, originOffsetHours) else time
      ensures env == old(env) && validateCurrentTime == old(validateCurrentTime)
    {
      if originOffsetHours != 0 {
        currentTime := RollHours(env, time, originOffsetHours);
      } else {
        currentTime := time;
      }
    }

    /** currentTime(): the clock guard, given the system clock `wall`. */
    method CurrentTime(wall: int) returns (t: int)
      modifies this
      ensures currentTime == GuardedOverride(old(currentTime), validateCurrentTime, wall)
      ensures t == FeedTime(currentTime, wall)
      ensures validateCurrentTime ==> AbsLong(t - wall) <= HOUR_MILLIS
      ensures env == old(env) && validateCurrentTime == old(validateCurrentTime)
    {
      if currentTime != 0 {
        // a feed clock off by more than an hour most likely comes from a wrong time zone
        if validateCurrentTime && AbsLong(currentTime - wall) > HOUR_MILLIS {
          currentTime := wall;
        }
        return currentTime;
      }
      return wall;
    }

    /** groupTripUpdatesAndVehiclePositions, at the time the guarded clock gives. */
    method GroupTripUpdatesAndVehiclePositions(tus: seq<TripUpdate>, vps: seq<VehiclePosition>, wall: int)
      returns (r: Result<seq<Bundle>, GroupingError>, ghost vehicles: seq<string>, ghost blocks: seq<BlockDescriptor>)
      modifies this
      ensures currentTime == GuardedOverride(old(currentTime), validateCurrentTime, wall)
      ensures env == old(env) && validateCurrentTime == old(validateCurrentTime)
      ensures r.Failure? <==> exists i :: 0 <= i < |tus| && Unidentifiable(tus[i])
      ensures r.Success? ==> TripUpdateGroupsOf(env, AssignmentOf(env, vps), FeedTime(currentTime, wall), tus).Success?
      ensures r.Success? ==>
        var now := FeedTime(currentTime, wall);
        var groups := TripUpdateGroupsOf(env, AssignmentOf(env, vps), now, tus).value;
        WellFormedGroups(groups) && BundledAs(env, now, groups, vps, r.value, vehicles, blocks)
    {
      var now := CurrentTime(wall);
      r, vehicles, blocks := Correlator.GroupTripUpdatesAndVehiclePositions(env, now, tus, vps);
    }

    /** createVehicleLocationRecordForUpdate, at the time the guarded clock gives. */
    method CreateVehicleLocationRecordForUpdate(result: MonitoredResult?, update: Bundle, wall: int)
      returns (record: VehicleLocationRecord?, ghost rsss: seq<seq<Readings>>)
      modifies this, result
      ensures currentTime == GuardedOverride(old(currentTime), validateCurrentTime, wall)
      ensures env == old(env) && validateCurrentTime == old(validateCurrentTime)
      ensures record == null <==> update.block.None?
      ensures update.block.None? ==> result == null || result.Snapshot() == old(result.Snapshot())
      ensures record != null ==> fresh(record) && BuiltRecord(env, FeedTime(currentTime, wall), update, rsss, record)
      ensures record != null && result != null ==> result.Snapshot() == CollectedForBundle(old(result.Snapshot()), update)
    {
      var now := CurrentTime(wall);
      record, rsss := Records.CreateVehicleLocationRecordForUpdate(env, now, result, update);
    }
  }
}
