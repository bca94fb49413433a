/** The feed correlator (groupTripUpdatesAndVehiclePositions and getAssignmentInfo): groups
    trip updates and vehicle positions into bundles, one per vehicle id and one per resolved
    block of the updates without a vehicle id, and stamps each bundle's block descriptor
    with the vehicle id found in it. Multimaps are maps to insertion-ordered sequences. */
module Correlator {
  import opened Wrappers
  import opened JavaInt
  import opened Feed
  import opened Schedule
  import opened BlockResolver
  import opened TimeFormat

  /** `CombinedTripUpdatesAndVehiclePosition` */
  datatype Bundle = Bundle(
    block: Option<BlockDescriptor>,
    tripUpdates: seq<TripUpdate>,
    vehiclePosition: Option<VehiclePosition>)

  /** The one hard failure: a trip update indexed by vehicle id that names no trip. */
  datatype GroupingError = UnidentifiableTrip(update: TripUpdate)

  /** getVehicleId: the label when labels are configured as ids and one is set, else the id. */
  function VehicleId(env: Env, v: VehicleDescriptor): (r: string)
    ensures env.useLabelAsVehicleId && v.vehicleLabel.Some? ==> r == v.vehicleLabel.value
    ensures !(env.useLabelAsVehicleId && v.vehicleLabel.Some?) ==> r == v.id.GetOr("")
  {
    if env.useLabelAsVehicleId && v.vehicleLabel.Some? then v.vehicleLabel.value else v.id.GetOr("")
  }

  /** The epoch milliseconds a resolution is made at: the entity's timestamp, else now. */
  function ObservationTime(timestamp: Option<int>, now: int): int {
    if timestamp.Some? then timestamp.value * 1000 else now
  }

  /** `ListMultimap.put`: append `v` to the values of `k`. */
  function Put<K, V>(m: map<K, seq<V>>, k: K, v: V): (r: map<K, seq<V>>)
    ensures r.Keys == m.Keys + {k}
    ensures r[k] == (if k in m then m[k] else []) + [v]
    ensures forall k' :: k' in m && k' != k ==> r[k'] == m[k']
  {
    m[k := (if k in m then m[k] else []) + [v]]
  }

  // ---------------------------------------------------------------------------
  // Assignment hints (getAssignmentInfo)

  datatype AssignmentInfo = AssignmentInfo(
    preferredTripByVehicleId: map<string, string>,
    preferredVehicleByBlockId: map<string, string>)

  /** A vehicle position that gives a hint: it has a vehicle id and a trip. */
  predicate GivesHint(vp: VehiclePosition) {
    vp.HasVehicleId() && vp.trip.Some?
  }

  /** What one vehicle position adds to the hints: the first trip reported for a vehicle
      is kept, and the block of that trip prefers the vehicle. */
  function AssignmentStep(env: Env, info: AssignmentInfo, vp: VehiclePosition): AssignmentInfo {
    if !GivesHint(vp) then info
    else
      var vehicleId := vp.vehicle.value.id.value;
      var tripId := vp.trip.value.TripIdOrEmpty();
      if vehicleId in info.preferredTripByVehicleId then info
      else
        var withTrip := info.(preferredTripByVehicleId := info.preferredTripByVehicleId[vehicleId := tripId]);
        match env.getTrip(tripId)
        case None => withTrip
        case Some(entry) => withTrip.(preferredVehicleByBlockId := withTrip.preferredVehicleByBlockId[IdString(entry.block) := vehicleId])
  }

  /** The hints of a sequence of vehicle positions, read in order. */
  function AssignmentOf(env: Env, vps: seq<VehiclePosition>): AssignmentInfo {
    if |vps| == 0 then AssignmentInfo(map[], map[])
    else AssignmentStep(env, AssignmentOf(env, vps[..|vps| - 1]), vps[|vps| - 1])
  }

  /** getAssignmentInfo */
  method GetAssignmentInfo(env: Env, vps: seq<VehiclePosition>) returns (info: AssignmentInfo)
    ensures info == AssignmentOf(env, vps)
  {
    var preferredTripByVehicleId: map<string, string> := map[];
    var preferredVehicleByBlockId: map<string, string> := map[];
    for i := 0 to |vps|
      invariant AssignmentOf(env, vps[..i]) == AssignmentInfo(preferredTripByVehicleId, preferredVehicleByBlockId)
    {
      assert vps[..i + 1][..i] == vps[..i];
      var vp := vps[i];
      if vp.vehicle.Some? && vp.vehicle.value.id.Some? && vp.trip.Some? {
        var vehicleId := vp.vehicle.value.id.value;
        var tripId := vp.trip.value.TripIdOrEmpty();
        if vehicleId in preferredTripByVehicleId {
          // the vehicle was already reported on another trip: keep the first
          continue;
        }
        preferredTripByVehicleId := preferredTripByVehicleId[vehicleId := tripId];
        var tripEntry := env.getTrip(tripId);
        if tripEntry.Some? {
          preferredVehicleByBlockId := preferredVehicleByBlockId[IdString(tripEntry.value.block) := vehicleId];
        }
      }
    }
    assert vps[..|vps|] == vps;
    info := AssignmentInfo(preferredTripByVehicleId, preferredVehicleByBlockId);
  }

  /** A vehicle seen twice with different trips keeps the first: the preferred trip of a
      vehicle is the trip of the first hint-giving position with that vehicle id. */
  lemma {:induction false} FirstReportedTripKept(env: Env, vps: seq<VehiclePosition>, i: int)
    requires 0 <= i < |vps| && GivesHint(vps[i])
    requires forall j :: 0 <= j < i && GivesHint(vps[j]) ==> vps[j].vehicle.value.id != vps[i].vehicle.value.id
    ensures var info := AssignmentOf(env, vps);
      && vps[i].vehicle.value.id.value in info.preferredTripByVehicleId
      && info.preferredTripByVehicleId[vps[i].vehicle.value.id.value] == vps[i].trip.value.TripIdOrEmpty()
  {
    var n := |vps|;
    var v := vps[i].vehicle.value.id.value;
    if i == n - 1 {
      NotYetPreferred(env, vps[..n - 1], v);
    } else {
      FirstReportedTripKept(env, vps[..n - 1], i);
    }
  }

  /** A vehicle id no hint-giving position carries has no preferred trip. */
  lemma {:induction false} NotYetPreferred(env: Env, vps: seq<VehiclePosition>, v: string)
    requires forall j :: 0 <= j < |vps| && GivesHint(vps[j]) ==> vps[j].vehicle.value.id != Some(v)
    ensures v !in AssignmentOf(env, vps).preferredTripByVehicleId
  {
    if |vps| > 0 {
      NotYetPreferred(env, vps[..|vps| - 1], v);
    }
  }

  /** A block's preferred vehicle is one whose preferred trip runs on that block. */
  lemma {:induction false} PreferredVehicleRunsOnBlock(env: Env, vps: seq<VehiclePosition>, block: string)
    requires block in AssignmentOf(env, vps).preferredVehicleByBlockId
    ensures var info := AssignmentOf(env, vps);
      var v := info.preferredVehicleByBlockId[block];
      && v in info.preferredTripByVehicleId
      && env.getTrip(info.preferredTripByVehicleId[v]).Some?
      && IdString(env.getTrip(info.preferredTripByVehicleId[v]).value.block) == block
  {
    var n := |vps|;
    var before := AssignmentOf(env, vps[..n - 1]);
    if block in before.preferredVehicleByBlockId && AssignmentOf(env, vps).preferredVehicleByBlockId[block] == before.preferredVehicleByBlockId[block] {
      PreferredVehicleRunsOnBlock(env, vps[..n - 1], block);
    }
  }

  // ---------------------------------------------------------------------------
  // Trip updates

  /** The updates indexed by vehicle id, and those indexed by resolved block. */
  datatype TripUpdateGroups = TripUpdateGroups(
    byVehicle: map<string, seq<TripUpdate>>,
    anonymousByBlock: map<BlockDescriptor, seq<TripUpdate>>)

  /** The trip update carries a vehicle id that is not blank. */
  predicate HasUsableVehicleId(tu: TripUpdate) {
    tu.HasVehicleId() && IsNotBlank(tu.vehicle.value.id.value)
  }

  /** addStartDateTime: a trip update without a trip id is a hard failure; one without a
      start time gets the time of day of its trip's first scheduled arrival on its start
      date (or on the epoch date); nothing else changes. */
  function AddStartDateTime(env: Env, tu: TripUpdate): (r: Result<TripUpdate, GroupingError>)
    ensures r.Failure? <==> tu.trip.tripId.None?
    ensures r.Success? ==> r.value.(trip := r.value.trip.(startTime := tu.trip.startTime)) == tu
    ensures r.Success? && r.value != tu ==> tu.trip.startTime.None? && r.value.trip.startTime.Some?
    // the start time filled in is the local time of day of the first scheduled arrival,
    // written on the 24-hour clock (see the findings for the 12-hour pattern as written)
    ensures r.Success? && tu.trip.startTime.None? && FirstArrivalInstant(env, tu).Some? ==>
              r.value.trip.startTime == Some(FormatClock24(env.localTimeOfDay(FirstArrivalInstant(env, tu).value)))
    ensures r.Success? && (tu.trip.startTime.Some? || FirstArrivalInstant(env, tu).None?) ==> r == Success(tu)
  {
    if tu.trip.tripId.None? then Failure(UnidentifiableTrip(tu))
    else if tu.trip.startTime.Some? then Success(tu)
    else match FirstArrivalInstant(env, tu)
      case None => Success(tu)
      case Some(instant) =>
        Success(tu.(trip := tu.trip.(startTime := Some(FormatClock24(env.localTimeOfDay(instant))))))
  }

  /** The instant of the first scheduled arrival of the update's trip on its start date, or
      on the epoch date when the update has none; nothing when the trip is unknown, has no
      stop times, or the date does not parse. The seconds are turned into milliseconds in
      `int` arithmetic. */
  function FirstArrivalInstant(env: Env, tu: TripUpdate): Option<int>
    requires tu.trip.tripId.Some?
  {
    match env.getTrip(tu.trip.tripId.value)
    case None => None
    case Some(entry) =>
      if |entry.stopTimes| == 0 then None
      else
        var arrivalTime := entry.stopTimes[0].arrivalTime;
        var dateString := if tu.trip.startDate.Some? && |tu.trip.startDate.value| > 0 then tu.trip.startDate.value else "00000000";
        match env.parseServiceDate(dateString)
        case None => None
        case Some(serviceDate) => Some(env.serviceDateMillis(serviceDate) + Wrap(arrivalTime * 1000))
  }

  /** Two filled-in start times agree only when the first arrivals they stand for fall at
      the same local time of day: the start time names the trip's departure unambiguously. */
  lemma AddedStartTimesTellArrivalsApart(env: Env, tu1: TripUpdate, tu2: TripUpdate)
    requires tu1.trip.tripId.Some? && tu1.trip.startTime.None? && FirstArrivalInstant(env, tu1).Some?
    requires tu2.trip.tripId.Some? && tu2.trip.startTime.None? && FirstArrivalInstant(env, tu2).Some?
    requires AddStartDateTime(env, tu1).value.trip.startTime == AddStartDateTime(env, tu2).value.trip.startTime
    ensures env.localTimeOfDay(FirstArrivalInstant(env, tu1).value) == env.localTimeOfDay(FirstArrivalInstant(env, tu2).value)
  {
    FormatClock24Injective(env.localTimeOfDay(FirstArrivalInstant(env, tu1).value),
                           env.localTimeOfDay(FirstArrivalInstant(env, tu2).value));
  }

  /** addStartDateTime as written: the same, but the time of day is rendered with the
      12-hour pattern "hh:mm:ss", so an afternoon start reads as the morning one. */
  function AddStartDateTimeAsWritten(env: Env, tu: TripUpdate): (r: Result<TripUpdate, GroupingError>)
    ensures r.Failure? <==> tu.trip.tripId.None?
    ensures r.Success? && tu.trip.startTime.None? && FirstArrivalInstant(env, tu).Some? ==>
              r.value.trip.startTime == Some(FormatClock12(env.localTimeOfDay(FirstArrivalInstant(env, tu).value)))
    ensures r.Success? && (tu.trip.startTime.Some? || FirstArrivalInstant(env, tu).None?) ==> r == Success(tu)
  {
    if tu.trip.tripId.None? then Failure(UnidentifiableTrip(tu))
    else if tu.trip.startTime.Some? then Success(tu)
    else match FirstArrivalInstant(env, tu)
      case None => Success(tu)
      case Some(instant) =>
        Success(tu.(trip := tu.trip.(startTime := Some(FormatClock12(env.localTimeOfDay(instant))))))
  }

  /** A trip whose first arrival falls at 13:00 local time gets the start time "01:00:00" as
      written, the time of a trip that starts at one in the morning; the 24-hour rendering
      gives "13:00:00". */
  lemma AfternoonStartTimeWrittenAsMorning(env: Env, tu: TripUpdate)
    requires tu.trip.tripId.Some? && tu.trip.startTime.None? && FirstArrivalInstant(env, tu).Some?
    requires env.localTimeOfDay(FirstArrivalInstant(env, tu).value) == 13 * 3600
    ensures AddStartDateTimeAsWritten(env, tu).value.trip.startTime == Some("01:00:00")
    ensures AddStartDateTime(env, tu).value.trip.startTime == Some("13:00:00")
  {
    TwelveHourClockCollides();
  }

  /** Where one trip update goes. */
  function TripUpdateStep(env: Env, info: AssignmentInfo, now: int, g: TripUpdateGroups, tu: TripUpdate)
    : Result<TripUpdateGroups, GroupingError>
  {
    if HasUsableVehicleId(tu) then
      match AddStartDateTime(env, tu)
      case Failure(e) => Failure(e)
      case Success(stamped) => Success(g.(byVehicle := Put(g.byVehicle, VehicleId(env, tu.vehicle.value), stamped)))
    else
      match TripDescriptorAsBlockDescriptor(env, tu.trip, ObservationTime(tu.timestamp, now))
      case None => Success(g)
      case Some(bd) =>
        var entry := env.getTrip(tu.trip.TripIdOrEmpty());
        if entry.Some? && IdString(entry.value.block) in info.preferredVehicleByBlockId then
          Success(g.(byVehicle := Put(g.byVehicle, info.preferredVehicleByBlockId[IdString(entry.value.block)], tu)))
        else
          Success(g.(anonymousByBlock := Put(g.anonymousByBlock, bd, tu)))
  }

  /** The groups of a sequence of trip updates, read in order; the first failure aborts. */
  function TripUpdateGroupsOf(env: Env, info: AssignmentInfo, now: int, tus: seq<TripUpdate>)
    : Result<TripUpdateGroups, GroupingError>
  {
    if |tus| == 0 then Success(TripUpdateGroups(map[], map[]))
    else match TripUpdateGroupsOf(env, info, now, tus[..|tus| - 1])
      case Failure(e) => Failure(e)
      case Success(g) => TripUpdateStep(env, info, now, g, tus[|tus| - 1])
  }

  /** The trip-update pass of groupTripUpdatesAndVehiclePositions. */
  method GroupTripUpdates(env: Env, info: AssignmentInfo, now: int, tus: seq<TripUpdate>)
    returns (r: Result<TripUpdateGroups, GroupingError>)
    ensures r == TripUpdateGroupsOf(env, info, now, tus)
  {
    var byVehicle: map<string, seq<TripUpdate>> := map[];
    var anonymousByBlock: map<BlockDescriptor, seq<TripUpdate>> := map[];
    for i := 0 to |tus|
      invariant TripUpdateGroupsOf(env, info, now, tus[..i]) == Success(TripUpdateGroups(byVehicle, anonymousByBlock))
    {
      assert tus[..i + 1][..i] == tus[..i];
      var tu := tus[i];
      if tu.vehicle.Some? && tu.vehicle.value.id.Some? && IsNotBlank(tu.vehicle.value.id.value) {
        // indexed by vehicle id
        var vehicleId := VehicleId(env, tu.vehicle.value);
        var stamped := AddStartDateTime(env, tu);
        if stamped.Failure? {
          FailureIsFinal(env, info, now, tus, i + 1);
          return Failure(stamped.error);
        }
        byVehicle := Put(byVehicle, vehicleId, stamped.value);
      } else {
        // indexed by the resolved block, unless a vehicle position named the block's vehicle
        var time := if tu.timestamp.Some? then tu.timestamp.value * 1000 else now;
        var bd := TripDescriptorAsBlockDescriptor(env, tu.trip, time);
        if bd.None? {
          continue;
        }
        var tripEntry := env.getTrip(tu.trip.TripIdOrEmpty());
        if tripEntry.Some? && IdString(tripEntry.value.block) in info.preferredVehicleByBlockId {
          byVehicle := Put(byVehicle, info.preferredVehicleByBlockId[IdString(tripEntry.value.block)], tu);
        } else {
          anonymousByBlock := Put(anonymousByBlock, bd.value, tu);
        }
      }
    }
    assert tus[..|tus|] == tus;
    return Success(TripUpdateGroups(byVehicle, anonymousByBlock));
  }

  /** Once a prefix fails, the whole sequence fails with the same error. */
  lemma {:induction false} FailureIsFinal(env: Env, info: AssignmentInfo, now: int, tus: seq<TripUpdate>, i: int)
    requires 0 <= i <= |tus| && TripUpdateGroupsOf(env, info, now, tus[..i]).Failure?
    ensures TripUpdateGroupsOf(env, info, now, tus) == TripUpdateGroupsOf(env, info, now, tus[..i])
  {
    if i < |tus| {
      var n := |tus|;
      assert tus[..n - 1][..i] == tus[..i];
      FailureIsFinal(env, info, now, tus[..n - 1], i);
    } else {
      assert tus[..i] == tus;
    }
  }

  /** An update indexed by vehicle id that names no trip. */
  predicate Unidentifiable(tu: TripUpdate) {
    HasUsableVehicleId(tu) && tu.trip.tripId.None?
  }

  /** The grouping fails exactly when an update indexed by vehicle id names no trip. */
  lemma {:induction false} GroupingFailsOnlyOnUnidentifiableTrip(env: Env, info: AssignmentInfo, now: int, tus: seq<TripUpdate>)
    ensures TripUpdateGroupsOf(env, info, now, tus).Failure? <==> exists i :: 0 <= i < |tus| && Unidentifiable(tus[i])
  {
    if |tus| > 0 {
      var n := |tus|;
      var prefix := tus[..n - 1];
      GroupingFailsOnlyOnUnidentifiableTrip(env, info, now, prefix);
      assert forall i :: 0 <= i < n - 1 ==> prefix[i] == tus[i];
      if exists i :: 0 <= i < n && Unidentifiable(tus[i]) {
        var i :| 0 <= i < n && Unidentifiable(tus[i]);
        if i < n - 1 {
          assert Unidentifiable(prefix[i]);
        }
      }
    }
  }

  /** The invariants of the trip-update groups: no group is empty, and an update with a
      usable vehicle id is never indexed by block. */
  ghost predicate WellFormedGroups(g: TripUpdateGroups) {
    && (forall v :: v in g.byVehicle ==> |g.byVehicle[v]| > 0)
    && (forall bd :: bd in g.anonymousByBlock ==> |g.anonymousByBlock[bd]| > 0)
    && (forall bd, tu :: bd in g.anonymousByBlock && tu in g.anonymousByBlock[bd] ==> !HasUsableVehicleId(tu))
  }

  lemma {:induction false} TripUpdateGroupsWellFormed(env: Env, info: AssignmentInfo, now: int, tus: seq<TripUpdate>)
    requires TripUpdateGroupsOf(env, info, now, tus).Success?
    ensures WellFormedGroups(TripUpdateGroupsOf(env, info, now, tus).value)
  {
    if |tus| > 0 {
      TripUpdateGroupsWellFormed(env, info, now, tus[..|tus| - 1]);
    }
  }

  /** An update with a usable vehicle id is indexed under that id (after its start time is
      filled in), never under a block. */
  lemma {:induction false} VehicleUpdatesIndexedByVehicleId(env: Env, info: AssignmentInfo, now: int, tus: seq<TripUpdate>, i: int)
    requires TripUpdateGroupsOf(env, info, now, tus).Success?
    requires 0 <= i < |tus| && HasUsableVehicleId(tus[i])
    ensures var g := TripUpdateGroupsOf(env, info, now, tus).value;
      var v := VehicleId(env, tus[i].vehicle.value);
      && AddStartDateTime(env, tus[i]).Success?
      && v in g.byVehicle && AddStartDateTime(env, tus[i]).value in g.byVehicle[v]
      && forall bd :: bd in g.anonymousByBlock ==> tus[i] !in g.anonymousByBlock[bd]
  {
    var n := |tus|;
    TripUpdateGroupsWellFormed(env, info, now, tus);
    var g0 := TripUpdateGroupsOf(env, info, now, tus[..n - 1]);
    assert g0.Success?;
    var v := VehicleId(env, tus[i].vehicle.value);
    if i < n - 1 {
      assert tus[..n - 1][i] == tus[i];
      VehicleUpdatesIndexedByVehicleId(env, info, now, tus[..n - 1], i);
      var stamped := AddStartDateTime(env, tus[i]).value;
      assert v in g0.value.byVehicle && stamped in g0.value.byVehicle[v];
      StepKeepsVehicleEntries(env, info, now, g0.value, tus[n - 1], v, stamped);
    }
  }

  /** A step never takes an update out of the vehicle-id index. */
  lemma StepKeepsVehicleEntries(env: Env, info: AssignmentInfo, now: int, g: TripUpdateGroups, tu: TripUpdate,
                                v: string, x: TripUpdate)
    requires TripUpdateStep(env, info, now, g, tu).Success?
    requires v in g.byVehicle && x in g.byVehicle[v]
    ensures v in TripUpdateStep(env, info, now, g, tu).value.byVehicle
    ensures x in TripUpdateStep(env, info, now, g, tu).value.byVehicle[v]
  {
  }

  // ---------------------------------------------------------------------------
  // Vehicle positions

  /** The positions indexed by vehicle id, those indexed by resolved block, and the blocks
      with more than one position without a vehicle id. */
  datatype PositionGroups = PositionGroups(
    byVehicle: map<string, VehiclePosition>,
    anonymousByBlock: map<BlockDescriptor, VehiclePosition>,
    ambiguous: set<BlockDescriptor>)

  /** The block a position without a vehicle id resolves to. */
  function AnonymousBlock(env: Env, now: int, vp: VehiclePosition): Option<BlockDescriptor> {
    if vp.HasVehicleId() || vp.trip.None? then None
    else TripDescriptorAsBlockDescriptor(env, vp.trip.value, ObservationTime(vp.timestamp, now))
  }

  /** Where one vehicle position goes. */
  function PositionStep(env: Env, now: int, g: PositionGroups, vp: VehiclePosition): PositionGroups {
    if vp.HasVehicleId() then
      var vehicleId := VehicleId(env, vp.vehicle.value);
      if vehicleId !in g.byVehicle || vp.TimestampOrZero() > g.byVehicle[vehicleId].TimestampOrZero() then
        g.(byVehicle := g.byVehicle[vehicleId := vp])
      else g
    else match AnonymousBlock(env, now, vp)
      case None => g
      case Some(bd) =>
        if bd !in g.anonymousByBlock then g.(anonymousByBlock := g.anonymousByBlock[bd := vp])
        else g.(ambiguous := g.ambiguous + {bd})
  }

  /** The groups of a sequence of vehicle positions, read in order. */
  function PositionGroupsOf(env: Env, now: int, vps: seq<VehiclePosition>): PositionGroups {
    if |vps| == 0 then PositionGroups(map[], map[], {})
    else PositionStep(env, now, PositionGroupsOf(env, now, vps[..|vps| - 1]), vps[|vps| - 1])
  }

  /** The vehicle-position pass of groupTripUpdatesAndVehiclePositions. */
  method GroupVehiclePositions(env: Env, now: int, vps: seq<VehiclePosition>) returns (g: PositionGroups)
    ensures g == PositionGroupsOf(env, now, vps)
  {
    var byVehicle: map<string, VehiclePosition> := map[];
    var anonymousByBlock: map<BlockDescriptor, VehiclePosition> := map[];
    var ambiguous: set<BlockDescriptor> := {};
    for i := 0 to |vps|
      invariant PositionGroupsOf(env, now, vps[..i]) == PositionGroups(byVehicle, anonymousByBlock, ambiguous)
    {
      assert vps[..i + 1][..i] == vps[..i];
      var vp := vps[i];
      if vp.vehicle.Some? && vp.vehicle.value.id.Some? {
        var vehicleId := VehicleId(env, vp.vehicle.value);
        if vehicleId !in byVehicle {
          byVehicle := byVehicle[vehicleId := vp];
        } else if vp.TimestampOrZero() > byVehicle[vehicleId].TimestampOrZero() {
          // several positions for one vehicle: the newest wins
          byVehicle := byVehicle[vehicleId := vp];
        }
      } else if vp.trip.Some? {
        var time := if vp.timestamp.Some? then vp.timestamp.value * 1000 else now;
        var bd := TripDescriptorAsBlockDescriptor(env, vp.trip.value, time);
        if bd.None? {
          continue;
        }
        if bd.value !in anonymousByBlock {
          anonymousByBlock := anonymousByBlock[bd.value := vp];
        } else {
          // several positions for a block and nothing to tell them apart
          ambiguous := ambiguous + {bd.value};
        }
      }
    }
    assert vps[..|vps|] == vps;
    return PositionGroups(byVehicle, anonymousByBlock, ambiguous);
  }

  /** The position reports vehicle id `v`. */
  ghost predicate Reports(env: Env, vp: VehiclePosition, v: string) {
    vp.HasVehicleId() && VehicleId(env, vp.vehicle.value) == v
  }

  /** Position `k` reports `v`, no position reporting `v` is newer, and every earlier one
      reporting `v` is strictly older. */
  ghost predicate NewestFirst(env: Env, vps: seq<VehiclePosition>, v: string, k: int) {
    && 0 <= k < |vps| && Reports(env, vps[k], v)
    && (forall j :: 0 <= j < |vps| && Reports(env, vps[j], v) ==> vps[j].TimestampOrZero() <= vps[k].TimestampOrZero())
    && (forall j :: 0 <= j < k && Reports(env, vps[j], v) ==> vps[j].TimestampOrZero() < vps[k].TimestampOrZero())
  }

  /** For duplicate vehicle ids the strictly newer timestamp wins and ties keep the first. */
  lemma {:induction false} NewestPositionKept(env: Env, now: int, vps: seq<VehiclePosition>, v: string)
    requires v in PositionGroupsOf(env, now, vps).byVehicle
    ensures exists k :: NewestFirst(env, vps, v, k) && vps[k] == PositionGroupsOf(env, now, vps).byVehicle[v]
  {
    var n := |vps|;
    var prefix := vps[..n - 1];
    var before := PositionGroupsOf(env, now, prefix);
    var last := vps[n - 1];
    var kept := PositionGroupsOf(env, now, vps).byVehicle[v];
    if v in before.byVehicle {
      NewestPositionKept(env, now, prefix, v);
      var k :| NewestFirst(env, prefix, v, k) && prefix[k] == before.byVehicle[v];
      if Reports(env, last, v) && last.TimestampOrZero() > before.byVehicle[v].TimestampOrZero() {
        assert kept == last;
        NewerPositionIsNewestFirst(env, vps, v, k);
      } else {
        assert kept == before.byVehicle[v];
        OlderPositionKeepsNewestFirst(env, vps, v, k);
      }
    } else {
      assert Reports(env, last, v) && kept == last;
      NoPositionForVehicle(env, now, prefix, v);
      assert forall j :: 0 <= j < n - 1 ==> prefix[j] == vps[j];
      FirstPositionIsNewestFirst(env, vps, v);
    }
  }

  lemma NewerPositionIsNewestFirst(env: Env, vps: seq<VehiclePosition>, v: string, k: int)
    requires |vps| > 0 && NewestFirst(env, vps[..|vps| - 1], v, k)
    requires Reports(env, vps[|vps| - 1], v) && vps[|vps| - 1].TimestampOrZero() > vps[k].TimestampOrZero()
    ensures NewestFirst(env, vps, v, |vps| - 1)
  {
    assert forall j :: 0 <= j < |vps| - 1 ==> vps[..|vps| - 1][j] == vps[j];
  }

  lemma OlderPositionKeepsNewestFirst(env: Env, vps: seq<VehiclePosition>, v: string, k: int)
    requires |vps| > 0 && NewestFirst(env, vps[..|vps| - 1], v, k)
    requires Reports(env, vps[|vps| - 1], v) ==> vps[|vps| - 1].TimestampOrZero() <= vps[k].TimestampOrZero()
    ensures NewestFirst(env, vps, v, k)
  {
    assert forall j :: 0 <= j < |vps| - 1 ==> vps[..|vps| - 1][j] == vps[j];
  }

  lemma FirstPositionIsNewestFirst(env: Env, vps: seq<VehiclePosition>, v: string)
    requires |vps| > 0 && Reports(env, vps[|vps| - 1], v)
    requires forall j :: 0 <= j < |vps| - 1 ==> !Reports(env, vps[j], v)
    ensures NewestFirst(env, vps, v, |vps| - 1)
  { }

  /** A vehicle id without a kept position has no position at all. */
  lemma {:induction false} NoPositionForVehicle(env: Env, now: int, vps: seq<VehiclePosition>, v: string)
    requires v !in PositionGroupsOf(env, now, vps).byVehicle
    ensures forall j :: 0 <= j < |vps| ==> !Reports(env, vps[j], v)
  {
    var n := |vps|;
    if n > 0 {
      NoPositionForVehicle(env, now, vps[..n - 1], v);
      assert forall j :: 0 <= j < n - 1 ==> vps[..n - 1][j] == vps[j];
    }
  }

  /** The positions indexed by block are positions without a vehicle id that resolve to
      that block. */
  lemma {:induction false} AnonymousPositionsResolveToTheirBlock(env: Env, now: int, vps: seq<VehiclePosition>)
    ensures forall bd :: bd in PositionGroupsOf(env, now, vps).anonymousByBlock ==>
              AnonymousBlock(env, now, PositionGroupsOf(env, now, vps).anonymousByBlock[bd]) == Some(bd)
  {
    if |vps| > 0 {
      AnonymousPositionsResolveToTheirBlock(env, now, vps[..|vps| - 1]);
    }
  }

  /** A second position without a vehicle id for the same block makes the block ambiguous. */
  lemma {:induction false} SecondAnonymousPositionIsAmbiguous(env: Env, now: int, vps: seq<VehiclePosition>, i: int, j: int)
    requires 0 <= i < j < |vps|
    requires AnonymousBlock(env, now, vps[i]).Some? && AnonymousBlock(env, now, vps[i]) == AnonymousBlock(env, now, vps[j])
    ensures AnonymousBlock(env, now, vps[i]).value in PositionGroupsOf(env, now, vps).ambiguous
  {
    var n := |vps|;
    var bd := AnonymousBlock(env, now, vps[i]).value;
    assert vps[..n - 1][i] == vps[i];
    if j < n - 1 {
      assert vps[..n - 1][j] == vps[j];
      SecondAnonymousPositionIsAmbiguous(env, now, vps[..n - 1], i, j);
    } else {
      AnonymousBlockRemembered(env, now, vps[..n - 1], i);
    }
  }

  /** Once a block has a position without a vehicle id, it stays indexed. */
  lemma {:induction false} AnonymousBlockRemembered(env: Env, now: int, vps: seq<VehiclePosition>, i: int)
    requires 0 <= i < |vps| && AnonymousBlock(env, now, vps[i]).Some?
    ensures AnonymousBlock(env, now, vps[i]).value in PositionGroupsOf(env, now, vps).anonymousByBlock
  {
    var n := |vps|;
    if i < n - 1 {
      assert vps[..n - 1][i] == vps[i];
      AnonymousBlockRemembered(env, now, vps[..n - 1], i);
    }
  }

  /** Drops the positions of ambiguous blocks. */
  method RemoveAmbiguous(anonymousByBlock: map<BlockDescriptor, VehiclePosition>, ambiguous: set<BlockDescriptor>)
    returns (r: map<BlockDescriptor, VehiclePosition>)
    ensures r == anonymousByBlock - ambiguous
  {
    r := anonymousByBlock;
    var remaining := ambiguous;
    while remaining != {}
      invariant r.Keys == anonymousByBlock.Keys - (ambiguous - remaining)
      invariant forall bd :: bd in r ==> r[bd] == anonymousByBlock[bd]
      invariant r == anonymousByBlock - (ambiguous - remaining)
      decreases remaining
    {
      var bd :| bd in remaining;
      r := r - {bd};
      remaining := remaining - {bd};
    }
  }

  // ---------------------------------------------------------------------------
  // Bundles

  /** The bundle of the trip updates indexed by vehicle id `v`: its block is resolved again
      from the first update, and it takes the kept position of the same vehicle id. */
  function VehicleBundle(env: Env, now: int, tus: map<string, seq<TripUpdate>>, vps: map<string, VehiclePosition>, v: string): Bundle
    requires v in tus && |tus[v]| > 0
  {
    var first := tus[v][0];
    Bundle(
      TripDescriptorAsBlockDescriptor(env, first.trip, ObservationTime(first.timestamp, now)),
      tus[v],
      if v in vps then Some(vps[v]) else None)
  }

  /** The bundle of the trip updates indexed by block `bd`: it takes the block's position
      only when there is exactly one update. */
  function BlockBundle(tus: map<BlockDescriptor, seq<TripUpdate>>, vps: map<BlockDescriptor, VehiclePosition>, bd: BlockDescriptor): Bundle
    requires bd in tus
  {
    Bundle(Some(bd), tus[bd], if |tus[bd]| == 1 && bd in vps then Some(vps[bd]) else None)
  }

  /** The elements of `s` are pairwise distinct. */
  predicate Distinct<T(==)>(s: seq<T>) {
    forall i, j :: 0 <= i < j < |s| ==> s[i] != s[j]
  }

  /** The vehicle bundles, one per vehicle id in the hash map's (unspecified) iteration
      order, followed by the block bundles, one per block in the same kind of order. */
  method BuildBundles(env: Env, now: int, groups: TripUpdateGroups, positionsByVehicle: map<string, VehiclePosition>,
                      positionsByBlock: map<BlockDescriptor, VehiclePosition>)
    returns (bundles: seq<Bundle>, ghost vehicles: seq<string>, ghost blocks: seq<BlockDescriptor>)
    requires WellFormedGroups(groups)
    ensures Distinct(vehicles) && forall v :: v in vehicles <==> v in groups.byVehicle
    ensures Distinct(blocks) && forall bd :: bd in blocks <==> bd in groups.anonymousByBlock
    ensures |bundles| == |vehicles| + |blocks|
    ensures forall i :: 0 <= i < |vehicles| ==>
              bundles[i] == VehicleBundle(env, now, groups.byVehicle, positionsByVehicle, vehicles[i])
    ensures forall i :: 0 <= i < |blocks| ==>
              bundles[|vehicles| + i] == BlockBundle(groups.anonymousByBlock, positionsByBlock, blocks[i])
  {
    bundles := [];
    vehicles := [];
    var remaining := groups.byVehicle.Keys;
    while remaining != {}
      invariant remaining <= groups.byVehicle.Keys
      invariant Distinct(vehicles) && forall v :: v in vehicles <==> v in groups.byVehicle && v !in remaining
      invariant |bundles| == |vehicles|
      invariant forall i :: 0 <= i < |vehicles| ==>
                  bundles[i] == VehicleBundle(env, now, groups.byVehicle, positionsByVehicle, vehicles[i])
      decreases remaining
    {
      var v :| v in remaining;
      var tripUpdates := groups.byVehicle[v];
      // the first update finds the block; all of them are passed through
      var first := tripUpdates[0];
      var time := if first.timestamp.Some? then first.timestamp.value * 1000 else now;
      var block := TripDescriptorAsBlockDescriptor(env, first.trip, time);
      var position := if v in positionsByVehicle then Some(positionsByVehicle[v]) else None;
      bundles := bundles + [Bundle(block, tripUpdates, position)];
      vehicles := vehicles + [v];
      remaining := remaining - {v};
    }
    blocks := [];
    var remainingBlocks := groups.anonymousByBlock.Keys;
    while remainingBlocks != {}
      invariant remainingBlocks <= groups.anonymousByBlock.Keys
      invariant Distinct(vehicles) && forall v :: v in vehicles <==> v in groups.byVehicle
      invariant Distinct(blocks) && forall bd :: bd in blocks <==> bd in groups.anonymousByBlock && bd !in remainingBlocks
      invariant |bundles| == |vehicles| + |blocks|
      invariant forall i :: 0 <= i < |vehicles| ==>
                  bundles[i] == VehicleBundle(env, now, groups.byVehicle, positionsByVehicle, vehicles[i])
      invariant forall i :: 0 <= i < |blocks| ==>
                  bundles[|vehicles| + i] == BlockBundle(groups.anonymousByBlock, positionsByBlock, blocks[i])
      decreases remainingBlocks
    {
      var bd :| bd in remainingBlocks;
      var tripUpdates := groups.anonymousByBlock[bd];
      var position := if |tripUpdates| == 1 && bd in positionsByBlock then Some(positionsByBlock[bd]) else None;
      bundles := bundles + [Bundle(Some(bd), tripUpdates, position)];
      blocks := blocks + [bd];
      remainingBlocks := remainingBlocks - {bd};
    }
  }

  // ---------------------------------------------------------------------------
  // Vehicle id stamping

  /** The vehicle id of the first trip update that has one (`hasId`, blank or not). */
  function FirstVehicleId(env: Env, tus: seq<TripUpdate>): (r: Option<string>)
    ensures r.None? <==> forall i :: 0 <= i < |tus| ==> !tus[i].HasVehicleId()
    ensures r.Some? ==> exists k :: 0 <= k < |tus| && tus[k].HasVehicleId() && r.value == VehicleId(env, tus[k].vehicle.value)
                          && forall i :: 0 <= i < k ==> !tus[i].HasVehicleId()
  {
    if |tus| == 0 then None
    else if tus[0].HasVehicleId() then Some(VehicleId(env, tus[0].vehicle.value))
    else
      var rest := FirstVehicleId(env, tus[1..]);
      assert forall i :: 1 <= i < |tus| ==> tus[i] == tus[1..][i - 1];
      rest
  }

  /** The vehicle id a bundle's block is stamped with, if any: the first trip update's,
      else the position's. */
  function BundleVehicleId(env: Env, b: Bundle): Option<string> {
    match FirstVehicleId(env, b.tripUpdates)
    case Some(v) => Some(v)
    case None =>
      if b.vehiclePosition.Some? && b.vehiclePosition.value.HasVehicleId() then
        Some(VehicleId(env, b.vehiclePosition.value.vehicle.value))
      else None
  }

  /** A bundle after stamping: only the block's vehicle id can change, and only from none. */
  function StampVehicleId(env: Env, b: Bundle): (r: Bundle)
    ensures r.tripUpdates == b.tripUpdates && r.vehiclePosition == b.vehiclePosition
    ensures r.block.None? <==> b.block.None?
    ensures r.block.Some? ==> r.block.value.(vehicleId := b.block.value.vehicleId) == b.block.value
    ensures r.block.Some? && b.block.value.vehicleId.Some? ==> r.block == b.block
    ensures r.block.Some? && b.block.value.vehicleId.None? ==> r.block.value.vehicleId == BundleVehicleId(env, b)
  {
    match b.block
    case None => b
    case Some(bd) =>
      if bd.vehicleId.None? then b.(block := Some(bd.(vehicleId := BundleVehicleId(env, b)))) else b
  }

  /** The stamping pass of groupTripUpdatesAndVehiclePositions. */
  method StampVehicleIds(env: Env, bundles: seq<Bundle>) returns (r: seq<Bundle>)
    ensures |r| == |bundles|
    ensures forall i :: 0 <= i < |bundles| ==> r[i] == StampVehicleId(env, bundles[i])
  {
    r := [];
    for i := 0 to |bundles|
      invariant |r| == i
      invariant forall j :: 0 <= j < i ==> r[j] == StampVehicleId(env, bundles[j])
    {
      var b := bundles[i];
      var vehicleId: Option<string> := None;
      for k := 0 to |b.tripUpdates|
        invariant vehicleId.None? ==> forall j :: 0 <= j < k ==> !b.tripUpdates[j].HasVehicleId()
        invariant vehicleId.Some? ==> vehicleId == FirstVehicleId(env, b.tripUpdates)
      {
        var tu := b.tripUpdates[k];
        if tu.vehicle.Some? && tu.vehicle.value.id.Some? {
          vehicleId := Some(VehicleId(env, tu.vehicle.value));
          FirstVehicleIdAt(env, b.tripUpdates, k);
          break;
        }
      }
      if vehicleId.None? && b.vehiclePosition.Some? && b.vehiclePosition.value.vehicle.Some?
         && b.vehiclePosition.value.vehicle.value.id.Some? {
        vehicleId := Some(VehicleId(env, b.vehiclePosition.value.vehicle.value));
      }
      if vehicleId.Some? && b.block.Some? && b.block.value.vehicleId.None? {
        b := b.(block := Some(b.block.value.(vehicleId := vehicleId)));
      }
      r := r + [b];
    }
  }

  /** The first trip update with a vehicle id decides `FirstVehicleId`. */
  lemma {:induction false} FirstVehicleIdAt(env: Env, tus: seq<TripUpdate>, k: int)
    requires 0 <= k < |tus| && tus[k].HasVehicleId()
    requires forall j :: 0 <= j < k ==> !tus[j].HasVehicleId()
    ensures FirstVehicleId(env, tus) == Some(VehicleId(env, tus[k].vehicle.value))
  {
    if k > 0 {
      assert forall j :: 0 <= j < k - 1 ==> tus[1..][j] == tus[j + 1];
      FirstVehicleIdAt(env, tus[1..], k - 1);
    }
  }

  // ---------------------------------------------------------------------------
  // The whole grouping

  /** groupTripUpdatesAndVehiclePositions: the hints, then the two passes, then the bundles
      and their vehicle ids. `now` stands for the library clock. */
  method GroupTripUpdatesAndVehiclePositions(env: Env, now: int, tus: seq<TripUpdate>, vps: seq<VehiclePosition>)
    returns (r: Result<seq<Bundle>, GroupingError>, ghost vehicles: seq<string>, ghost blocks: seq<BlockDescriptor>)
    ensures r.Failure? <==> exists i :: 0 <= i < |tus| && Unidentifiable(tus[i])
    ensures r.Success? ==> TripUpdateGroupsOf(env, AssignmentOf(env, vps), now, tus).Success?
    ensures r.Success? ==>
      var groups := TripUpdateGroupsOf(env, AssignmentOf(env, vps), now, tus).value;
      WellFormedGroups(groups) && BundledAs(env, now, groups, vps, r.value, vehicles, blocks)
  {
    var info := GetAssignmentInfo(env, vps);
    var grouped := GroupTripUpdates(env, info, now, tus);
    GroupingFailsOnlyOnUnidentifiableTrip(env, info, now, tus);
    if grouped.Failure? {
      return Failure(grouped.error), [], [];
    }
    TripUpdateGroupsWellFormed(env, info, now, tus);
    var bundles;
    bundles, vehicles, blocks := BundleGroups(env, now, grouped.value, vps);
    return Success(bundles), vehicles, blocks;
  }

  /** The bundles of the grouping: one per vehicle id with updates, in the hash map's
      (unspecified) order, then one per block with updates without a vehicle id, each
      stamped with a vehicle id; a block bundle takes only an unambiguous position. */
  ghost predicate BundledAs(env: Env, now: int, groups: TripUpdateGroups, vps: seq<VehiclePosition>,
                            bundles: seq<Bundle>, vehicles: seq<string>, blocks: seq<BlockDescriptor>)
    requires WellFormedGroups(groups)
  {
    var positions := PositionGroupsOf(env, now, vps);
    && Distinct(vehicles) && (forall v :: v in vehicles <==> v in groups.byVehicle)
    && Distinct(blocks) && (forall bd :: bd in blocks <==> bd in groups.anonymousByBlock)
    && |bundles| == |vehicles| + |blocks|
    && (forall i :: 0 <= i < |vehicles| ==>
          bundles[i] == StampVehicleId(env, VehicleBundle(env, now, groups.byVehicle, positions.byVehicle, vehicles[i])))
    && (forall i :: 0 <= i < |blocks| ==>
          bundles[|vehicles| + i] == StampVehicleId(env, BlockBundle(groups.anonymousByBlock,
                                                         positions.anonymousByBlock - positions.ambiguous, blocks[i])))
  }

  /** The second half of groupTripUpdatesAndVehiclePositions: the positions are grouped,
      the ambiguous ones dropped, and the bundles built and stamped with vehicle ids. */
  method BundleGroups(env: Env, now: int, groups: TripUpdateGroups, vps: seq<VehiclePosition>)
    returns (bundles: seq<Bundle>, ghost vehicles: seq<string>, ghost blocks: seq<BlockDescriptor>)
    requires WellFormedGroups(groups)
    ensures BundledAs(env, now, groups, vps, bundles, vehicles, blocks)
  {
    var positions := GroupVehiclePositions(env, now, vps);
    var usable := RemoveAmbiguous(positions.anonymousByBlock, positions.ambiguous);
    var built;
    built, vehicles, blocks := BuildBundles(env, now, groups, positions.byVehicle, usable);
    bundles := StampVehicleIds(env, built);
  }

  /** Every trip update with a usable vehicle id ends up, with its start time filled in, in
      the bundle of that vehicle id. */
  lemma VehicleUpdateReachesItsBundle(env: Env, info: AssignmentInfo, now: int, tus: seq<TripUpdate>,
                                      positions: map<string, VehiclePosition>, k: int)
    requires TripUpdateGroupsOf(env, info, now, tus).Success?
    requires 0 <= k < |tus| && HasUsableVehicleId(tus[k])
    ensures var groups := TripUpdateGroupsOf(env, info, now, tus).value;
      var v := VehicleId(env, tus[k].vehicle.value);
      && v in groups.byVehicle && |groups.byVehicle[v]| > 0
      && AddStartDateTime(env, tus[k]).Success?
      && AddStartDateTime(env, tus[k]).value in StampVehicleId(env, VehicleBundle(env, now, groups.byVehicle, positions, v)).tripUpdates
  {
    TripUpdateGroupsWellFormed(env, info, now, tus);
    VehicleUpdatesIndexedByVehicleId(env, info, now, tus, k);
  }

  /** The position in a vehicle bundle is the newest position of that vehicle id (ties to
      the first), and there is none only when no position carries that vehicle id. */
  lemma VehicleBundlePositionIsNewest(env: Env, now: int, tus: map<string, seq<TripUpdate>>, vps: seq<VehiclePosition>, v: string)
    requires v in tus && |tus[v]| > 0
    ensures var b := VehicleBundle(env, now, tus, PositionGroupsOf(env, now, vps).byVehicle, v);
      && (b.vehiclePosition.None? <==> forall j :: 0 <= j < |vps| ==> !Reports(env, vps[j], v))
      && (b.vehiclePosition.Some? ==> exists k :: NewestFirst(env, vps, v, k) && vps[k] == b.vehiclePosition.value)
  {
    if v in PositionGroupsOf(env, now, vps).byVehicle {
      NewestPositionKept(env, now, vps, v);
    } else {
      NoPositionForVehicle(env, now, vps, v);
    }
  }

  /** A block bundle takes a position only when it holds exactly one trip update and exactly
      one position without a vehicle id resolved to its block; that position is one of them. */
  lemma BlockBundlePositionIsUnambiguous(env: Env, now: int, tus: map<BlockDescriptor, seq<TripUpdate>>,
                                         vps: seq<VehiclePosition>, bd: BlockDescriptor)
    requires bd in tus
    ensures var positions := PositionGroupsOf(env, now, vps);
      var b := BlockBundle(tus, positions.anonymousByBlock - positions.ambiguous, bd);
      b.vehiclePosition.Some? ==>
        && |tus[bd]| == 1
        && AnonymousBlock(env, now, b.vehiclePosition.value) == Some(bd)
        && (forall i, j :: 0 <= i < j < |vps| && AnonymousBlock(env, now, vps[i]) == Some(bd) ==>
              AnonymousBlock(env, now, vps[j]) != Some(bd))
  {
    var positions := PositionGroupsOf(env, now, vps);
    AnonymousPositionsResolveToTheirBlock(env, now, vps);
    forall i, j | 0 <= i < j < |vps| && AnonymousBlock(env, now, vps[i]) == Some(bd) && AnonymousBlock(env, now, vps[j]) == Some(bd)
      ensures bd in positions.ambiguous
    {
      SecondAnonymousPositionIsAmbiguous(env, now, vps, i, j);
    }
  }
}
