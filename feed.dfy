/** The GTFS-realtime messages the trip library reads: TripUpdate, VehiclePosition,
    TripDescriptor, VehicleDescriptor, StopTimeUpdate and StopTimeEvent, already decoded.
    Optional protobuf fields are `Option`s; the getters below return the protobuf
    default value of a field that is not set, as the generated Java getters do. */
module Feed {
  import opened Wrappers
  import opened JavaInt

  datatype TripScheduleRelationship =
    | Scheduled | Added | Unscheduled | Canceled | Replacement | Duplicated | Deleted

  datatype StopScheduleRelationship = StopScheduled | Skipped | NoData | StopUnscheduled

  /** The occupancy values a feed may carry. */
  datatype FeedOccupancy =
    | Empty | ManySeatsAvailable | FewSeatsAvailable | StandingRoomOnly
    | CrushedStandingRoomOnly | Full | NotAcceptingPassengers | NoDataAvailable | NotBoardable

  datatype TripDescriptor = TripDescriptor(
    tripId: Option<string>,
    startDate: Option<string>,
    startTime: Option<string>,
    scheduleRelationship: Option<TripScheduleRelationship>)
  {
    /** `getTripId()`: the empty string when unset. */
    function TripIdOrEmpty(): string {
      tripId.GetOr("")
    }

    /** `getScheduleRelationship()`: SCHEDULED when unset. */
    function Relationship(): TripScheduleRelationship {
      scheduleRelationship.GetOr(Scheduled)
    }
  }

  datatype VehicleDescriptor = VehicleDescriptor(id: Option<string>, vehicleLabel: Option<string>)

  /** `delay` is in seconds, `time` in seconds since the epoch. */
  datatype StopTimeEvent = StopTimeEvent(delay: Option<int32>, time: Option<int>)

  datatype StopTimeUpdate = StopTimeUpdate(
    stopSequence: Option<int>,
    stopId: Option<string>,
    arrival: Option<StopTimeEvent>,
    departure: Option<StopTimeEvent>,
    scheduleRelationship: StopScheduleRelationship)
  {
    /** `getStopId()`: the empty string when unset. */
    function StopIdOrEmpty(): string {
      stopId.GetOr("")
    }
  }

  /** `timestamp` is in seconds since the epoch; `delay` is the trip-level delay in seconds. */
  datatype TripUpdate = TripUpdate(
    trip: TripDescriptor,
    vehicle: Option<VehicleDescriptor>,
    timestamp: Option<int>,
    delay: Option<int32>,
    stopTimeUpdates: seq<StopTimeUpdate>)
  {
    /** `tu.hasVehicle() && tu.getVehicle().hasId()` */
    predicate HasVehicleId() {
      vehicle.Some? && vehicle.value.id.Some?
    }
  }

  datatype Position = Position(latitude: real, longitude: real)

  datatype VehiclePosition = VehiclePosition(
    trip: Option<TripDescriptor>,
    vehicle: Option<VehicleDescriptor>,
    position: Position,
    timestamp: Option<int>,
    occupancyStatus: Option<FeedOccupancy>)
  {
    /** `vp.hasVehicle() && vp.getVehicle().hasId()` */
    predicate HasVehicleId() {
      vehicle.Some? && vehicle.value.id.Some?
    }

    /** `getTimestamp()`: zero when unset. */
    function TimestampOrZero(): int {
      timestamp.GetOr(0)
    }
  }

  /** `Character.isWhitespace`: the separators of Unicode categories Zs, Zl and Zp other
      than the no-break spaces, and the ASCII control characters listed by the JDK. */
  predicate IsWhitespace(c: char) {
    || c == ' ' || c == '\t' || c == '\n' || c == '\r' || c == '\U{000B}' || c == '\U{000C}'
    || '\U{001C}' <= c <= '\U{001F}'
    || c == '\U{1680}' || '\U{2000}' <= c <= '\U{2006}' || '\U{2008}' <= c <= '\U{200A}'
    || c == '\U{2028}' || c == '\U{2029}' || c == '\U{205F}' || c == '\U{3000}'
  }

  /** `StringUtils.isNotBlank`: some character is not whitespace. */
  predicate IsNotBlank(s: string) {
    exists i :: 0 <= i < |s| && !IsWhitespace(s[i])
  }
}
