/** The static schedule the realtime feeds are joined against, and the collaborators
    the trip library consults: the entity source (trips by id), the block calendar
    (block instances by date or time window), the date and time-of-day conversions,
    the optional stop-id modification strategy, and the library's configuration. */
module Schedule {
  import opened Wrappers
  import opened JavaInt
  import opened Feed

  /** `AgencyAndId` */
  datatype Id = Id(agencyId: string, id: string)

  /** A scheduled stop of a trip; times are seconds since the start of the service date. */
  datatype StopTimeEntry = StopTimeEntry(
    stop: Id,
    trip: Id,
    arrivalTime: int32,
    departureTime: int32,
    gtfsSequence: int)

  datatype TripEntry = TripEntry(
    id: Id,
    block: Id,
    route: Option<Id>,
    directionId: Option<string>,
    stopTimes: seq<StopTimeEntry>)

  datatype BlockConfiguration = BlockConfiguration(block: Id, trips: seq<TripEntry>)

  /** A block as the transit graph builds it: at least one trip, and every trip has a
      first stop (the start times of the block and of its trips are read from them). */
  type ScheduledBlock = b: BlockConfiguration
    | |b.trips| > 0 && forall i :: 0 <= i < |b.trips| ==> |b.trips[i].stopTimes| > 0
    witness BlockConfiguration(Id("", ""), [TripEntry(Id("", ""), Id("", ""), None, None,
                                                      [StopTimeEntry(Id("", ""), Id("", ""), 0, 0, 0)])])

  /** A block on one service date; `serviceDate` is that date's midnight in epoch milliseconds. */
  datatype BlockInstance = BlockInstance(block: ScheduledBlock, serviceDate: int)

  /** `ServiceDate` */
  datatype ServiceDate = ServiceDate(year: int, month: int, day: int)

  /** `AgencyAndId.toString` and `AgencyAndIdLibrary.convertToString`. */
  function IdString(id: Id): string {
    id.agencyId + "_" + id.id
  }

  /** A second of a day, 00:00:00 to 23:59:59. */
  type SecondOfDay = s: int | 0 <= s < 86400

  /** The collaborators and the configuration of one trip library. */
  datatype Env = Env(
    /** `GtfsRealtimeEntitySource.getTrip` */
    getTrip: string -> Option<TripEntry>,
    /** `BlockCalendarService.getBlockInstance(blockId, serviceDateMillis)` */
    getBlockInstance: (Id, int) -> Option<BlockInstance>,
    /** `BlockCalendarService.getActiveBlocks(blockId, from, to)` */
    getActiveBlocks: (Id, int, int) -> seq<BlockInstance>,
    /** `BlockCalendarService.getClosestActiveBlocks(blockId, time)` */
    getClosestActiveBlocks: (Id, int) -> seq<BlockInstance>,
    /** `ServiceDate.parseString`, failing on a malformed date */
    parseServiceDate: string -> Option<ServiceDate>,
    /** `serviceDate.getAsDate().getTime()` */
    serviceDateMillis: ServiceDate -> int,
    /** `new ServiceDate(new Date(millis))` */
    serviceDateOf: int -> ServiceDate,
    /** `StopTimeFieldMappingFactory.getStringAsSeconds`, failing on a malformed time */
    parseTimeOfDay: string -> Option<int32>,
    /** the wall-clock time of day, in the default time zone, of an epoch-millisecond instant */
    localTimeOfDay: int -> SecondOfDay,
    /** `StopModificationStrategy.convertStopId`, when a strategy is configured */
    stopModification: Option<string -> string>,
    /** `setUseLabelAsVehicleId` */
    useLabelAsVehicleId: bool,
    /** whether `OccupancyStatus.valueOf` knows the feed value's name */
    knownOccupancy: FeedOccupancy -> bool)
}
