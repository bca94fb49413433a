# GTFS-realtime trip library, modelled in Dafny

This project models the correlation and reconciliation engine of OneBusAway's
`GtfsRealtimeTripLibrary`. The engine reads two GTFS-realtime feeds and joins them against the
static schedule (the transit graph):

- trip updates, with their trip descriptors and stop time updates;
- vehicle positions.

It works in four stages:

1. **Grouping** (`groupTripUpdatesAndVehiclePositions`). Trip updates are indexed by vehicle id when
   they carry one. The others are indexed by the block their trip descriptor resolves to, unless a
   vehicle position gives a hint for that block. Positions are indexed the same way: the newest per
   vehicle, and one per block. A block that gets two anonymous positions loses both. The result is
   one bundle per vehicle and one per block, and each bundle's block is stamped with a vehicle id.
2. **Block resolution** (`getTripDescriptorAsBlockDescriptor`, `getBlockStartTimeForTripStartTime`).
   A trip descriptor and an observation time become a block instance. The record carries a
   service date and, for a reported start time, the block start time shifted by the trip's lateness.
3. **Record building** (`applyTripUpdatesToRecord`, `createVehicleLocationRecordForUpdate`):
   - the updates of each trip of the block are read in order;
   - each stop time update is matched to a scheduled stop, by stop sequence and then by nearest
     occurrence of the stop id;
   - each match gives a timepoint prediction and a stop-level deviation candidate;
   - a trip-level delay locks the deviation;
   - timepoints are interpolated for unserved stops;
   - the record gets its status, schedule deviation, time, location and vehicle id.
4. **Occupancy** (`createVehicleOccupancyRecordForUpdate`) and the **clock guard** (`currentTime`).
   The guard drops a feed clock that is more than an hour away from the system clock.

Modules, one per component:

- `Wrappers`: `Option`, `Result`.
- `JavaInt`: 32-bit wrap-around and truncating division.
- `Feed`: the GTFS-realtime messages as plain records with optional fields.
- `Schedule`: schedule entities, plus `Env`, the collaborators passed in as functions.
- `TimeFormat`: the "hh:mm:ss" and "HH:mm:ss" renderings of a time of day.
- `BlockResolver`, `StopMatcher`.
- `Deviation`: the `BestScheduleDeviation` accumulator class and its update rule.
- `Interpolation`: the timepoint interpolator.
- `Correlator`: the grouping.
- `RecordSpec`: what the record builder computes, as functions over the feed order, with the
  lemmas about them.
- `Records`: the `VehicleLocationRecord` and `MonitoredResult` classes, updated in place, and the
  record builder.
- `TripLibrary`: the library class with its clock override.

Where the Java code changes state step by step, the model does too: loops with invariants, and
classes whose methods update their fields. Each such method is proved against a specification
function (a left fold over the feed order), and the properties are proved about that function.
Java `int` arithmetic wraps explicitly (`JavaInt.Wrap`). `long` arithmetic is unbounded.

The record builder is specified through *readings*. A reading (`RecordSpec.StopReading`) is
what one stop time update yields once matched: the stop of the trip it was matched to, its
timepoint prediction and its deviation candidates. The methods return the readings as ghost
values, and `StopRead`, `StopsRead`, `UpdatesRead` and `BlockRead` tie each one to the stop
the matcher specifies (`StopMatcher.IsStopMatch`) and to `StopPrediction` and `StopCandidates`
of the update at that stop. Given the readings, `ReadUpdates`, `FinishTrip` and
`BlockProgress` say what the loop over the block's trips leaves: the accumulator, the
predictions, the latest scheduled arrival and the single-timepoint flag. The lemmas of
`RecordSpec` then say what those are in the source's terms: which predictions are recorded,
when interpolation runs, and that the deviation is the last trip-level delay or else the fold
of the block's candidates.

Collaborators are fields of `Schedule.Env`:

- the entity source (`getTrip`);
- the block calendar (`getBlockInstance`, `getActiveBlocks`, `getClosestActiveBlocks`);
- service-date parsing and conversion;
- start-time parsing;
- the local time of day of an instant;
- the stop-id modification strategy;
- the label switch;
- whether the schedule side knows an occupancy value.

The system clock is a parameter (`wall` or `now`).

Where the code and its documentation disagree, the model follows the code. One example: a start
date that does not parse falls back to the ±30-minute window search around the observation time.
It does not make the resolution fail. The two exceptions are the defects listed under Findings.
There the model keeps the code as written in a member of its own and runs the evidently
intended version: the 24-hour start time in `Correlator.AddStartDateTime`, and the null-checked
collector report in `Records.CreateVehicleLocationRecordForUpdate`.

## Model

| member | source | states |
|---|---|---|
| Correlator.VehicleId | onebusaway-transit-data-federation/src/main/java/org/onebusaway/transit_data_federation/impl/realtime/gtfs_realtime/GtfsRealtimeTripLibrary.java:1033-1042 | the vehicle label is the vehicle id exactly when labels are switched on and the descriptor has one; otherwise it is the descriptor's id |
| Correlator.GetAssignmentInfo | onebusaway-transit-data-federation/src/main/java/org/onebusaway/transit_data_federation/impl/realtime/gtfs_realtime/GtfsRealtimeTripLibrary.java:395-434 | the loop computes the hints of the positions read in feed order (`AssignmentOf`) |
| Correlator.FirstReportedTripKept | onebusaway-transit-data-federation/src/main/java/org/onebusaway/transit_data_federation/impl/realtime/gtfs_realtime/GtfsRealtimeTripLibrary.java:409-420 | the preferred trip of a vehicle is the trip of the first position that reports it with a trip; later reports are ignored |
| Correlator.NotYetPreferred | onebusaway-transit-data-federation/src/main/java/org/onebusaway/transit_data_federation/impl/realtime/gtfs_realtime/GtfsRealtimeTripLibrary.java:403-420 | a vehicle id that no hint-giving position carries has no preferred trip |
| Correlator.PreferredVehicleRunsOnBlock | onebusaway-transit-data-federation/src/main/java/org/onebusaway/transit_data_federation/impl/realtime/gtfs_realtime/GtfsRealtimeTripLibrary.java:420-427 | a block's preferred vehicle has a preferred trip; the schedule knows that trip, and it runs on that block |
| Correlator.AddStartDateTime | onebusaway-transit-data-federation/src/main/java/org/onebusaway/transit_data_federation/impl/realtime/gtfs_realtime/GtfsRealtimeTripLibrary.java:356-392 | corrected (see Findings and Left out): fails exactly when the trip id is missing; changes nothing but the start time, and only when it is missing; then the start time is the local time of day of the trip's first scheduled arrival on its start date (or the epoch date), written "HH:mm:ss" where line 387 writes "hh:mm:ss" |
| Correlator.AddStartDateTimeAsWritten | onebusaway-transit-data-federation/src/main/java/org/onebusaway/transit_data_federation/impl/realtime/gtfs_realtime/GtfsRealtimeTripLibrary.java:356-392 | as written: the same failure and the same untouched fields, with the start time written "hh:mm:ss", the hour of the half day |
| Correlator.AfternoonStartTimeWrittenAsMorning | onebusaway-transit-data-federation/src/main/java/org/onebusaway/transit_data_federation/impl/realtime/gtfs_realtime/GtfsRealtimeTripLibrary.java:379-391 | a trip whose first arrival falls at 13:00 local time gets "01:00:00" as written, the start time of a 01:00 trip, and "13:00:00" corrected |
| Correlator.AddedStartTimesTellArrivalsApart | onebusaway-transit-data-federation/src/main/java/org/onebusaway/transit_data_federation/impl/realtime/gtfs_realtime/GtfsRealtimeTripLibrary.java:379-391 | two filled-in start times are equal only when the first arrivals they stand for fall at the same local time of day (24-hour rendering; see Findings) |
| Correlator.GroupTripUpdates | onebusaway-transit-data-federation/src/main/java/org/onebusaway/transit_data_federation/impl/realtime/gtfs_realtime/GtfsRealtimeTripLibrary.java:176-222 | the trip-update loop computes the left fold `TripUpdateGroupsOf` over feed order, stopping at the first failure |
| Correlator.FailureIsFinal | onebusaway-transit-data-federation/src/main/java/org/onebusaway/transit_data_federation/impl/realtime/gtfs_realtime/GtfsRealtimeTripLibrary.java:183-185 | the exception aborts the pass: once a prefix of the feed fails, the whole feed fails with the same error |
| Correlator.GroupingFailsOnlyOnUnidentifiableTrip | onebusaway-transit-data-federation/src/main/java/org/onebusaway/transit_data_federation/impl/realtime/gtfs_realtime/GtfsRealtimeTripLibrary.java:179-186 | the trip-update pass fails if and only if some update with a non-blank vehicle id has no trip id |
| Correlator.TripUpdateGroupsWellFormed | onebusaway-transit-data-federation/src/main/java/org/onebusaway/transit_data_federation/impl/realtime/gtfs_realtime/GtfsRealtimeTripLibrary.java:176-222 | every list of both multimaps is non-empty, and no update with a usable vehicle id is indexed by block |
| Correlator.VehicleUpdatesIndexedByVehicleId | onebusaway-transit-data-federation/src/main/java/org/onebusaway/transit_data_federation/impl/realtime/gtfs_realtime/GtfsRealtimeTripLibrary.java:179-186 | an update with a usable vehicle id is listed, with its start time filled in, under its vehicle id, and under no block |
| Correlator.GroupVehiclePositions | onebusaway-transit-data-federation/src/main/java/org/onebusaway/transit_data_federation/impl/realtime/gtfs_realtime/GtfsRealtimeTripLibrary.java:224-282 | the position loop computes the left fold `PositionGroupsOf` over feed order |
| Correlator.NewestPositionKept | onebusaway-transit-data-federation/src/main/java/org/onebusaway/transit_data_federation/impl/realtime/gtfs_realtime/GtfsRealtimeTripLibrary.java:232-247 | the position kept for a vehicle id has the greatest timestamp among the positions reporting it, and every earlier one is strictly older, so ties keep the first seen |
| Correlator.NoPositionForVehicle | onebusaway-transit-data-federation/src/main/java/org/onebusaway/transit_data_federation/impl/realtime/gtfs_realtime/GtfsRealtimeTripLibrary.java:232-247 | a vehicle id with no kept position is reported by no position |
| Correlator.AnonymousPositionsResolveToTheirBlock | onebusaway-transit-data-federation/src/main/java/org/onebusaway/transit_data_federation/impl/realtime/gtfs_realtime/GtfsRealtimeTripLibrary.java:248-265 | every position indexed by block is a position without a vehicle id whose trip resolves to that block |
| Correlator.SecondAnonymousPositionIsAmbiguous | onebusaway-transit-data-federation/src/main/java/org/onebusaway/transit_data_federation/impl/realtime/gtfs_realtime/GtfsRealtimeTripLibrary.java:263-274 | a second anonymous position resolving to the same block marks that block ambiguous |
| Correlator.AnonymousBlockRemembered | onebusaway-transit-data-federation/src/main/java/org/onebusaway/transit_data_federation/impl/realtime/gtfs_realtime/GtfsRealtimeTripLibrary.java:263-265 | a block that any anonymous position resolves to has a position indexed under it |
| Correlator.RemoveAmbiguous | onebusaway-transit-data-federation/src/main/java/org/onebusaway/transit_data_federation/impl/realtime/gtfs_realtime/GtfsRealtimeTripLibrary.java:284-288 | the block-indexed positions lose exactly the ambiguous blocks |
| Correlator.BuildBundles | onebusaway-transit-data-federation/src/main/java/org/onebusaway/transit_data_federation/impl/realtime/gtfs_realtime/GtfsRealtimeTripLibrary.java:290-326 | one bundle per vehicle id and then one per block, each key exactly once, whatever the map order |
| Correlator.FirstVehicleId | onebusaway-transit-data-federation/src/main/java/org/onebusaway/transit_data_federation/impl/realtime/gtfs_realtime/GtfsRealtimeTripLibrary.java:329-336 | the vehicle id of the first update with one; none exactly when no update has one |
| Correlator.StampVehicleId | onebusaway-transit-data-federation/src/main/java/org/onebusaway/transit_data_federation/impl/realtime/gtfs_realtime/GtfsRealtimeTripLibrary.java:328-348 | only the block's vehicle id can change, and only when it was unset; it becomes the first update's vehicle id, else the position's |
| Correlator.StampVehicleIds | onebusaway-transit-data-federation/src/main/java/org/onebusaway/transit_data_federation/impl/realtime/gtfs_realtime/GtfsRealtimeTripLibrary.java:328-348 | the nested loop with its break stamps every bundle as `StampVehicleId` says |
| Correlator.FirstVehicleIdAt | onebusaway-transit-data-federation/src/main/java/org/onebusaway/transit_data_federation/impl/realtime/gtfs_realtime/GtfsRealtimeTripLibrary.java:331-336 | when update k is the first with a vehicle id, its id is the one the stamping loop breaks on |
| Correlator.BundleGroups | onebusaway-transit-data-federation/src/main/java/org/onebusaway/transit_data_federation/impl/realtime/gtfs_realtime/GtfsRealtimeTripLibrary.java:224-348 | the bundles, in the `BundledAs` shape: vehicle bundles with the newest position of their vehicle, then block bundles with only unambiguous positions, all stamped |
| Correlator.GroupTripUpdatesAndVehiclePositions | onebusaway-transit-data-federation/src/main/java/org/onebusaway/transit_data_federation/impl/realtime/gtfs_realtime/GtfsRealtimeTripLibrary.java:163-353 | fails if and only if an update indexed by vehicle id has no trip id; otherwise the bundles have the `BundledAs` shape over the groups of both passes |
| Correlator.VehicleUpdateReachesItsBundle | onebusaway-transit-data-federation/src/main/java/org/onebusaway/transit_data_federation/impl/realtime/gtfs_realtime/GtfsRealtimeTripLibrary.java:179-309 | every update with a usable vehicle id ends up, with its start time filled in, in the bundle of its vehicle id |
| Correlator.VehicleBundlePositionIsNewest | onebusaway-transit-data-federation/src/main/java/org/onebusaway/transit_data_federation/impl/realtime/gtfs_realtime/GtfsRealtimeTripLibrary.java:232-307 | a vehicle bundle's position is the newest one reporting its vehicle id, and it is missing only when no position reports that id |
| Correlator.BlockBundlePositionIsUnambiguous | onebusaway-transit-data-federation/src/main/java/org/onebusaway/transit_data_federation/impl/realtime/gtfs_realtime/GtfsRealtimeTripLibrary.java:263-323 | a block bundle has a position only when it holds exactly one update and exactly one anonymous position resolved to its block |
| BlockResolver.LastIndexOfTrip | onebusaway-transit-data-federation/src/main/java/org/onebusaway/transit_data_federation/impl/realtime/gtfs_realtime/GtfsRealtimeTripLibrary.java:506-507 | the map by trip id gives the last trip with that id, or none exactly when no trip has it |
| BlockResolver.BlockStartTimeForTripStartTime | onebusaway-transit-data-federation/src/main/java/org/onebusaway/transit_data_federation/impl/realtime/gtfs_realtime/GtfsRealtimeTripLibrary.java:502-531 | -1 for a trip not in the block; else the block start shifted by the trip's lateness (`int` arithmetic), or the raw block start when the shift is negative |
| BlockResolver.BlockStartTimeSign | onebusaway-transit-data-federation/src/main/java/org/onebusaway/transit_data_federation/impl/realtime/gtfs_realtime/GtfsRealtimeTripLibrary.java:502-531 | for a block starting at or after midnight, the result is -1 exactly when the trip is not in the block, and otherwise non-negative |
| BlockResolver.BlockStartTimeShift | onebusaway-transit-data-federation/src/main/java/org/onebusaway/transit_data_federation/impl/realtime/gtfs_realtime/GtfsRealtimeTripLibrary.java:522-530 | when the shifted start is a valid time, the block start moves by exactly the trip's lateness |
| BlockResolver.BlockStartTimeExample | onebusaway-transit-data-federation/src/main/java/org/onebusaway/transit_data_federation/impl/realtime/gtfs_realtime/GtfsRealtimeTripLibrary.java:522-530 | a second trip reported 5 minutes late moves an 08:00 block start to 08:05 |
| BlockResolver.TripDescriptorAsBlockDescriptor | onebusaway-transit-data-federation/src/main/java/org/onebusaway/transit_data_federation/impl/realtime/gtfs_realtime/GtfsRealtimeTripLibrary.java:533-621 | no descriptor when: the trip id is absent or unknown; a reported date has no instance; the window and closest searches are empty; the start time does not parse. The service date is the reported one, else the instance's; a start time is only accepted for a trip of the block and never negative. Every other case resolves |
| BlockResolver.ResolutionFailsOnlyOffBlock | onebusaway-transit-data-federation/src/main/java/org/onebusaway/transit_data_federation/impl/realtime/gtfs_realtime/GtfsRealtimeTripLibrary.java:533-621 | a known trip with an instance, a parsable start time and a block starting after midnight always resolves |
| StopMatcher.ConvertStopId | onebusaway-transit-data-federation/src/main/java/org/onebusaway/transit_data_federation/impl/realtime/gtfs_realtime/GtfsRealtimeTripLibrary.java:894-899 | the id is unchanged without a strategy, otherwise the strategy's conversion |
| StopMatcher.ComputeArrivalTime | onebusaway-transit-data-federation/src/main/java/org/onebusaway/transit_data_federation/impl/realtime/gtfs_realtime/GtfsRealtimeTripLibrary.java:930-943 | an absolute time relative to the service date if present, else scheduled plus delay, else -1 |
| StopMatcher.ComputeDepartureTime | onebusaway-transit-data-federation/src/main/java/org/onebusaway/transit_data_federation/impl/realtime/gtfs_realtime/GtfsRealtimeTripLibrary.java:945-958 | the same rule for departures |
| StopMatcher.AbsoluteTimePreferred | onebusaway-transit-data-federation/src/main/java/org/onebusaway/transit_data_federation/impl/realtime/gtfs_realtime/GtfsRealtimeTripLibrary.java:935-936 | when an event has an absolute time, its delay does not matter |
| StopMatcher.DelayOnlyEvent | onebusaway-transit-data-federation/src/main/java/org/onebusaway/transit_data_federation/impl/realtime/gtfs_realtime/GtfsRealtimeTripLibrary.java:938-939 | a delay-only event lies exactly `delay` seconds after the schedule |
| StopMatcher.AbsoluteTimeRoundTrip | onebusaway-transit-data-federation/src/main/java/org/onebusaway/transit_data_federation/impl/realtime/gtfs_realtime/GtfsRealtimeTripLibrary.java:935-936 | for a whole-second service date, the service date plus the computed seconds is the feed's absolute time again |
| StopMatcher.TimeForStopTimeUpdate | onebusaway-transit-data-federation/src/main/java/org/onebusaway/transit_data_federation/impl/realtime/gtfs_realtime/GtfsRealtimeTripLibrary.java:901-928 | the arrival's time if it reports one, else the departure's, else -1 |
| StopMatcher.ArrivalConsultedFirst | onebusaway-transit-data-federation/src/main/java/org/onebusaway/transit_data_federation/impl/realtime/gtfs_realtime/GtfsRealtimeTripLibrary.java:904-913 | an arrival with a time or a delay makes the departure irrelevant |
| StopMatcher.EntryAtSequence | onebusaway-transit-data-federation/src/main/java/org/onebusaway/transit_data_federation/impl/realtime/gtfs_realtime/GtfsRealtimeTripLibrary.java:836-838 | the last stop time with that GTFS sequence, or none exactly when no stop time has it |
| StopMatcher.GetBlockStopTimeForStopTimeUpdate | onebusaway-transit-data-federation/src/main/java/org/onebusaway/transit_data_federation/impl/realtime/gtfs_realtime/GtfsRealtimeTripLibrary.java:829-892 | any result is an element of the list. A matching sequence with no or an equal stop id gives the entry at that sequence. Otherwise, with a stop id: an entry with the converted id nearest in time, none exactly when no entry has that id. Without one: none |
| StopMatcher.LoopRouteExample | onebusaway-transit-data-federation/src/main/java/org/onebusaway/transit_data_federation/impl/realtime/gtfs_realtime/GtfsRealtimeTripLibrary.java:862-885 | on a loop route the occurrence nearest the reported time is chosen |
| Deviation.UpdatedDeviation | onebusaway-transit-data-federation/src/main/java/org/onebusaway/transit_data_federation/impl/realtime/gtfs_realtime/GtfsRealtimeTripLibrary.java:960-976 | with the delay lock on, nothing changes. Otherwise the candidate replaces the best one exactly when it is nearer or future-versus-past, bringing its delta, side of now, actual-minus-expected deviation and trip |
| Deviation.WithTripDelay | onebusaway-transit-data-federation/src/main/java/org/onebusaway/transit_data_federation/impl/realtime/gtfs_realtime/GtfsRealtimeTripLibrary.java:651-658 | a trip-level delay sets the lock and the deviation, with delta 0 and not in the past |
| Deviation.DelayLockHolds | onebusaway-transit-data-federation/src/main/java/org/onebusaway/transit_data_federation/impl/realtime/gtfs_realtime/GtfsRealtimeTripLibrary.java:960-966 | once locked, no sequence of stop-level candidates changes the accumulator |
| Deviation.CandidatesKeepTripFields | onebusaway-transit-data-federation/src/main/java/org/onebusaway/transit_data_federation/impl/realtime/gtfs_realtime/GtfsRealtimeTripLibrary.java:960-976 | stop-level candidates never touch the lock, the timestamp or the cancellation |
| Deviation.FoldCandidatesConcat | onebusaway-transit-data-federation/src/main/java/org/onebusaway/transit_data_federation/impl/realtime/gtfs_realtime/GtfsRealtimeTripLibrary.java:716-726 | folding two runs of candidates one after the other is folding them together, so a trip's candidates can be folded update by update |
| Deviation.DeviationComesFromACandidate | onebusaway-transit-data-federation/src/main/java/org/onebusaway/transit_data_federation/impl/realtime/gtfs_realtime/GtfsRealtimeTripLibrary.java:960-976 | after any candidates the deviation is the initial one or the lateness of one of them |
| Deviation.ReplacedDeviationIsLateness | onebusaway-transit-data-federation/src/main/java/org/onebusaway/transit_data_federation/impl/realtime/gtfs_realtime/GtfsRealtimeTripLibrary.java:967-974 | a replaced deviation plus the expected time is the actual time, when the lateness fits an `int` |
| Deviation.FutureSignalBeatsNearerPastSignal | onebusaway-transit-data-federation/src/main/java/org/onebusaway/transit_data_federation/impl/realtime/gtfs_realtime/GtfsRealtimeTripLibrary.java:967-974 | a past signal 10 s away is replaced by a future signal 20 s away |
| Deviation.UpdateBestScheduleDeviation | onebusaway-transit-data-federation/src/main/java/org/onebusaway/transit_data_federation/impl/realtime/gtfs_realtime/GtfsRealtimeTripLibrary.java:960-976 | the in-place update leaves the accumulator at `UpdatedDeviation` of its old state |
| Deviation.BestScheduleDeviation.constructor | onebusaway-transit-data-federation/src/main/java/org/onebusaway/transit_data_federation/impl/realtime/gtfs_realtime/GtfsRealtimeTripLibrary.java:1084-1092 | a fresh accumulator: delta `Integer.MAX_VALUE`, deviation 0, in the past, unlocked, no timestamp, no trip, not cancelled |
| Interpolation.GetEarliestTimeInRecords | onebusaway-transit-data-federation/src/main/java/org/onebusaway/transit_data_federation/impl/realtime/gtfs_realtime/GtfsRealtimeTripLibrary.java:1008-1019 | a lower bound of every record's predicted arrival (else departure), equal to one of them, or `Long.MAX_VALUE` when none has one |
| Interpolation.CoveredIsTheRecordedStops | onebusaway-transit-data-federation/src/main/java/org/onebusaway/transit_data_federation/impl/realtime/gtfs_realtime/GtfsRealtimeTripLibrary.java:772-775 | a stop is covered exactly when some existing prediction is for it |
| Interpolation.CoveredTimepoints | onebusaway-transit-data-federation/src/main/java/org/onebusaway/transit_data_federation/impl/realtime/gtfs_realtime/GtfsRealtimeTripLibrary.java:772-775 | the loop builds the set of stops the existing predictions cover |
| Interpolation.SynthesisedIsShiftedSchedule | onebusaway-transit-data-federation/src/main/java/org/onebusaway/transit_data_federation/impl/realtime/gtfs_realtime/GtfsRealtimeTripLibrary.java:779-783 | an interpolated prediction is the scheduled arrival moved by the deviation, and keeps the scheduled dwell |
| Interpolation.InterpolationsSound | onebusaway-transit-data-federation/src/main/java/org/onebusaway/transit_data_federation/impl/realtime/gtfs_realtime/GtfsRealtimeTripLibrary.java:770-808 | every added prediction is SCHEDULED and for an uncovered stop of the trip. It is the shifted schedule, and lies after the time and before the earliest existing prediction, or (single timepoint) at or before the last stop's scheduled time |
| Interpolation.InterpolationsComplete | onebusaway-transit-data-federation/src/main/java/org/onebusaway/transit_data_federation/impl/realtime/gtfs_realtime/GtfsRealtimeTripLibrary.java:775-807 | every uncovered stop inside the window gets a prediction |
| Interpolation.InterpolateTimepoints | onebusaway-transit-data-federation/src/main/java/org/onebusaway/transit_data_federation/impl/realtime/gtfs_realtime/GtfsRealtimeTripLibrary.java:770-808 | the loop appends exactly `Interpolations` for the window bounded by the earliest existing prediction |
| RecordSpec.StopPrediction | onebusaway-transit-data-federation/src/main/java/org/onebusaway/transit_data_federation/impl/realtime/gtfs_realtime/GtfsRealtimeTripLibrary.java:693-730 | the timepoint of a matched stop. A skipped stop has no scheduled or predicted time; any other stop has its scheduled time and the arrival and departure that are non-negative |
| RecordSpec.StopCandidates | onebusaway-transit-data-federation/src/main/java/org/onebusaway/transit_data_federation/impl/realtime/gtfs_realtime/GtfsRealtimeTripLibrary.java:710-730 | a skipped stop offers no deviation candidate; any other stop at most two, arrival first, each taken at the current time for the trip with a non-negative actual time |
| Records.LatestScheduledArrival | onebusaway-transit-data-federation/src/main/java/org/onebusaway/transit_data_federation/impl/realtime/gtfs_realtime/GtfsRealtimeTripLibrary.java:676-683 | the greatest of the previous value and the trip's scheduled arrivals in milliseconds |
| RecordSpec.LatestArrivalIsLatest | onebusaway-transit-data-federation/src/main/java/org/onebusaway/transit_data_federation/impl/realtime/gtfs_realtime/GtfsRealtimeTripLibrary.java:679-686 | the latest scheduled arrival is no less than the previous value or any arrival of the trip, and equal to one of them |
| RecordSpec.LatestArrivalIdempotent | onebusaway-transit-data-federation/src/main/java/org/onebusaway/transit_data_federation/impl/realtime/gtfs_realtime/GtfsRealtimeTripLibrary.java:679-686 | reading the trip's scheduled arrivals again, once more per stop time update, leaves the latest arrival unchanged |
| Records.ApplyStopTimeUpdate | onebusaway-transit-data-federation/src/main/java/org/onebusaway/transit_data_federation/impl/realtime/gtfs_realtime/GtfsRealtimeTripLibrary.java:674-757 | its reading satisfies `StopRead`: the stop is the one the matcher picks, and the reading holds the prediction and the candidates of the update at that stop. Without a match the predictions and the accumulator are unchanged; with one the prediction is appended when it is kept and the accumulator folds the candidates. The trip's latest scheduled arrival is folded in either way |
| Records.RecordMatchedStop | onebusaway-transit-data-federation/src/main/java/org/onebusaway/transit_data_federation/impl/realtime/gtfs_realtime/GtfsRealtimeTripLibrary.java:685-727 | skipped stops are always kept bare. Other stops feed the arrival and then the departure candidate (when non-negative) to the accumulator, and are kept when they have a predicted time |
| RecordSpec.LastDelayIsLast | onebusaway-transit-data-federation/src/main/java/org/onebusaway/transit_data_federation/impl/realtime/gtfs_realtime/GtfsRealtimeTripLibrary.java:651-658 | the record's delay is that of an update with no delayed update after it, and there is none exactly when no update has a delay |
| RecordSpec.LastTimestampIsLast | onebusaway-transit-data-federation/src/main/java/org/onebusaway/transit_data_federation/impl/realtime/gtfs_realtime/GtfsRealtimeTripLibrary.java:659-661 | the record's timestamp is that of an update with no timestamped update after it |
| RecordSpec.TripIdsWithAreThoseTrips | onebusaway-transit-data-federation/src/main/java/org/onebusaway/transit_data_federation/impl/realtime/gtfs_realtime/GtfsRealtimeTripLibrary.java:663-669 | the ids reported as cancelled (added) are the trip ids of the cancelled (added) updates |
| Records.ReportTripStatus | onebusaway-transit-data-federation/src/main/java/org/onebusaway/transit_data_federation/impl/realtime/gtfs_realtime/GtfsRealtimeTripLibrary.java:663-669 | a collector, when there is one, gets the trip id of a cancelled or added update appended; nothing else changes (corrected, see Findings) |
| Records.ReportTripStatusAsWritten | onebusaway-transit-data-federation/src/main/java/org/onebusaway/transit_data_federation/impl/realtime/gtfs_realtime/GtfsRealtimeTripLibrary.java:663-669 | as written, a cancelled or added update fails with a null dereference exactly when there is no collector |
| Records.CanceledTripWithoutCollectorFails | onebusaway-transit-data-federation/src/main/java/org/onebusaway/transit_data_federation/impl/realtime/gtfs_realtime/GtfsRealtimeTripLibrary.java:663-666 | a cancelled trip update read without a collector throws |
| Records.ReportingFault | onebusaway-transit-data-federation/src/main/java/org/onebusaway/transit_data_federation/impl/realtime/gtfs_realtime/GtfsRealtimeTripLibrary.java:663-669 | as written, reading trip updates without a collector faults exactly when one of them is cancelled or added |
| Records.CanceledBundleWithoutCollectorFails | onebusaway-transit-data-federation/src/main/java/org/onebusaway/transit_data_federation/impl/realtime/gtfs_realtime/GtfsRealtimeTripLibrary.java:663-666 | as written, a bundle whose block has one trip and one CANCELED update for it faults when no collector is passed, as `createVehicleLocationRecordForUpdate(update)` at line 446 does |
| Records.ApplyTripLevelFields | onebusaway-transit-data-federation/src/main/java/org/onebusaway/transit_data_federation/impl/realtime/gtfs_realtime/GtfsRealtimeTripLibrary.java:650-671 | the accumulator takes the update's trip-level fields (`TripLevel`: a delay locks it with that deviation, the timestamp in milliseconds, the cancellation); the record's status becomes the update's relationship and nothing else changes; the collector gets the update's cancelled or added trip |
| Records.ApplyStopTimeUpdates | onebusaway-transit-data-federation/src/main/java/org/onebusaway/transit_data_federation/impl/realtime/gtfs_realtime/GtfsRealtimeTripLibrary.java:674-758 | the readings satisfy `StopsRead`, one per stop time update. The predictions gain exactly the kept predictions of the matched updates, in order (`MatchedPredictions`); the accumulator is the fold of their candidates, in order; the latest scheduled arrival is folded in once there is an update |
| RecordSpec.MatchedPredictionsAreKeptReadings | onebusaway-transit-data-federation/src/main/java/org/onebusaway/transit_data_federation/impl/realtime/gtfs_realtime/GtfsRealtimeTripLibrary.java:702-736 | the predictions recorded for a trip update are exactly the kept predictions among its readings |
| RecordSpec.MatchedPredictionsAreOfMatchedStops | onebusaway-transit-data-federation/src/main/java/org/onebusaway/transit_data_federation/impl/realtime/gtfs_realtime/GtfsRealtimeTripLibrary.java:674-736 | for readings that satisfy `StopsRead`, a prediction is recorded for each matched stop time update whose prediction is kept, and every recorded prediction is the `StopPrediction` of an update at the stop the matcher picked for it |
| Records.MapTripUpdatesByTripId | onebusaway-transit-data-federation/src/main/java/org/onebusaway/transit_data_federation/impl/realtime/gtfs_realtime/GtfsRealtimeTripLibrary.java:630-631 | the loop builds the map of updates by trip id |
| Records.TripUpdatesByTripIdFilters | onebusaway-transit-data-federation/src/main/java/org/onebusaway/transit_data_federation/impl/realtime/gtfs_realtime/GtfsRealtimeTripLibrary.java:630-646 | a trip id's list is exactly the updates with that trip id, in feed order; an id without updates has no list |
| Records.ApplyTripUpdate | onebusaway-transit-data-federation/src/main/java/org/onebusaway/transit_data_federation/impl/realtime/gtfs_realtime/GtfsRealtimeTripLibrary.java:650-758 | one trip update: its trip-level fields, then its stop time updates, read as `StopsRead` says, leave the accumulator, the predictions and the latest arrival as `ReadUpdate`; the status and the collector follow the update |
| Records.ApplyUpdatesOfTrip | onebusaway-transit-data-federation/src/main/java/org/onebusaway/transit_data_federation/impl/realtime/gtfs_realtime/GtfsRealtimeTripLibrary.java:648-760 | the trip's updates, read as `UpdatesRead` says, leave the accumulator, the predictions and the latest arrival as `ReadUpdates` (each update's trip-level fields, then its readings); predictions grow only when there are updates; the status is the last update's; the collector gets all their cancelled and added trips |
| RecordSpec.ReadUpdatesAppends | onebusaway-transit-data-federation/src/main/java/org/onebusaway/transit_data_federation/impl/realtime/gtfs_realtime/GtfsRealtimeTripLibrary.java:649-760 | reading a trip's updates only appends predictions and leaves the single-timepoint flag |
| RecordSpec.ReadUpdatesDeviation | onebusaway-transit-data-federation/src/main/java/org/onebusaway/transit_data_federation/impl/realtime/gtfs_realtime/GtfsRealtimeTripLibrary.java:649-760 | the accumulator after a trip's updates is `DeviationAfter`: each update's trip-level fields, then the candidates of its matched stops |
| Records.ApplyBlockTrip | onebusaway-transit-data-federation/src/main/java/org/onebusaway/transit_data_federation/impl/realtime/gtfs_realtime/GtfsRealtimeTripLibrary.java:643-809 | one trip of the block: the updates looked up by its trip id are exactly those with that id, in feed order (`UpdatesForTrip`), read as `UpdatesRead` says; the step is `FinishTrip` after `ReadUpdates`; the status and the collector follow those updates |
| Records.FinishBlockTrip | onebusaway-transit-data-federation/src/main/java/org/onebusaway/transit_data_federation/impl/realtime/gtfs_realtime/GtfsRealtimeTripLibrary.java:763-808 | the end of one trip's turn, as `FinishTrip`: the single-timepoint flag, then the interpolation of the trip's stops at the current deviation, the last timestamp else now, the earliest existing prediction and the latest scheduled arrival |
| RecordSpec.FinishTripInterpolatesOnlyWhenCalledFor | onebusaway-transit-data-federation/src/main/java/org/onebusaway/transit_data_federation/impl/realtime/gtfs_realtime/GtfsRealtimeTripLibrary.java:763-808 | finishing a trip keeps the deviation; the single-timepoint flag is raised exactly when it was already, or when a single prediction came from a first update with one stop time update; predictions are only appended, only when a trip-level delay applies to some prediction or in the single-timepoint case, and only SCHEDULED ones for uncovered stops |
| Records.ApplyBlockTrips | onebusaway-transit-data-federation/src/main/java/org/onebusaway/transit_data_federation/impl/realtime/gtfs_realtime/GtfsRealtimeTripLibrary.java:643-809 | after all the trips of the block, with readings that satisfy `BlockRead`, the accumulator and the predictions are `BlockProgress`; the status and the collector follow the updates in block-trip order (`ProcessedUpdates`) |
| Records.ApplyNextBlockTrip | onebusaway-transit-data-federation/src/main/java/org/onebusaway/transit_data_federation/impl/realtime/gtfs_realtime/GtfsRealtimeTripLibrary.java:643-809 | one turn of the loop: `BlockRead` and `BlockProgress` extend from the block's first i trips to its first i + 1, and the status and the collector by that trip's updates |
| RecordSpec.BlockProgressTracks | onebusaway-transit-data-federation/src/main/java/org/onebusaway/transit_data_federation/impl/realtime/gtfs_realtime/GtfsRealtimeTripLibrary.java:643-809 | after the block, the accumulator is locked exactly when some update read has a delay, holding the last delay, is cancelled exactly when the last update read cancels its trip, and holds the last timestamp |
| RecordSpec.DeviationAfterTracks | onebusaway-transit-data-federation/src/main/java/org/onebusaway/transit_data_federation/impl/realtime/gtfs_realtime/GtfsRealtimeTripLibrary.java:651-664 | reading more updates keeps the accumulator's lock, delay, cancellation and timestamp those of all the updates read so far |
| RecordSpec.UndelayedUpdatesFoldTheirCandidates | onebusaway-transit-data-federation/src/main/java/org/onebusaway/transit_data_federation/impl/realtime/gtfs_realtime/GtfsRealtimeTripLibrary.java:716-726 | without trip-level delays, a trip's updates leave the accumulator, but for its timestamp and cancellation, as the fold of their candidates one after the other |
| RecordSpec.UndelayedBlockFoldsItsCandidates | onebusaway-transit-data-federation/src/main/java/org/onebusaway/transit_data_federation/impl/realtime/gtfs_realtime/GtfsRealtimeTripLibrary.java:643-809 | without trip-level delays, the whole block leaves the accumulator, but for its timestamp and cancellation, as the fold of all its candidates into a fresh accumulator |
| RecordSpec.UndelayedDeviationFoldsTheCandidates | onebusaway-transit-data-federation/src/main/java/org/onebusaway/transit_data_federation/impl/realtime/gtfs_realtime/GtfsRealtimeTripLibrary.java:637-820 | without a trip-level delay among the updates read, the block's deviation is what its stop-level candidates give, folded in the order they are offered into a fresh accumulator |
| RecordSpec.BlockCandidatesAreOfMatchedStops | onebusaway-transit-data-federation/src/main/java/org/onebusaway/transit_data_federation/impl/realtime/gtfs_realtime/GtfsRealtimeTripLibrary.java:674-730 | each candidate of the block is a candidate of a stop time update, read for a trip of the block, at the stop the matcher picked for it, taken at the time now in seconds of the service day |
| RecordSpec.BlockPredictionsAreBare | onebusaway-transit-data-federation/src/main/java/org/onebusaway/transit_data_federation/impl/realtime/gtfs_realtime/GtfsRealtimeTripLibrary.java:696-806 | every prediction of the block for a skipped stop has no scheduled or predicted time: matched skipped stops are bare, and interpolation adds only SCHEDULED stops |
| Records.ApplyTripUpdatesToRecord | onebusaway-transit-data-federation/src/main/java/org/onebusaway/transit_data_federation/impl/realtime/gtfs_realtime/GtfsRealtimeTripLibrary.java:623-827 | with readings that satisfy `BlockRead`: the service date; the `BlockProgress` predictions, skipped ones bare; status CANCELED if the last update read cancels its trip, else the block's relationship; unless cancelled, the deviation is the last trip-level delay or, without one, the fold of the block's candidates from a fresh accumulator; cancelled, the deviation is kept. Time of record: the last timestamp when there is one; the block start time when the descriptor has one; the collector's trip ids; location and vehicle id unchanged |
| Records.StoreBlockResult | onebusaway-transit-data-federation/src/main/java/org/onebusaway/transit_data_federation/impl/realtime/gtfs_realtime/GtfsRealtimeTripLibrary.java:811-826 | the service date, the block start time when there is one, status and deviation unless cancelled, the timestamp when there is one, and the predictions go on the record; nothing else changes |
| Records.BlockRecordedFacts | onebusaway-transit-data-federation/src/main/java/org/onebusaway/transit_data_federation/impl/realtime/gtfs_realtime/GtfsRealtimeTripLibrary.java:643-826 | for readings that satisfy `BlockRead`: skipped predictions are bare, the cancellation and the timestamp follow the last update read, and the deviation is the last delay or else the fold of the block's candidates |
| Records.ApplyVehiclePositionToRecord | onebusaway-transit-data-federation/src/main/java/org/onebusaway/transit_data_federation/impl/realtime/gtfs_realtime/GtfsRealtimeTripLibrary.java:978-990 | the record gets the location and, when there is a timestamp, its milliseconds; the collector gets the location; nothing else changes |
| Records.IdentifyVehicle | onebusaway-transit-data-federation/src/main/java/org/onebusaway/transit_data_federation/impl/realtime/gtfs_realtime/GtfsRealtimeTripLibrary.java:463-493 | the vehicle id is the block's vehicle id under the block's agency, else the block id; the collector counts the block id as a matched trip |
| Records.CreateVehicleLocationRecordForUpdate | onebusaway-transit-data-federation/src/main/java/org/onebusaway/transit_data_federation/impl/realtime/gtfs_realtime/GtfsRealtimeTripLibrary.java:449-496 | corrected (see Findings and Left out): no record exactly when the bundle has no block, and then the collector is untouched. With a block, a fresh record (`BuiltRecord`): block id; vehicle id, the block's vehicle id under the block's agency, else the block id; status, deviation, service date and predictions as `ApplyTripUpdatesToRecord` says; time of record the last timestamp, else now; the block start time; location and its time from the position. The collector gains the bundle's cancelled and added trips, the location and the block as matched trip |
| Records.CreateVehicleOccupancyRecordForUpdate | onebusaway-transit-data-federation/src/main/java/org/onebusaway/transit_data_federation/impl/realtime/gtfs_realtime/GtfsRealtimeTripLibrary.java:1044-1082 | a record only for a position with a known occupancy status, under the block's agency and vehicle id. It fails exactly when a status is present and either the block is missing or the trip fallback reads the first update of an empty bundle |
| Records.OccupancyFollowsPositionTrip | onebusaway-transit-data-federation/src/main/java/org/onebusaway/transit_data_federation/impl/realtime/gtfs_realtime/GtfsRealtimeTripLibrary.java:1058-1071 | the route and direction come from the position's own trip whenever the schedule knows it and it has a route |
| Records.KnownOccupancyIsRecorded | onebusaway-transit-data-federation/src/main/java/org/onebusaway/transit_data_federation/impl/realtime/gtfs_realtime/GtfsRealtimeTripLibrary.java:1048-1081 | a known status of a bundle with a block and an update always gives a record |
| TimeFormat.ClockInjective | onebusaway-transit-data-federation/src/main/java/org/onebusaway/transit_data_federation/impl/realtime/gtfs_realtime/GtfsRealtimeTripLibrary.java:386-387 | two-digit fields separated by colons determine the fields |
| TimeFormat.ClocksAgreeInTheMorning | onebusaway-transit-data-federation/src/main/java/org/onebusaway/transit_data_federation/impl/realtime/gtfs_realtime/GtfsRealtimeTripLibrary.java:386-387 | from 01:00 to 11:59:59 the two renderings agree |
| TimeFormat.TwelveHourClockFoldsAfternoon | onebusaway-transit-data-federation/src/main/java/org/onebusaway/transit_data_federation/impl/realtime/gtfs_realtime/GtfsRealtimeTripLibrary.java:386-387 | the 12-hour rendering of an afternoon time is that of the morning time 12 hours earlier |
| TimeFormat.TwelveHourClockMisreadsAfternoon | onebusaway-transit-data-federation/src/main/java/org/onebusaway/transit_data_federation/impl/realtime/gtfs_realtime/GtfsRealtimeTripLibrary.java:386-387 | from 13:00 on, the 12-hour rendering differs from the time of day |
| TimeFormat.TwelveHourClockCollides | onebusaway-transit-data-federation/src/main/java/org/onebusaway/transit_data_federation/impl/realtime/gtfs_realtime/GtfsRealtimeTripLibrary.java:386-387 | 13:00:00 and 01:00:00 both render as "01:00:00" with "hh" |
| TripLibrary.ValidatedFeedTimeIsNearWallClock | onebusaway-transit-data-federation/src/main/java/org/onebusaway/transit_data_federation/impl/realtime/gtfs_realtime/GtfsRealtimeTripLibrary.java:1021-1031 | with validation on, the time the library uses is within an hour of the system clock |
| TripLibrary.GuardIsIdempotent | onebusaway-transit-data-federation/src/main/java/org/onebusaway/transit_data_federation/impl/realtime/gtfs_realtime/GtfsRealtimeTripLibrary.java:1021-1031 | a second guard with the same system clock changes nothing |
| TripLibrary.UnvalidatedOverrideWins | onebusaway-transit-data-federation/src/main/java/org/onebusaway/transit_data_federation/impl/realtime/gtfs_realtime/GtfsRealtimeTripLibrary.java:1021-1031 | with validation off, a set override is always used |
| TripLibrary.SkewedFeedClockIsDropped | onebusaway-transit-data-federation/src/main/java/org/onebusaway/transit_data_federation/impl/realtime/gtfs_realtime/GtfsRealtimeTripLibrary.java:1023-1027 | an override an hour and a second ahead is replaced by the system clock; one exactly an hour ahead is kept |
| TripLibrary.RollStaysInHalfDay | onebusaway-transit-data-federation/src/main/java/org/onebusaway/transit_data_federation/impl/realtime/gtfs_realtime/GtfsRealtimeTripLibrary.java:111-117 | rolling the hour moves the time by whole hours, less than 12 either way, and not at all for a multiple of 12 |
| TripLibrary.GtfsRealtimeTripLibrary.constructor | onebusaway-transit-data-federation/src/main/java/org/onebusaway/transit_data_federation/impl/realtime/gtfs_realtime/GtfsRealtimeTripLibrary.java:79-81 | no override and validation on |
| TripLibrary.GtfsRealtimeTripLibrary.SetValidateCurrentTime | onebusaway-transit-data-federation/src/main/java/org/onebusaway/transit_data_federation/impl/realtime/gtfs_realtime/GtfsRealtimeTripLibrary.java:82-84 | sets the validation switch only |
| TripLibrary.GtfsRealtimeTripLibrary.SetUseLabelAsVehicleId | onebusaway-transit-data-federation/src/main/java/org/onebusaway/transit_data_federation/impl/realtime/gtfs_realtime/GtfsRealtimeTripLibrary.java:140-142 | sets the label switch only |
| TripLibrary.GtfsRealtimeTripLibrary.SetCurrentTime | onebusaway-transit-data-federation/src/main/java/org/onebusaway/transit_data_federation/impl/realtime/gtfs_realtime/GtfsRealtimeTripLibrary.java:107-122 | the override is the given time, rolled by the offset hours when the offset is not zero |
| TripLibrary.GtfsRealtimeTripLibrary.CurrentTime | onebusaway-transit-data-federation/src/main/java/org/onebusaway/transit_data_federation/impl/realtime/gtfs_realtime/GtfsRealtimeTripLibrary.java:1021-1031 | the override survives unless validated and more than an hour off; the result is the override when set, else the system clock, and within an hour of it when validated |
| TripLibrary.GtfsRealtimeTripLibrary.GroupTripUpdatesAndVehiclePositions | onebusaway-transit-data-federation/src/main/java/org/onebusaway/transit_data_federation/impl/realtime/gtfs_realtime/GtfsRealtimeTripLibrary.java:158-165 | the grouping at the guarded time: the same failure condition and bundle shape |
| TripLibrary.GtfsRealtimeTripLibrary.CreateVehicleLocationRecordForUpdate | onebusaway-transit-data-federation/src/main/java/org/onebusaway/transit_data_federation/impl/realtime/gtfs_realtime/GtfsRealtimeTripLibrary.java:444-454 | the record at the guarded time: everything `Records.CreateVehicleLocationRecordForUpdate` promises, with now the time `currentTime()` gives; the guard updates the override as `CurrentTime` says |

## Left out

- Protobuf decoding and the `FeedMessage`/`FeedEntity` plumbing. Feeds are sequences of plain records with optional fields, and entities of the wrong kind are already skipped.
- The NYCT and MTA Railroad stop-time extensions (track and train status). They only decorate a prediction with strings.
- Schedule adherence from the vehicle's location. It calls the geospatial projection service and computes a floating-point deviation.
- The collector's matched and unmatched stop ids, and its unmatched trip ids. These are reported by the stop matcher and the block resolver. The model keeps the collector's cancelled, added and matched trip ids and its locations.
- Logging.
- Calendar and format internals are `Env` functions:
  - `ServiceDate.parseString`, `ServiceDate.getAsDate` and `new ServiceDate(Date)`;
  - `StopTimeFieldMappingFactory.getStringAsSeconds`;
  - the default time zone's time of day of an instant.
- TripLibrary.RollHours: `Calendar.roll` is modelled on the local time of day and ignores daylight-saving transitions.
- The setters of the entity source, block calendar, stop modification strategy and geospatial service, and `getCurrentTime`. They only store a collaborator or read a field; the collaborators are fields of `Env`.
- The clock is read once per entry point and the time is passed down. The Java code calls `currentTime()` at each use. With the same system clock reading every call returns the same value (`TripLibrary.GuardIsIdempotent`), but a system clock that moves during one call is not modelled.
- The tie-break of `org.onebusaway.collections.Min` between equally near occurrences of a stop. Its source is not part of this model, so `StopMatcher.GetBlockStopTimeForStopTimeUpdate` only promises one of the nearest.
- Hash-map iteration order. `Correlator.BuildBundles` takes the keys in an unspecified order, and no order of bundles is claimed.
- `BlockDescriptor` is not part of this model. Its schedule relationship defaults to SCHEDULED when the feed sets none, because the Java code dereferences it without a null check. Equality of descriptors is structural.
- `long` arithmetic is unbounded. Overflow of a 64-bit millisecond time is not modelled; `int` arithmetic wraps.
- Timepoint predictions carry no track or status strings.
- Correlator.AddStartDateTime: the filled-in start time is written on the 24-hour clock, where line 387 uses the 12-hour pattern "hh:mm:ss". The grouping uses this corrected rendering; the code as written is `Correlator.AddStartDateTimeAsWritten` (see Findings).
- Records.CreateVehicleLocationRecordForUpdate: without a collector, a CANCELED or ADDED update is not reported, where lines 666 and 669 dereference null and throw. The model runs the null-checked report; the code as written is `Records.ReportingFault` (see Findings).
- Schedule.TripEntry: every trip has a block. The resolver reads `getBlock()` at line 553 and dereferences it without a check from line 563 on, so a trip without a block is not modelled, and the checks at lines 205 and 421, which skip such a trip, always pass.

## Findings

| source | as written | input that shows it | evidently intended | confidence | as-written member | corrected member |
|---|---|---|---|---|---|---|
| onebusaway-transit-data-federation/src/main/java/org/onebusaway/transit_data_federation/impl/realtime/gtfs_realtime/GtfsRealtimeTripLibrary.java:386 | the filled-in start time uses the pattern "hh:mm:ss", a 12-hour clock without AM/PM | a trip update without a start time whose trip first arrives at 13:00:00 gets "01:00:00", the same as a trip at 01:00:00; the start time is later parsed back as seconds of the day | "HH:mm:ss", the 24-hour time of day of the first arrival | medium, not executed | Correlator.AfternoonStartTimeWrittenAsMorning | Correlator.AddedStartTimesTellArrivalsApart |
| onebusaway-transit-data-federation/src/main/java/org/onebusaway/transit_data_federation/impl/realtime/gtfs_realtime/GtfsRealtimeTripLibrary.java:666 | a cancelled (line 666) or added (line 669) trip is reported to the collector without the null check every other report has | `createVehicleLocationRecordForUpdate(update)` passes no collector; a bundle with one trip update whose schedule relationship is CANCELED dereferences null | report only when a collector was passed | high, not executed | Records.CanceledBundleWithoutCollectorFails | Records.ReportTripStatus |
