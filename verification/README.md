# Disturbances, availability, arrival times and XP: a verified model

This project models, in Dafny, the parts of the UnderLX server in which several
pieces of state have to agree with each other over time, and proves what they
keep.

- **Disturbances** (`Lines`, `Histories`, `StatusLogs`, `Reports`, `Announcements`, `ReportHandlers`,
  `Runs`, `Duplicates`).
  Statuses from official and other sources open, promote and close the
  disturbances of a line, while weighted user votes, which expire and are
  cleared re-entrantly through the eviction hook of the report cache, start and
  end unofficial ones. Over every run on a forward-moving clock, including the
  back-dated start of a vote-driven disturbance, a line has at most one ongoing
  disturbance, its disturbances are disjoint, and the official part of each is
  inside it and ends with it. The disturbances recorded say of every instant
  what a three-state reference automaton says.
- **Availability** (`Measure`, `Schedules`, `Availability`). Down time and
  closed time are sums over intersected spans; they are proved equal to
  cardinalities of sets of instants, and from that bounded, additive over
  adjacent windows and monotone in officialness. `Runs.AvailabilityOfRuns` joins
  both halves: the invariant of every run is what makes the arithmetic mean what
  it should.
- **Closed stations** (`Connections`, `Views`, `ConnectionUpdates`, `Trips`, `TripTables`,
  `TypicalSeconds`, `Measurements`, `TypicalUpdates`). The compatibility view replaces edges
  into closed stations by composite edges. Its walks are exactly the original walks that pass closed
  stations properly, with equal totals. Storing a composite edge and rebuilding
  the view is a put-get law with its exact condition, which the averages
  computed from stored trips meet, through all three loops that store them; that
  these trips are read back in order is proved of the table, over every history of
  stores and again with the exact condition.
- **Next train** (`Tracks`, `Vehicles`, `Arrivals`, `VehicleHandlers`). The four hand-written
  scans with their sentinels and early stops refine one search over the loop
  formed by the two tracks, and both copies of the sum along the tracks are the
  time along that loop; the mirror law shows that the branches for the two
  directions agree.
- **XP and achievements** (`Ledger`, `Merging`, `Achievements`, `Levels`, `Awards`, `Rewards`,
  `PosPlay`). Merged
  transactions conserve totals, never disturb past weeks and raise the current one
  by what they pay; the loop of
  achievements that pay XP that brings achievements ends, takes nothing back and
  pays each reward exactly once; who gets the achievements for levels, visits and
  submissions is characterised over whole runs.

Code that changes state step by step is modelled by methods and classes, each
tied by its `ensures` to a function of the old state; what the system promises is
then proved of those functions. `StatusLogs`, `Announcements`, `Views`, `Measurements`,
`Arrivals`, `Merging` and `Rewards` determine the outcomes themselves, down to rows, times
and texts, without these functions. Times are integers, in milliseconds.

## What the code does that its comments do not say

- `getEarliestVoteForLine` ignores the line it is given, so a disturbance can be
  dated back to a report about another line: exactly if one in memory is earlier
  than the line's own (`Runs.StartsOfRuns`). The invariants hold regardless.
- `startDisturbance` fails for a line that never had a disturbance, so a line gets
  its first one exactly when a downtime of it is observed (`Runs.FirstIsObservedIff`).
- An achievement for a level goes to those whose points make the level, as long as
  transactions come and are looked at one at a time (`Levels.LevelsAreHeldIff`). Two
  rewards of one time can hide a level from both (`Levels.TwoRewardsHideALevel`).
- The duplicate check of `AddStatus` would not be harmless for a status dated before
  others on record: `Histories.LateStatusBreaksTheCheck` is such a history, and
  `Histories.DroppingIsHarmlessIff` the exact condition. No part of the program sends
  one. Every status is dated with the present but the back-dated start of a
  disturbance, which is sent only after the last end, and over all such runs the
  check is harmless (`Duplicates.CheckIsHarmless`).
- A participation is not merged into one of the very instant the week started
  (`Merging.StartOfWeekIsNotMerged`), although that one counts for the same week.
- `Connection.Update` splits a negative odd travel time so that it comes back one
  second longer (`ConnectionUpdates.OddNegativeTravelIsLost`).
- Storing a trip again never deletes the station uses stored before. An edit that
  changes the entry time at a station leaves the old use in place, and the trip is
  then read with both (`TripTables.EditLeavesOldUses`); it is still read in order
  exactly if no use left over overlaps a new one (`TripTables.EditIsReadInOrderIff`).
  Two uses of one station at one entry time are stored as one
  (`TripTables.NewTripIsReadBackIff`).
- `VisitStationsAchievementStrategy` excuses closed stations only from the second
  trip on, because the filter is applied only when progress is stored already.
- The comment in `AddStatus` calls the overall interval a part of the official one.
  It is the other way round.

## Model

| member | source | states |
|---|---|---|
| Lines.LastStatusIsLatest | types/line.go:615-628 | the last status exists unless the log is empty, is one of the log and no status has a later time |
| Lines.LatestOngoingIsLatest | types/line.go:234-247 | the disturbance a status acts on is ongoing and no ongoing one started later; there is none only if all have ended |
| Lines.LatestEndedIsLatest | types/line.go:399-417 | the past disturbance used when nothing is ongoing is the one with the latest end |
| Lines.Node.AddStatus | types/line.go:632-732 | fails exactly for a status of another line, and then changes nothing; otherwise the rows of that line alone move by the life cycle and the notifications grow by those due |
| Lines.NoticesAreTrue | types/line.go:689-729 | a status is sent out exactly if it changed a disturbance, together with that disturbance as stored, which lists the status |
| Lines.RepeatHasNoEffect | types/line.go:644-654 | a status that says what the newest one says, but for when, changes no row and is not sent out |
| Lines.Include | types/line.go:664-689 | closing and promoting an ongoing disturbance step by step comes to the life cycle's update, statuses included |
| Lines.LifecycleKeepsWellFormed | types/line.go:656-731 | a later status keeps disturbances disjoint with at most the newest ongoing, official ends equal to ends, and moves the line as the reference automaton does |
| Lines.LifecycleCoverage | types/line.go:656-731 | a status changes nothing about earlier instants and, from its time on, the line is disturbed, and officially so, exactly as the automaton says |
| Lines.ModeCovers | types/line.go:656-731 | at the present, disturbed and officially disturbed are exactly the automaton's modes |
| Lines.OfficialIsDisturbed | types/line.go:664-718 | an instant of an official disturbance is an instant of a disturbance |
| Histories.AddToKeepsGood | types/line.go:644-731 | with the duplicate check too, a newer status keeps the invariant and moves the line as the automaton does |
| Histories.AddToCoverage | types/line.go:644-731 | with the duplicate check too, past instants are kept and later ones follow the automaton |
| Histories.ReplayIsGood | types/line.go:644-731 | every strictly increasing history leaves the invariant and the automaton's mode |
| Histories.HistoryMeaning | types/line.go:644-731 | after any strictly increasing history, every instant is disturbed, and officially so, exactly if the automaton that read the statuses up to it says so |
| Histories.NoEffectIff | types/line.go:660-731 | a status leaves every interval and flag unchanged exactly if it leaves the automaton's mode unchanged |
| Histories.DroppingIsHarmlessIff | types/line.go:644-654 | dropping a status loses nothing exactly if it is no duplicate or the newest status is already in effect |
| Histories.DuplicatesAreHarmless | types/line.go:644-654 | on strictly increasing times AddStatus with and without the duplicate check record the same intervals and flags |
| Histories.LateStatusBreaksTheCheck | types/line.go:644-654 | a history with one status dated before others, which no part of the program sends, after which the check has kept open a disturbance that is closed without it |
| Duplicates.StartedAlike | compute/reports.go:237-304 | a vote-driven start, back-dated or not, records the same intervals and flags with the check and without |
| Duplicates.CheckIsHarmless | types/line.go:644-654 | over every run of statuses, votes, expiries and evaluations, back-dated starts included, the program with the duplicate check and the program without it record the same intervals and flags |
| StatusLogs.LogsAreNews | types/line.go:644-654 | after every increasing history the log holds, in order, exactly the statuses that do not repeat the one before them in kind, text and officialness, so no two neighbours agree |
| StatusLogs.RepeatsHaveNoEffectIff | types/line.go:644-654 | after every increasing history a status has no effect at all exactly if it repeats the one before |
| StatusLogs.HistoriesAreTold | types/line.go:660-722 | after any history, in whatever order its statuses are dated, each disturbance is what its own statuses make of it: start and description from the first, official from the first official downtime, ended by the last if that is an all-clear of its kind |
| StatusLogs.ListedIsEffective | types/line.go:664-689 | after every increasing history the disturbances list, in order, exactly the news that bear on them: no all-clears of a clear line, and no official ones of an unofficial disturbance |
| StatusLogs.RunsAreTidy | compute/reports.go:243-303 | both hold over every run, back-dated starts included: no two neighbours in a log agree, and each disturbance is what its statuses make of it |
| Schedules.FirstScheduleIsFirst | types/line.go:517-538 | the schedule used is of that kind and day and no earlier one is; there is none exactly if no schedule is |
| Schedules.FindSchedule | types/line.go:517-521 | the loop finds that schedule |
| Schedules.HolidaysFound | types/line.go:524-525 | the binary search finds a day in a sorted holiday list exactly if it is there |
| Schedules.ScheduleIsTheOne | types/line.go:510-540 | with the holidays in order, the schedule used is the first for the day of the year; without one and on a holiday, the first for holidays; and else the first for the day of the week; there is none exactly if none of these exists |
| Schedules.WeekdayIsUnique | types/line.go:534-538 | the weekdays are the one sequence in which they follow each other and day 0 is a Thursday |
| Schedules.GetScheduleForDay | types/line.go:510-540 | finds exactly that schedule |
| Schedules.AddDay | types/line.go:480-488 | one day adds the part of its opening interval inside the window, if any |
| Schedules.GetOpenSpans | types/line.go:460-493 | the loop collects what each visited day contributes to the window, in order |
| Schedules.ProperIff | types/line.go:480-484 | the assumption of the theorems about open time holds exactly if every day's schedule opens within its day and is over before the next day's opens |
| Schedules.OpenIff | types/line.go:480-484 | an instant is open exactly if the schedule that applies to some day has the line open then |
| Schedules.SchedulesAreProper | types/line.go:510-540 | it can be checked on the list of schedules: one for each weekday, all opening within a day, and each over before any of them opens on the next day |
| Schedules.NoDayIsMissed | types/line.go:476-479 | starting one day early and ending one day late, the loop visits every day whose opening meets the window |
| Schedules.OpenSpansAreExact | types/line.go:460-493 | the spans are ordered, disjoint and not empty, and hold exactly the open instants of the window |
| Availability.ClosedTimeIsExact | types/line.go:495-508 | closed duration is the number of instants of the window in no day's opening interval, open duration the number in one |
| Availability.GetClosedDuration | types/line.go:495-508 | computes that number |
| Availability.CurrentlyClosed | types/line.go:451-458 | true exactly if the line is not open at some instant between the two readings of the clock |
| Availability.SharedDuration | types/line.go:584-588 | the time an interval shares with all open spans |
| Availability.DisturbanceDuration | types/line.go:543-591 | the total over the disturbances the query selects, missing ends taken as now and ends clipped to the window, and how many were selected |
| Availability.SelectedAreCounted | types/line.go:250-266 | the disturbances counted are those whose interval, ends included and a missing end taken as now, meets the window, each as often as it is on record |
| Availability.TotalIsSum | types/line.go:250-266 | the query's filter drops no disturbance that would have contributed open down time |
| Availability.DownTimeIsExact | types/line.go:543-591 | for disjoint disturbances the total is the number of instants that were open and disturbed, none counted twice |
| Availability.DownUntilNow | types/line.go:575-577 | with ends taken as now, the instants counted are the disturbed ones before now |
| Availability.DownTimeIsBounded | types/line.go:543-591 | official down time is at most all down time, and that at most open time |
| Availability.DownTimeAdds | types/line.go:543-591 | down times of adjacent windows add up, for any disturbances |
| Availability.ClosedTimeAdds | types/line.go:495-508 | closed times of adjacent windows add up |
| Availability.Availability | types/line.go:424-448 | the ratio of down time to open time, undefined only for zero over zero, and the mean duration over the selected disturbances |
| Availability.AvailabilityIsAShare | types/line.go:445-446 | with any open time, availability is the undisturbed share of it: in [0, 1] without the clamp, and no lower when only official disturbances count |
| Availability.WithoutOpenTime | types/line.go:445-446 | without any open time, availability is not a number |
| Reports.EarliestTimeIsLeast | compute/reports.go:102-115 | the vote a start is dated back to is the earliest of all reports in memory, of whatever line |
| Reports.EarliestIsOwnIff | compute/reports.go:102-115 | that is the time of the line's own earliest report exactly if no report of another line is earlier |
| Reports.StartedIsDated | compute/reports.go:237-304 | a start adds one disturbance, the newest, dated with the report if that is late enough after the last end and more than a minute old, and with the present otherwise |
| Reports.BackdatedStart | compute/reports.go:243-260 | a start dated after the last end, though before the present, is no duplicate, keeps disturbances disjoint and disturbs exactly the instants from it on |
| Reports.ConfirmAfterBackdated | compute/reports.go:243-283 | the confirmation that follows is no duplicate either, and restores the full invariant |
| Reports.StartedIsGood | compute/reports.go:237-304 | whichever branch is taken, the line becomes unofficially disturbed from the back-dated time, or from now, and the past is kept |
| Reports.StartKeepsInv | compute/reports.go:221-306 | starting does nothing without reports or without an earlier disturbance; otherwise it keeps the invariant of all lines and touches only this one |
| Reports.EndKeepsInv | compute/reports.go:308-331 | ending clears the line, keeps the invariant of all lines and touches only this one |
| Reports.EvaluateLineQuiets | compute/reports.go:189-218 | a line just acted on would not be acted on again, because the keep threshold is no higher; only votes of an officially disturbed line go |
| Reports.EvaluationIsIdempotent | compute/reports.go:175-219 | with non-negative weights, a second evaluation emits no status and drops no vote |
| Reports.EvaluateFromKeepsInv | compute/reports.go:175-219 | evaluation keeps the invariant of every line, whatever the weights |
| Announcements.StartsAreAnnounced | compute/reports.go:221-306 | the whole state after a start: one status, or two if the earliest report came after the last end and more than a minute ago, with their texts and times; one disturbance opened with them; and one notification, with the last of them |
| Announcements.EndsAreAnnounced | compute/reports.go:308-331 | the whole state after an end: one status logged, the newest disturbance ended now, and one notification of that |
| Announcements.EvaluationDecides | compute/reports.go:175-219 | an evaluation starts exactly the clear lines whose votes reach the threshold, given an earlier disturbance and a report left, ends exactly the unofficial ones whose votes fall short of half of it, leaves all other lines as they are, and drops exactly the votes for officially disturbed lines |
| ReportHandlers.DeleteThenEvaluate | compute/reports.go:38-40 | deleting one vote of an official line and evaluating everything afresh comes to dropping all its votes and carrying on |
| ReportHandlers.RestIsQuiet | compute/reports.go:189-218 | when the hook's evaluation returns into the one it interrupted, that one finds nothing left to do |
| ReportHandlers.ReportHandler.CountVotesForLine | compute/reports.go:118-129 | the sum of the weights of the line's reports |
| ReportHandlers.ReportHandler.GetEarliestVoteForLine | compute/reports.go:102-115 | some earliest report in memory, none exactly if there is no report |
| ReportHandlers.ReportHandler.StartDisturbance | compute/reports.go:221-306 | the two statuses with their texts, times and notification flags have the effect of the start; a failure changes nothing |
| ReportHandlers.ReportHandler.EndDisturbance | compute/reports.go:308-331 | the status sent has the effect of the end |
| ReportHandlers.ReportHandler.AddReportManually | compute/reports.go:64-72 | refused exactly if the submitter has a report for the line; otherwise the vote is added and one flat evaluation takes place |
| ReportHandlers.ReportHandler.Delete | compute/reports.go:38-40 | a report that was there is removed and the hook evaluates; one that was not there leaves everything as it is |
| ReportHandlers.ReportHandler.ClearVotesForLine | compute/reports.go:132-141 | ends although each deletion re-enters the evaluation, in any order of deletions; leaves no vote for the line and removes others only on lines with an ongoing official disturbance |
| ReportHandlers.ReportHandler.EvaluateLine | compute/reports.go:189-218 | acting on one line, re-entry included, is one step of the flat pass |
| ReportHandlers.ReportHandler.EvaluateSituation | compute/reports.go:175-219 | ends, keeps the invariant, and with non-negative weights comes to one flat pass over the lines |
| Runs.RunKeepsInv | compute/reports.go:175-331 | the invariant holds after any sequence of statuses, votes, expiries, evaluations and threshold changes |
| Runs.DisturbancesOfRuns | types/line.go:656-731 | over every run: disjoint disturbances, at most one ongoing, officially ended exactly if official and ended, with the same end |
| Runs.AvailabilityOfRuns | types/line.go:424-448 | end to end: after every run, down time is the open and disturbed part of the window and availability the undisturbed share, in [0, 1], official no lower than overall |
| Runs.OfficialEndIsFinal | compute/reports.go:207-209 | once an evaluation has run during an official disturbance, its official end, whatever comes between but votes for the line, is followed by no restart unless a new vote or status for the line comes, with positive thresholds |
| Runs.FirstIsObservedIff | compute/reports.go:227-230 | over every run, a line has had a disturbance exactly if a downtime of it was observed; votes never start the first one |
| Runs.StartsOfRuns | compute/reports.go:221-306 | after every run, a start that votes bring about is dated now or back, and in the latter case with the line's own earliest report exactly if none of another line is earlier |
| Connections.GetConnectionsFrom | types/connection.go:175-201 | the rows out of a station, in table order |
| Connections.FindCandidates | types/connection.go:229-248 | the rows that lead on, not straight back, to a station sharing a line |
| Connections.ProvideClosedCompat | types/connection.go:207-269 | builds the view, edge by edge |
| Connections.InView | types/connection.go:207-269 | an edge is in the view exactly if it is a row to an open station or the composition of a row to a closed one with a row that leads on |
| Views.ViewIsComplete | types/connection.go:214-267 | the view lists one edge for every row to an open station and one for every two rows that lead past a closed one, made of them as stated, in the order of their places in the table, and nothing else |
| Connections.NoEdgeEndsClosedIff | types/connection.go:203-206 | no edge of the view ends at a closed station exactly if no row leads on from one closed station to another |
| Connections.ExpansionOfWalk | types/connection.go:250-262 | a walk of the view stands for an original walk with the same ends, travel time and length, and is recovered from it |
| Connections.ContractionOfWalk | types/connection.go:250-262 | a walk that passes closed stations pairwise contracts to a walk of the view that expands to it |
| Connections.WalksOfTheView | types/connection.go:207-269 | the walks the view stands for are exactly the contractible ones |
| Connections.PassingIsContractible | types/connection.go:220-263 | ending at an open station, never turning back at a closed one and passing it only between stations of one line is enough |
| Connections.WalksThatPass | types/connection.go:207-269 | if no row joins two closed stations, the view stands for exactly the walks that pass |
| ConnectionUpdates.Connection.Fake | types/connection.go:250-262 | a composite edge holds references to the two connections it stands for |
| ConnectionUpdates.Connection.Update | types/connection.go:304-345 | storing writes the halves, in place and in the table, with the correcting loop making up what the division lost; the edge itself is unchanged |
| ConnectionUpdates.UpsertRows | types/connection.go:330-339 | storing a row replaces the one with its key and keeps all others, keys staying unique |
| ConnectionUpdates.StoredRows | types/connection.go:310-328 | storing a composite edge changes exactly the rows of its two halves |
| ConnectionUpdates.SplitIsExactIff | types/connection.go:311-316 | the two halves add up to the stored time exactly if it is non-negative or even, and otherwise exceed it by one |
| ConnectionUpdates.HalvesAreEven | types/connection.go:311-320 | the halves differ by a second at most, which the second one takes; the waits go to the first one alone, and nothing else changes |
| ConnectionUpdates.PutThenGet | types/connection.go:310-328 | the rebuilt view shows the stored edge, once, with its stop and waiting times, and its travel time exactly if that is non-negative or even |
| ConnectionUpdates.PutLeavesOthers | types/connection.go:310-345 | storing an edge changes no edge of the view that shares no row with it |
| ConnectionUpdates.PutIsStable | types/connection.go:310-345 | what was stored is still shown after any number of edges sharing no row with it are stored |
| ConnectionUpdates.OddNegativeTravelIsLost | types/connection.go:311-316 | minus three seconds are stored and minus two are shown |
| TripTables.TripTable.UpdateUse | types/stationuse.go:122-188 | refused exactly if it ends before it begins or its lines do not fit its kind; otherwise it replaces the use stored for its station and entry time |
| TripTables.TripTable.UpdateUses | types/trip.go:332-346 | the loop repairs the times in place and stores the repaired uses; it fails at the first use whose lines do not fit, with the times up to that one repaired |
| TripTables.TripTable.Update | types/trip.go:302-348 | refused exactly for an invalid ID, a single use that is not a visit or a use whose lines do not fit, and then nothing is stored; otherwise the trip and its repaired uses are |
| TripTables.ReadInOrderIff | types/trip.go:106-114 | a trip is read in order, whatever the order of rows with equal times, exactly if no two of its rows overlap |
| TripTables.EditIsCoherentIff | types/stationuse.go:134-141 | storing a trip again leaves overlapping rows exactly if an old use that stays in place overlaps a new one |
| TripTables.EditIsReadInOrderIff | types/trip.go:332-346 | so exactly then an edited trip is not read in order |
| TripTables.HistoryIsCoherentIff | types/trip.go:332-346 | over every sequence of stores of a trip, its rows never overlap exactly if no store left a use in place that overlaps a new one |
| TripTables.StoredUsesHaveLines | types/stationuse.go:147-188 | uses are accepted exactly if interchanges, and only they, have two lines that differ; so after every sequence of accepted stores no interchange is read without its lines |
| TripTables.NewTripIsReadInOrder | types/trip.go:332-346 | a trip stored for the first time is read in order |
| TripTables.NewTripIsReadBackIff | types/stationuse.go:134-141 | it is read back as the repaired uses exactly if no two of them are of one station at one entry time |
| TripTables.EditLeavesOldUses | types/stationuse.go:134-141 | moving the entry time of a visit leaves the old one in place, and the trip is read out of order |
| Trips.RepairIsInOrder | types/trip.go:332-346 | repaired times never go back and none is earlier than it was |
| Trips.RepairIsLeast | types/trip.go:332-346 | of all such times the repaired ones are the earliest, pointwise |
| Trips.RepairFixes | types/trip.go:332-346 | repair leaves a trip alone exactly if its times are in order |
| Trips.RepairIsIdempotent | types/trip.go:332-346 | repairing twice is repairing once |
| TypicalSeconds.Sums.ProcessTransfer | compute/typseconds.go:47-57 | adds the measurement of a change of lines to the average of that transfer, unless it took too long |
| TypicalSeconds.Sums.ProcessConnection | compute/typseconds.go:59-78 | adds the measurements of one connection to the numerators and denominators of its three averages |
| TypicalSeconds.Sums.ProcessTrip | compute/typseconds.go:80-137 | adds the measurements of a trip: none from manual uses, unknown connections or forced extensions, and none from a missing transfer on |
| TypicalSeconds.Averages.Typical | compute/typseconds.go:157-197 | exactly the connections with two measurements or more get their rounded mean |
| TypicalSeconds.TypicalIsPlausible | compute/typseconds.go:47-76 | from trips in order, every typical time lies within the bounds of its quantity |
| TypicalSeconds.StoredTripsArePlausible | compute/typseconds.go:142-163 | from trips read from the table without overlaps, travel times lie in [20, 620] s, stop and waiting times in [-20, 160] s and means of transfers in [-20, 880] s |
| TypicalSeconds.HistoriesArePlausible | compute/typseconds.go:142-163 | the same of trips with any histories of stores in which no use left in place overlaps a new one |
| Measurements.SumsAreOfSteps | compute/typseconds.go:47-137 | numbers and totals are those of the measured steps of the trips, stated over their uses: stays of entries are waiting times and stays at stations gone through stop times, each less 20 s and under three minutes; gaps are travel times, 20 s more and under ten minutes; stays at interchanges are transfer times, under fifteen |
| Measurements.TypicalIsMeanOfSteps | compute/typseconds.go:157-197 | exactly the connections with two measured steps or more get a typical time, the mean of these to the nearest second |
| Measurements.TransferTimesAreNet | compute/typseconds.go:199-239 | a transfer time is the mean of the measured changes, less the mean stop time of the connections that lead on along the line changed to, to the nearest second |
| TypicalUpdates.WriteTimes | compute/typseconds.go:157-197 | the loop over one quantity sets the time of each connection that has a typical one, and stores just these connections, in order |
| TypicalUpdates.TransferTimes | compute/typseconds.go:199-245 | exactly the transfers with two measurements or more get their mean less the mean stop time of the connections that lead away on the line changed to |
| TypicalUpdates.UpdateTypicalSeconds | compute/typseconds.go:16-248 | the times computed are the means of all measurements of all trips, and the table and the connections in memory are as the three loops leave them |
| TypicalUpdates.TimesAreReadBack | compute/typseconds.go:157-197 | after the three loops the rebuilt view shows a composite connection that shares no row with another one measured with the times it has in memory, whichever of the loops stored it |
| TypicalUpdates.TypicalTimesAreReadBack | compute/typseconds.go:157-197 | so its typical travel, stop and waiting times are read back as computed, from trips with clean histories |
| TypicalUpdates.RowGetsTypicalTimes | compute/typseconds.go:157-197 | the row of a connection that is no composite ends up with the typical times there are and its old times otherwise |
| TypicalUpdates.OthersKeepTheirTimes | compute/typseconds.go:157-197 | a row of no connection with a typical time is left as it is |
| TypicalUpdates.TypicalTravelIsReadBack | compute/typseconds.go:157-197 | even where rows are shared, a typical travel time and the stop and waiting times stored with it are read back, whatever was stored before, the same connection included, and as long as nothing that shares a row with it is stored after |
| TypicalUpdates.TransferTimesArePlausible | compute/typseconds.go:199-239 | with stop times in given bounds, a typical transfer time lies within 20 s below and 880 s above them |
| Tracks.DistanceIsTrackTime | compute/vehiclehandler.go:122-151 | the distance added up is the time along the loop, one track, turn, other track, from the train to the user, and zero once the train has passed on the user's track |
| Tracks.MirroredTime | compute/vehiclehandler.go:122-151 | reading the line from its other end keeps every time along the loop |
| Arrivals.WaysAddUp | compute/vehiclehandler.go:122-151 | times along the loop add up over any place on the way |
| Arrivals.HopsTakeTheirTime | compute/vehiclehandler.go:125-131 | from a station to the next on the same track it takes the time of the connection |
| Arrivals.TurnsTakeTwoMinutes | compute/vehiclehandler.go:138-138 | a train takes 120 s to turn at either end |
| Arrivals.RoundSecondsIsNearest | compute/vehiclehandler.go:164-164 | the age of a report is rounded to the nearest second, halves away from zero |
| Vehicles.ScanFindsNearest | compute/vehiclehandler.go:160-232 | a scan finds nothing only if every train arrived too long ago, and otherwise the first nearest of the trains before the first farther one |
| Vehicles.NextTrainIsNearest | compute/vehiclehandler.go:160-232 | the other track is searched only if the user's own has nothing recent, and on the track used the train found is the nearest looked at |
| Vehicles.FoundTrainIsReal | compute/vehiclehandler.go:160-236 | a train found has a valid index, was reported there for its direction, is still to come, and has distance at least -30 s |
| Arrivals.ChooseLineIff | compute/vehiclehandler.go:80-97 | the line used is the last one with the direction as an end, moving down if it is the lower end and up otherwise; there is none exactly if no line has |
| Arrivals.NextIsFound | compute/vehiclehandler.go:160-232 | stated over stations and reports: the train found is expected, on the own track if any is expected there, and the first nearest of the expected ones up to where one is met farther than one before |
| Arrivals.NextIsUnique | compute/vehiclehandler.go:160-232 | there is only one such train |
| Arrivals.AnswersAreDetermined | compute/vehiclehandler.go:234-294 | there is an answer exactly if a train is expected, the condition is known and the figure is within 1.2 times a positive frequency; the figure is the time along the tracks less the age of the report or, where that is over 1.2 times what is left until the next train is due, the whole seconds of what is left |
| Arrivals.NoLineNoAnswer | compute/vehiclehandler.go:95-97 | without a line that ends in the direction there is no answer |
| Vehicles.AnswersAreBounded | compute/vehiclehandler.go:278-294 | every answer is at least -30 s, at most 1.2 times the train frequency of the line it is computed on, if that is positive, and, if a train was seen here and the next is not overdue, at most 1.2 times what is left of it |
| Vehicles.MirrorLaw | compute/vehiclehandler.go:153-232 | the question asked with the line listed from its other end finds the same train, so the duplicated branches agree |
| Vehicles.ListingOrderIsIrrelevant | compute/vehiclehandler.go:80-294 | reversing the station lists of all lines changes no answer |
| VehicleHandlers.VehicleHandler.GetConnectionDuration | compute/vehiclehandler.go:107-120 | filling the cache changes no duration that can be asked for |
| VehicleHandlers.VehicleHandler.GetTimeDistance | compute/vehiclehandler.go:122-151 | the closure's loops add up one track, or the rest of one, the turn and the other, with the durations in effect |
| VehicleHandlers.VehicleHandler.TravelFrom | compute/vehiclehandler.go:243-269 | the inline loops, written once more in the source, add up the time along the loop from the train to the user, if the train is still to come |
| VehicleHandlers.VehicleHandler.LookUpBefore | compute/vehiclehandler.go:161-176 | the scan for trains going up before a user who moves up, downwards from there, with its sentinel and break |
| VehicleHandlers.VehicleHandler.LookDownOpposite | compute/vehiclehandler.go:177-195 | the scan for trains going down, for a user who moves up, upwards from the lower end |
| VehicleHandlers.VehicleHandler.LookDownBefore | compute/vehiclehandler.go:197-212 | the scan for trains going down before a user who moves down, upwards from there |
| VehicleHandlers.VehicleHandler.LookUpOpposite | compute/vehiclehandler.go:213-231 | the scan for trains going up, for a user who moves down, downwards from the upper end |
| VehicleHandlers.TracksSought | compute/vehiclehandler.go:160-232 | scanning upwards and scanning downwards, station by station, are the one search over what is seen on a track |
| VehicleHandlers.VehicleHandler.FindTrain | compute/vehiclehandler.go:153-232 | the four scans in their two branches end in the state that reflects the search's result |
| VehicleHandlers.VehicleHandler.LineAnswer | compute/vehiclehandler.go:234-294 | the time added up once more, less the age of the report, is the minimum the search recorded, and the frequency rules apply to that |
| VehicleHandlers.VehicleHandler.NextTrainETA | compute/vehiclehandler.go:64-295 | the last line with the direction as an end is used, and the answer or failure is the one specified |
| Ledger.WeekStartIsUnique | posplay/posplay.go:419-433 | an instant is the week's start exactly if it is a Monday at 02:00 no later than now and less than seven days back |
| Ledger.LatestIsLatest | types/pp_player.go:154-160 | the transaction considered for merging is the player's latest |
| Ledger.XPLedger.DoXPTransaction | posplay/posplay.go:325-372 | the table and the queue change as recording specifies, merging included |
| Ledger.XPLedger.RegisterEventWin | posplay/posplay.go:200-283 | pays exactly if the player exists and has no transaction of that type for that event |
| Ledger.XPLedger.RegisterDiscussionParticipation | posplay/posplay.go:286-313 | pays exactly if the player exists, merging where that is allowed |
| Ledger.SumRecorded | posplay/posplay.go:331-353 | what recording, merged or not, does to any sum over the table |
| Ledger.TotalsAreConserved | posplay/posplay.go:331-353 | merged or not, one player's total, and the total of one type, rises by the value, and no other total changes |
| Ledger.WeekRisesByValueIff | posplay/posplay.go:337-348 | for any table, a transaction made now raises this week's balance by exactly its value, unless, and only unless, it takes over a future transaction of non-zero value |
| Ledger.ParticipationRaisesWeek | posplay/posplay.go:286-313 | over every run on a clock that does not go back, every participation, merged or not, raises the current week's balance by exactly its reward |
| Ledger.PastWeeksAreKept | posplay/posplay.go:337-341 | no balance over a window that ended before this week changes |
| Ledger.EventIsPaidOnce | posplay/posplay.go:218-233 | whatever is recorded between, a second attempt to pay a player for one event does nothing |
| Merging.MergesIff | posplay/posplay.go:332-371 | a transaction is merged exactly if that is attempted and the latest row of the player is of its kind and later than the start of the week; that row then has the new time and the sum of both values, and no other row changes; otherwise one row is added |
| Merging.ParticipationsAreWeeksApart | posplay/posplay.go:285-313 | over every run on a clock that does not go back, two participations of a player with nothing else of that player between them are of different weeks, unless the first is of the instant the week started |
| Merging.StartOfWeekIsNotMerged | posplay/posplay.go:338-338 | two participations of one week that are not merged, as the first is of the very instant it started |
| Merging.EventIsWorthItsReward | posplay/posplay.go:200-283 | an event not paid for yet is paid for with a row of its own, and whatever is recorded after, what the player has for it stays that reward |
| Merging.NothingMoreIsPaid | posplay/posplay.go:209-229 | a player with a row of that type for the event, and whoever is no player, is paid nothing |
| Achievements.StepShrinks | posplay/achievements.go:210-227 | processing a queued transaction decreases twice the open pairs plus the queue length and takes no achievement back |
| Achievements.DrainEnds | posplay/posplay.go:374-407 | processing until the queue is empty ends and takes no achievement back |
| Achievements.AchieveMatches | posplay/achievements.go:36-61 | an award pays its own reward to its own player, and nothing to others |
| Achievements.NothingIsTakenBack | posplay/achievements.go:128-227 | from any state on, no run of transactions, trips and processing takes an achievement back |
| Achievements.RewardsAreExact | posplay/achievements.go:36-61 | over every run, each player's reward transactions add up to the rewards of the achievements that player has |
| Rewards.EachIsPaidOnce | posplay/achievements.go:43-60 | over every run, a player has one transaction for each achievement held that has a reward, of that reward and dated as the achievement is, and none for any other |
| Rewards.LevelsAreDated | posplay/achievementstrategies.go:107-108 | what a transaction brings is dated a millisecond after it, and what was held stays as it was |
| Rewards.LookedAtInTurn | posplay/posplay.go:364-404 | over every run, transactions are looked at in the order in which they were recorded |
| Levels.RewardsComeAfter | posplay/achievementstrategies.go:107-108 | a reward does not change the balance as of the transaction that caused it |
| Levels.TransactionAwardsIff | posplay/achievementstrategies.go:79-114 | looking at one transaction brings a level achievement exactly if the player lacked it and crossed the level, whatever the other achievements pay meanwhile |
| Levels.LevelsAreAwardedIff | posplay/achievementstrategies.go:79-114 | over every run, a level achievement is held exactly if some processed transaction lifted its player from below the level |
| Levels.HappensSettles | posplay/posplay.go:325-407 | a player's balance, less what is waiting in the queue, changes only when a transaction is looked at, and then by what that one changed, merged or not |
| Levels.LevelsAreHeldIff | posplay/achievementstrategies.go:79-114 | over every run with one transaction waiting at a time and none dated after it, a level achievement is held exactly if the player's points made the level at some point |
| Levels.TwoRewardsHideALevel | posplay/achievementstrategies.go:92-106 | a run in which two rewards of one time take a player past a level, and the achievement for it is not given |
| Awards.LeftIsUnexcused | posplay/achievementstrategies.go:441-475 | what is left after a trip, and what is stored, are the stations not yet and already excused, given that the stored progress was |
| Awards.VisitsAreAwardedIff | posplay/achievementstrategies.go:425-500 | over every run, whatever else happens between the player's trips: held exactly if one trip visited every station, where a single trip is asked for, or else if every station was visited, or was closed at a trip other than the first; until then exactly those stations are stored |
| Awards.SubmissionsAreAwardedIff | posplay/achievementstrategies.go:824-911 | over every run, an achievement for submitting a trip, an edit or a report is held exactly by those who submitted one, trips and edits being of two stations or more |
| Awards.OtherTripsAreAwardedIff | posplay/achievements.go:155-172 | over every run, an achievement for a trip that meets other criteria is held exactly by those who submitted one that did |
| Awards.AwardsAreDated | posplay/achievementstrategies.go:855-911 | an achievement that is not for a level is won by a deed of the player, dated a millisecond after the trip or at the time of the report, and stays as it is once held |
| PosPlay.Processor.AchieveAchievement | posplay/achievements.go:36-61 | the row is marked achieved and a non-zero reward recorded |
| PosPlay.Processor.HandleXPTransaction | posplay/achievementstrategies.go:79-114 | skips an achieved achievement, and awards on crossing the level |
| PosPlay.Processor.HandleVisits | posplay/achievementstrategies.go:438-498 | filters, stores progress and awards as specified |
| PosPlay.Processor.HandleTrip | posplay/achievementstrategies.go:425-500 | skips an achieved achievement, and otherwise does what its strategy does |
| PosPlay.Processor.HandleTripEdit | posplay/achievementstrategies.go:855-883 | awards an achievement for edits, unless achieved, for a trip of two stations or more |
| PosPlay.Processor.HandleDisturbanceReport | posplay/achievementstrategies.go:886-911 | awards an achievement for reports, unless achieved, at the time of the report |
| PosPlay.Processor.ProcessTrip | posplay/achievements.go:155-172 | every achievement gets to see the trip, in order |
| PosPlay.Processor.ProcessTripEdit | posplay/achievements.go:174-191 | every achievement gets to see the edit, in order |
| PosPlay.Processor.ProcessReport | posplay/achievements.go:193-208 | every achievement gets to see the report, in order |
| PosPlay.Processor.ProcessXPTx | posplay/achievements.go:210-227 | every achievement gets to see the transaction as it was read, in order; an unknown transaction or player changes nothing |
| PosPlay.Processor.SerialProcessor | posplay/posplay.go:374-407 | the loop ends with an empty queue, in the state the drain specifies, with no achievement taken back |

## Left out

- Database access, nested transactions, rollback and the object cache: tables are sequences and maps, a query is its filter and order, and a public operation is one atomic step; database errors do not occur.
- Goroutines, channel capacities and blocking sends: steps are serial, queues are unbounded and first-in first-out. An evaluation that the source starts in the background takes place at once.
- Lines.Node.AddStatus: status and disturbance IDs, message types and the order of statuses with equal times are not modelled; of two equal times the one inserted later counts as the latest.
- Runs.RunKeepsInv: the expiry of reports is a step that removes a report at any time, without the evaluation the hook then runs, which is a step of its own.
- ReportHandlers.ReportHandler.AddReportManually: how a report's weight is found (`getVoteWeightForReport`) and the refusal of reports for closed lines are left out; the weight is an input.
- ReportHandlers.ReportHandler.EvaluateSituation: the vote threshold of a line is an integer input that can change between evaluations; its logarithm of the number of users, moving average, multiplier and offset are not modelled. A negative weight is safe but not covered by the flat pass.
- Reports.StartedIsGood: a start reads the clock once, where the source reads it twice in succession.
- Time zones and daylight saving: civil days have equal length, and the day of the year is a parameter of the calendar.
- Schedules.GetOpenSpans: a day without a schedule, for which the source dereferences nil, is excluded by `Resolves`. The source never reads a schedule's open flag here, so a closed day is one with an opening of zero length.
- Schedules.ScheduleIsTheOne: assumes that the holidays of a network are in order, as the binary search does.
- Schedules.OpenSpansAreExact: assumes that a line opens on the day in question and closes before it opens the next day (`Proper`, which `ProperIff` and `SchedulesAreProper` put in terms of schedules). The intersection of timespans, a library function, is taken to be the ordinary one of half-open intervals.
- Availability.Availability: ratios are exact, over `real`; the value for zero over zero, not a number in the source, is `None`.
- Connections.ProvideClosedCompat: the destination platform of a composite edge is that of its first half, as in the source.
- ConnectionUpdates.PutThenGet: composite edges that share a half overwrite each other in the source and here; the law is about one stored edge, and `PutIsStable` about later ones that share no row with it.
- ConnectionUpdates.Connection.Update: lookups of single connections and their caches are left out; a composite edge's halves are taken to be distinct objects of plain connections.
- TripTables.TripTable.Update: the ID's format is an input; the array holds the uses, without aliasing between them.
- TypicalUpdates.UpdateTypicalSeconds: the connections are given as the trips' pairs of stations look them up, in one order for all three loops, and the rows of transfers are not stored; sums are exact in milliseconds. Connections that share a row in memory are modelled apart, so what the source makes of such sharing is not.
- TypicalSeconds.Sums.ProcessTrip: a use of an interchange without lines, which cannot be stored, counts as an unknown transfer.
- VehicleHandlers.VehicleHandler.NextTrainETA: no computed time reaches the largest integer (`Fits`), so that it can serve as the sentinel; registering passengers, with the list of the last hundred readings, and clearing the cache are left out, and keys are pairs instead of joined strings. The scans and the inline sum, each with its own loops as in the source, are methods of their own, without anything shared. A line is a list of distinct stations.
- Vehicles.AnswersAreBounded: the factor 1.2 is exact.
- Ledger.WeekStartIsUnique: local civil time, as above; the month's start is left out.
- Ledger.XPLedger.DoXPTransaction: equal transaction times resolve to the one inserted later.
- Achievements.RewardsAreExact: assumes that no other part of the system records transactions of the reward's type and that achievement IDs are distinct. The strategies for visiting a line throughout and for travelling during a disturbance appear as the set of achievements whose criteria a trip meets.
- The event participation strategy counts transactions by a query on the player table, which has no type column; the query always fails, so this achievement is never given, and the model gives it for no transaction.
- Awards.VisitsAreAwardedIff: assumes distinct achievement IDs; a submission is by a player, as looked up from the pair.
- Levels.LevelsAreAwardedIff: the level is an arbitrary function of the points.
- Levels.LevelsAreHeldIff: about levels that nobody starts at, once nothing waits in the queue; for other runs only the crossing in `LevelsAreAwardedIff` is exact.
- Rewards for trips (`processTripForReward`), notifications, HTML, bots, the HTTP and MQTT interfaces, scrapers, scripting and authentication.
