# Transit Late Again: a verified model

Transit Late Again polls GTFS-realtime feeds for Sydney, matches each update against the
timetable, keeps what is new, and rolls the stop visits up into hourly punctuality statistics that
outlive the raw rows. This Dafny project models the path from a realtime update to an hourly
statistic, and the arithmetic guards around it, and proves what that path keeps over every run.

| files | what they model |
|---|---|
| `Instants`, `Zones`, `Sydney`, `ServiceTime`, `Numerals`, `StopTimes` | instants, Sydney's daylight saving, GTFS service days and stop times |
| `Timetable`, `Dating`, `SpanDates`, `LastWins`, `Matcher`, `Delays`, `Match`, `Outcomes` | the matcher: resolving a stop, choosing a service date, what a row says of its update, one row for each key of a poll |
| `Observations`, `Filter`, `Columns`, `Pipeline`, `Ingest` | ingestion: the change filter, the protocol between pollers, queue and writer, and the code that follows it |
| `Remembered`, `Survivors`, `LastWord`, `Silence` | what ingestion keeps over every run: what the filter remembers, what becomes of what it lets through, the last word stored on a visit, and what a failed write does |
| `RollupQuery`, `RollupTables`, `Rollup`, `RollupRuns`, `RollupCounts`, `RollupTotals`, `TableRows`, `RollupJob`, `Maintenance` | the hourly rollup, what each row of its tables says, the daily partitions and their retention |
| `Buckets`, `Limiter`, `Promptness`, `IpLimiter`, `Waiting` | the throttle on requests upstream and the limit on each client |
| `MatchedRows`, `GivenDates`, `EndToEnd` | what the rollup may rely on in the matcher's rows, and what the statistics then say of the feed |
| `Gathering`, `Cache`, `Showing`, `History`, `Merging`, `Migrate` | the latest-state cache and what it shows, the merging of hourly rows, the migration runner |

Code that changes state is a class or a method with its loops; what it computes is a function of
the state before, and the theorems are about those functions over whole runs. Instants are whole
nanoseconds, dates are day numbers, tokens are reals. A clock reading is a parameter. Every lemma
carries `{:induction false}`: none relies on automatic induction.

## What the proofs found

- **Retention and the sentinel.** Dropping partitions is invisible exactly when no row is bucketed
  before 2000-01-01, the instant the watermark is seeded with: until the first rollup the guard
  takes every older row for rolled up (`RollupRuns.RetentionIsInvisibleExactly`).
- **Counting twice.** The comment at `internal/rollup/job.go:32` says nothing is ever counted
  twice. Of a visit that holds exactly when it keeps to one hour. A visit without a scheduled time
  that the feed mentions again after its hour was rolled up is counted again
  (`RollupCounts.AtMostOnceExactly`).
- **The pruned query**, visit by visit. Reading only the rows that can matter is exact for a visit
  exactly when each of its rows but the last is overtaken by a later one that every window with the
  first reads too (`RollupQuery.PrunedQueryIsExactly`). Rows that agree on a scheduled time, and rows
  in one hour, are (`RollupQuery.AgreeingIsEnough`); a visit that is not harms no other.
- **Trips that call at a stop twice.** Made under one timetable, the rows of every visit agree on
  its scheduled time exactly when no trip calls twice at a stop with a scheduled time
  (`MatchedRows.HomogeneousExactly`): a loop service's two calls share a key.
- **The service-date bounds** of the rollup's query hold for stop times below 71 hours, and in
  Sydney for no more (`RollupQuery.DatesReadExactly`). The configured limit of 48 hours is safe. An
  unscheduled row that the producer's `start_date` dated, alone of its visit, is counted by the
  rollup of its hour exactly when that date lies from two service days before the hour to one after,
  and otherwise never (`GivenDates.GivenDateIsCountedExactly`); a trip announced four days ahead is
  in no statistic (`GivenDates.GivenDateCanBeMissed`).
- **Timestamps that step back.** PROJECT.md:1362 says of a header timestamp that goes backwards not to
  reject it, as the rollup ignores the additional row. `internal/ingest/filter.go:61-64` says that
  remembering the match keeps a row from staying unmatched for good. Both overlook that the filter
  remembers the last value it let through, in the order the polls came, while the table's last word
  is the newest by timestamp and of two at one timestamp the first written. A changed value that is
  not later is let through and written, is not the last word, and is suppressed whenever the feed
  repeats it, with nothing dropped or failed (`LastWord.SteppingBackIsSilenced`); so is the match of
  a trip whose timetable loads between two polls of one header (`LastWord.MatchComesTooLate`). The
  next change let through becomes the last word exactly when it is later than the last one let
  through (`LastWord.NextChangeIsKeptExactly`).
- **A failed batch** silences its visits. The comment at `internal/ingest/writer.go:150` relies on the
  feed's repeating itself, but the filter remembers the lost values and suppresses what repeats them
  until they change, or the filter forgets the visit (`Silence.FailedWriteSilences`). A feed that
  only repeats itself never gets a row stored (`Silence.RepeatedAndNeverStored`); whatever ends the
  memory lets the lost value pass (`Silence.ForgottenPasses`).
- **Long and short service days.** PROJECT.md section 9.2 and the tests speak of a 23-hour and a
  25-hour Sunday. Measured from service-day start to service-day start, which is what the code does,
  it is the Saturday before each change that is short or long (`ServiceTime.ServiceDayLength`).
- **Telling yesterday's run from today's.** Where two dates are tried the date picked is that of the
  run the update is about, for every update within SERVICE_DATE_TOLERANCE of its schedule, exactly
  while twice the tolerance is below 23 hours (`Dating.RunsAreDatedExactly`). A cancellation, and an
  update of no call of its trip, is dated by the trip's span: there the trip's own length counts as
  well, so a trip of eleven hours or more can be dated a day late at the default tolerance of six
  (`SpanDates.SpansAreDatedExactly`).
- **Waiting as told.** The client limiter truncates the wait it tells to whole nanoseconds. A client
  silent for just that long is then allowed, in every run, exactly when the rate is at least one and
  a token takes a whole number of nanoseconds (`Waiting.WaitsWorkExactly`). At three a second it does
  not: told to wait 333 333 333 ns, a client is refused again at that very instant
  (`Waiting.ThirdOfASecondIsTooShort`). The Retry-After header, in whole seconds rounded up, can be
  relied on exactly when the rate is at least one (`Waiting.RetryAfterWorksExactly`); a lower positive
  rate is accepted by the configuration but allows no request at all.
- **Upstream requests** wait a number of nanoseconds truncated to a whole one, so one can go out a
  nanosecond early. The bound of burst + rate * T in every window of length T therefore holds, over
  all runs, exactly when one token takes a whole number of nanoseconds: at four requests a second it
  does, at three it does not (`Limiter.RateIsKeptExactly`, `Limiter.ThreeASecondExceeds`). With a
  nanosecond's slack it holds at every rate (`Limiter.RateIsKept`). No request waits for nothing: sent
  a nanosecond sooner, a delayed one would break the bound (`Promptness.DelayedOnlyIfNeeded`).
- PROJECT.md section 9.3 has retention compare a service date's end with the watermark and refuse
  otherwise. The code compares the partition's own rows, skips a pending partition with a warning,
  and goes on; the model follows the code.

## Model

| member | source | states |
|---|---|---|
| `Zones.Zone.MidnightStartsDate` | internal/api/handlers_history.go:183-189 | an instant is on or after a calendar date exactly when it is not before that date's midnight, in any zone that changes its clocks at two in the morning |
| `Zones.Zone.MidnightBeforeMonotonic` | internal/api/handlers_history.go:183-200 | midnights keep the order of instants, and two instants share one exactly when they share their calendar date |
| `Sydney.DaylightChanges` | internal/servicetime/servicetime.go:56-65 | clocks go forward exactly on the first Sunday of October and back exactly on the first Sunday of April, in every year |
| `ServiceTime.StartPrecedesNoon` | internal/servicetime/servicetime.go:56-65 | a service day starts twelve real hours before the one instant at which clocks show noon on its date |
| `ServiceTime.StartsAscend` | internal/servicetime/servicetime.go:56-72 | service days start in order, n days apart to within the hour of a clock change |
| `ServiceTime.ServiceDayLength` | internal/servicetime/servicetime.go:56-65 | a service day lasts 23, 25 or 24 hours: short and long on the eves of the two Sundays |
| `ServiceTime.OwningDay` | internal/servicetime/servicetime.go:74-82 | the service day that had most recently started: start(d) <= t < start(d + 1) |
| `ServiceTime.OwningDayIsUnique` | internal/servicetime/servicetime.go:74-82 | no other day's service owns an instant |
| `ServiceTime.CalendarDateIsNear` | internal/servicetime/servicetime.go:84-97 | an instant's service day is at most one off its calendar date, so that the search ends within three steps |
| `ServiceTime.OwningDayMonotonic` | internal/servicetime/servicetime.go:74-98 | a later instant has the same owner or a later one |
| `ServiceTime.CandidateServiceDates` | internal/servicetime/servicetime.go:83-98 | the downward search returns the owner, and the day before it exactly when the owner's start is less than overlap ago |
| `StopTimes.ParseGTFSTime` | internal/servicetime/servicetime.go:31-54 | succeeds exactly on a text whose three fields form a time, with its seconds in Go's 64-bit int |
| `StopTimes.TimesAre` | internal/servicetime/servicetime.go:31-54 | a text is accepted exactly when it is three colon-separated numbers in range, padded or not |
| `StopTimes.WrittenIsRead` | internal/servicetime/servicetime.go:31-54 | every count of seconds, written as GTFS writes it, hours past 23 included, is read back |
| `StopTimes.FieldsAreRead` | internal/servicetime/servicetime.go:31-54 | of a time accepted, hours, minutes and seconds are those its count of seconds has, so that minutes and seconds below sixty only are accepted |
| `Timetable.ResolveStop` | internal/match/matcher.go:338-366 | returns the call resolved by order 1, else by order 2, else none; ambiguous exactly when order 1 fails and the stop is called at twice |
| `Timetable.UnresolvedExactly` | internal/match/matcher.go:353-365 | an update with a stop that order 1 does not place stays unresolved exactly when the trip calls there never or more than once |
| `Timetable.ResolvedIsMeant` | internal/match/matcher.go:338-366 | an update that names a stop is never resolved to a call at another, and one that names none only to the first call with its sequence |
| `Timetable.SequenceDecides` | internal/match/matcher.go:341-352 | the first call with the update's sequence, if it is at the update's stop, is the one resolved, however often the trip calls there |
| `Timetable.AmbiguousExactly` | internal/match/matcher.go:353-366 | an update is ambiguous exactly when it names a stop, is not resolved and its trip calls there more than once |
| `Timetable.SequenceMeansOrderOne` | internal/match/matcher.go:221-226 | sequences being distinct, comparing the resolved call's sequence with the update's counts exactly the updates that order 1 resolved |
| `Timetable.Span` | internal/match/matcher.go:319-336 | the least and the greatest of a trip's known times, or none |
| `Dating.IsNear` | internal/match/matcher.go:303-317 | whether an instant lies within tolerance of the scheduled time, or of the trip's span if there is one |
| `Dating.PickDate` | internal/match/matcher.go:278-301 | the first candidate that the service runs on and that is near, else the first it runs on, else the first |
| `Dating.FirstNearIs` | internal/match/matcher.go:292-296 | the date found is near, and none is found only if none is near |
| `Dating.RunningAre` | internal/match/matcher.go:286-291 | the dates kept are exactly the candidates on which the service runs |
| `Dating.RunsAreDatedExactly` | internal/match/matcher.go:278-317 | in Sydney the date picked is that of the run an update is about, for every timetable, candidate date and instant within tolerance of the scheduled time, if and only if only one date is tried or twice the tolerance is below 23 hours |
| `Dating.RunIsDated` | internal/match/matcher.go:278-301 | the candidate date on which the run is near is the one picked, in any zone, while twice the tolerance is below 23 hours |
| `SpanDates.RunIsDatedBySpan` | internal/match/matcher.go:278-317 | for an update of a trip as a whole, the candidate date on which the trip runs, from tolerance before its first time to tolerance after its last, is the one picked, in any zone, while the trip's length and twice the tolerance are below 23 hours |
| `SpanDates.SpansAreDatedExactly` | internal/match/matcher.go:278-317 | in Sydney that is so for every trip of a length, if and only if only one date is tried or the length and twice the tolerance are below 23 hours |
| `SpanDates.OutOfReachIsNotPicked` | internal/match/matcher.go:311-316 | a date on which the trip is out of reach is not picked when there is one on which it runs within reach, however long the trip |
| `SpanDates.PickedIs` | internal/match/matcher.go:286-300 | the date picked is the first candidate that runs and is near; if there is none, the first that runs; if there is none, the first |
| `Matcher.DepartureIsDerived` | internal/match/matcher.go:368-394 | a departure time gives back the instant it names and exactly the delay it implies |
| `Matcher.DepartureRoundTrips` | internal/match/matcher.go:124-252 | an update that gives of a scheduled run's departure only its time, within tolerance of its schedule, gives one row, whatever it says of arrival: under the run's own service date and stop, with its scheduled time and, as the delay observed, exactly the departure's |
| `Delays.DepartureDelayIsObserved` | internal/match/matcher.go:453-458 | a departure's delay that the feed gives is the delay observed, whatever it says of arrival and whatever its times say, whether or not the timetable has the trip or resolves the stop |
| `Delays.ArrivalDelayIsObserved` | internal/match/matcher.go:453-458 | without a word of the departure the arrival's delay is |
| `Delays.ArrivalRoundTrips` | internal/match/matcher.go:368-458 | an update that says only when a run arrives gives one row, under the run's own service date, with exactly the arrival's delay observed |
| `Delays.NothingIsDerivedUntimed` | internal/match/matcher.go:373-376 | at a call without a time no delay is made of the feed's times |
| `Delays.CancelledCalls` | internal/match/matcher.go:183-203 | a cancelled trip gives a row for each of its calls, in order and without any delay |
| `Delays.DisagreesExactly` | internal/match/matcher.go:373-385 | the producer's delay wins over its time; the two disagree exactly when they differ by more than the tolerance either way |
| `Delays.RowSays` | internal/match/matcher.go:397-441 | a row has the feed, trip, vehicle, timestamp and statuses of its update, is matched exactly when the timetable has the trip, and then has its route and, if known, its direction |
| `Delays.RowIsPlaced` | internal/match/matcher.go:183-244 | a row with a sequence is for a call of its trip, at its stop, at its departure or else arrival on the row's service day; one without has no scheduled time |
| `Outcomes.UnplacedOutcomes` | internal/match/matcher.go:145-219 | what exactly each counter of updates without a place counts: unreadable dates, no schedule, added trips, unknown trips, updates without a stop |
| `Outcomes.TripOutcomes` | internal/match/matcher.go:183-203 | of a trip as a whole a cancellation counts, if the timetable has the trip, by as many stops as it calls at; all else is skipped |
| `Outcomes.StopOutcomes` | internal/match/matcher.go:205-244 | an update of a stop is a full match exactly when it is resolved, and counts for the trip only exactly when the timetable has the trip, the update names a stop, and it is not |
| `Outcomes.MatchOutcomes` | internal/match/matcher.go:221-244 | a full match is by sequence exactly when the call's is the update's, and disagrees exactly when arrival or departure does |
| `Outcomes.UnknownStopIs` | internal/match/matcher.go:145-156 | a stop is counted unknown exactly when the update names one, the timetable knows stops, and not that |
| `Outcomes.DateIs` | internal/match/matcher.go:265-276 | a row has the producer's date if there is one; otherwise a row of a trip the timetable lacks has the service day begun when the feed was made |
| `Outcomes.CancellationIsDated` | internal/match/matcher.go:183-203 | the rows of a cancellation are of the run that is within tolerance of its span when the feed was made |
| `Outcomes.TripRowIsDated` | internal/match/matcher.go:205-219 | an update of none of its trip's calls gives one row, matched and without a scheduled time, of the run within tolerance at the departure, or else arrival, it gives |
| `LastWins.FirstsAre` | internal/match/matcher.go:131-143 | the keys kept are all that came, in the order of their first appearance |
| `LastWins.KeepsNew` | internal/match/matcher.go:141-142 | appending the value of a new key keeps one value for each key, the last |
| `LastWins.KeepsAgain` | internal/match/matcher.go:136-140 | overwriting the value of a known key keeps one value for each key, the last, at the place of the first |
| `Match.Poll.Add` | internal/match/matcher.go:134-143 | one more observation, with the rows still the last of each key and each duplicate counted |
| `Match.Poll.TakeUnscheduled` | internal/match/matcher.go:162-181 | an update of a trip the timetable does not have: what it produces and which counter it moves |
| `Match.Poll.TakeCancelled` | internal/match/matcher.go:183-203 | a cancellation produces one observation without delay for every call of the trip |
| `Match.Poll.TakeUnresolved` | internal/match/matcher.go:205-219 | an update of a scheduled trip that is about none of its calls |
| `Match.Poll.TakeVisit` | internal/match/matcher.go:221-244 | an update resolved to a call: one observation at the call, and the three counters of a full match |
| `Match.Poll.Take` | internal/match/matcher.go:145-245 | an update adds the observations it produces and moves the counters of its one outcome |
| `Match.Match` | internal/match/matcher.go:121-252 | of a poll: the rows are the last of each key of all produced, the counters are those of the updates' outcomes, and rows + duplicates = NoSchedule + Added + UnknownTrip + TripOnly + FullMatch + CancelledStops |
| `Match.OneRowPerKey` | internal/match/matcher.go:131-143 | every key produced has one row, the last observation produced for it, and rows stand in the order of first appearance, so no two share a key |
| `Match.TallyCounts` | internal/match/matcher.go:15-36 | each counter is the number of updates with its outcome, and CancelledStops the calls of the cancelled trips |
| `Match.OneOutcomeEach` | internal/match/matcher.go:15-36 | every update falls in exactly one outcome: the counters and the cancellations add up to Updates |
| `Match.ProducedAddUp` | internal/match/matcher.go:162-246 | as many observations are produced as the outcomes counted say |
| `Observations.InsertKeepsKeysUnique` | internal/ingest/writer.go:16-36 | inserting a batch leaves no two rows with one primary key |
| `Observations.ReplayIsNoOp` | internal/ingest/writer.go:21-23 | replaying rows of a batch, in any order and number, writes nothing |
| `Observations.InsertFromCatalogue` | internal/ingest/writer.go:21-36 | while a key always comes with the same row, inserting is union |
| `Filter.Filter.Admit` | internal/ingest/filter.go:83-116 | lets an observation pass exactly when its key is unknown or its value changed, records it, counts it, and evicts exactly when a new key meets a full map |
| `Filter.Filter.EvictOldest` | internal/ingest/filter.go:177-196 | removes a tenth of the entries and at least one, each older than every one kept |
| `Filter.RemoveOldest` | internal/ingest/filter.go:180-196 | the loop over the sorted keys removes exactly the oldest tenth |
| `Filter.TenthGoes` | internal/ingest/filter.go:177-196 | an eviction takes one entry in ten, rounded down, and at least one |
| `Filter.OldestAreUnique` | internal/ingest/filter.go:177-196 | only one set of keys is the oldest tenth |
| `Filter.Filter.ExpireBefore` | internal/ingest/filter.go:134-152 | removes exactly the entries of earlier service dates, and counts them |
| `Filter.Filter.Forget` | internal/ingest/filter.go:154-168 | removes one key and changes nothing else |
| `Columns.ColumnsOf` | internal/ingest/writer.go:226-265 | transposing a batch loses nothing: unnesting gives back every row in order, with its two statuses narrowed to 16 bits |
| `Columns.RoundTripsExactly` | internal/ingest/writer.go:205-274 | what reaches the database is the batch itself exactly when every status fits 16 bits |
| `Pipeline.ConservationAlways` | internal/ingest/pipeline.go:83-140 | in every reachable state admitted = dropped + in flight + queued + in the batch + written + conflicts + failed; nothing is in flight once producers stopped, nothing held once the writer exited |
| `Pipeline.CleanCloseLosesNothing` | internal/ingest/pipeline.go:103-141 | after a Close without error of a started pipeline nothing is in flight, queued or in a batch: all that was admitted was dropped, written, in conflict or failed |
| `Pipeline.InsertGrows` | internal/ingest/writer.go:186-196 | a batch inserts at most one row for each of its own, so the conflicts counted are never negative |
| `Remembered.AlwaysRemembersQueued` | internal/ingest/pipeline.go:83-101 | under every interleaving, what the filter remembers of a key is what is on its way or else what was last queued under it |
| `Remembered.NeverSilenced` | internal/ingest/pipeline.go:88-101 | an observation is suppressed only when an equivalent one was the last queued of its key, with no drop of the key since |
| `Survivors.StepMoves` | internal/ingest/pipeline.go:78-101 | every step of the protocol leaves what is on its way of a visit as it is and in its order, but for what the filter lets through, which joins last, what is written, which leaves first, and what is lost |
| `Survivors.AdmittedSurvive` | internal/ingest/pipeline.go:78-101 | while nothing of a visit is lost, what was written of it and what is on its way are together what was let through, in its order |
| `Survivors.StoreIsWritten` | internal/ingest/writer.go:16-36 | in every reachable state the table holds of a visit what writing its observations alone would have made of it: other visits and replays make no difference |
| `Survivors.NewestIsLastWord` | internal/rollup/rollup.go:74-86 | the last word on a visit is the newest of what was written of it in whatever order, and of several with one timestamp the first |
| `LastWord.LastPassedSurvives` | internal/ingest/filter.go:83-196 | in every reachable state the last observation let through is the last of those written or on their way, unless it was itself lost |
| `LastWord.LastWordIsNewest` | internal/ingest/filter.go:71-74 | once nothing of a visit is on its way its last word is the newest of what was let through and not lost, whatever the order of timestamps and whatever was lost |
| `LastWord.LastWordIsKept` | internal/ingest/filter.go:71-74 | once nothing of a visit is on its way, if the last let through is not itself lost and none that survived is later, or as late with another value, then the last word stored has the statuses, as their columns hold them, the match and delay presence of the last observation offered, and a delay within the threshold, whatever was evicted, expired, suppressed, dropped or failed |
| `LastWord.InOrderIsLatest` | internal/ingest/filter.go:71-74 | that condition on timestamps holds when each observation let through comes no earlier than the one before, nor at the same time with another value |
| `LastWord.NextWordIsKeptExactly` | internal/ingest/filter.go:71-74 | from any state with nothing of the visit on its way, one more observation let through and stored is what the table then says, if and only if it is later than the last word or says the same |
| `LastWord.NextChangeIsKeptExactly` | internal/ingest/filter.go:85-116 | of a visit the filter remembers, whose last let through is its last word in the table, the next change becomes the last word, if and only if its timestamp is later |
| `LastWord.SteppingBackIsSilenced` | PROJECT.md:1362 | a change that is not later is let through and written, never becomes the last word, and its repetitions are suppressed, with nothing dropped, failed or on its way |
| `LastWord.MatchComesTooLate` | internal/ingest/filter.go:61-64 | so a visit written unmatched and then matched at the same header timestamp stays unmatched, and every later repetition of the match is suppressed |
| `Silence.MemoryEndsExactly` | internal/ingest/filter.go:85-196 | what the filter remembers of a visit changes exactly when the visit is expired, evicted or dropped, or a changed value of it passes |
| `Silence.ForgottenPasses` | internal/ingest/filter.go:85-196 | a step that ends the memory of a visit, and no other, lets the value that was remembered pass again |
| `Silence.FailedWriteSilences` | internal/ingest/writer.go:150-184 | after a batch is lost, an observation that repeats a lost value is suppressed and no row of its visit is stored, for as long as nothing makes the filter forget |
| `Silence.RepeatedAndNeverStored` | internal/ingest/writer.go:150-184 | a visit whose first batch fails is never stored however often the feed repeats it |
| `Ingest.Intake.Submit` | internal/ingest/pipeline.go:78-101 | each call is a stretch of a run of the protocol: queued exactly when it passes and there is room, and a drop leaves the key unknown to the filter |
| `Ingest.Writer.WriteBatch` | internal/ingest/writer.go:150-203 | a batch is stored whole or not at all and each row is counted once as written, conflicting or failed, also when an earlier try had stored it unseen |
| `Ingest.Writer.Take` | internal/ingest/writer.go:122-147 | one turn of the writer's loop is a stretch of a run of the protocol |
| `Ingest.Writer.Run` | internal/ingest/writer.go:102-148 | whatever comes in whatever order, and whatever producers, maintenance and shutdown do between its turns, the loop's steps interleaved with theirs are a run of the protocol: it exits exactly on a drained channel or its deadline, having flushed what it held, and never holds a full batch |
| `Ingest.OthersLeaveWriter` | internal/ingest/writer.go:41-57 | no step of others touches the writer's batch, counters or table |
| `Ingest.NewPipeline` | internal/ingest/pipeline.go:44-57 | a pipeline as it is wired up stands where the protocol starts |
| `RollupQuery.PrunedQueryIsExactly` | internal/rollup/rollup.go:65-86 | whatever other visits are like, the query finds of a visit whose dates are in reach just the last of all its rows, bucketed, in every window, if and only if each row but the last is overtaken by a later one that every window with the first reads |
| `RollupQuery.AgreeingIsEnough` | internal/rollup/rollup.go:65-69 | rows that share one scheduled time, or have none, or keep to one hour, are overtaken |
| `RollupQuery.PrunedQueryIsExact` | internal/rollup/rollup.go:65-86 | when that is so of all visits the query gives the last word of each, bucketed |
| `RollupQuery.ForgottenRowsDoNotMatter` | internal/rollup/rollup.go:65-86 | of such a visit the query finds the same when its rows bucketed before the window have been dropped, whatever was dropped of others |
| `RollupQuery.DatedToBeRead` | internal/rollup/rollup.go:69-72 | every window that has a row reads its service date, if and only if the date is no earlier than two service days before the row's hour begins and no later than one after it ends |
| `RollupQuery.DatesReadSuffice` | internal/rollup/rollup.go:69-72 | the service-date bounds exclude no row that the matcher dated and that is bucketed in the window, in any zone, for stop times below 71 hours |
| `RollupQuery.DatesReadExactly` | internal/rollup/rollup.go:69-72 | in Sydney every row that the matcher dated is read in each of its windows, if and only if stop times stay below 71 hours |
| `RollupTables.PercentileSplits` | internal/rollup/rollup.go:106-107 | a percentile is a delay of the group that the share of visits does not exceed while fewer stay below; none exactly without delays |
| `RollupTables.BandsPartition` | internal/rollup/rollup.go:98-105 | ordered bands count every visit with a delay once |
| `RollupTables.GroupsCountVisits` | internal/rollup/rollup.go:119-155 | grouping loses no visit and counts none twice |
| `RollupTables.OneMoreVisit` | internal/rollup/rollup.go:99-108 | one more visit moves the skipped count exactly when it is skipped, the cancelled count exactly when its trip is cancelled, the count of its own delay band and no other, and the service date to the later |
| `RollupTables.AggregateDescribes` | internal/rollup/rollup.go:99-108 | of a group of visits the bands' running sums count the visits at most so late, the percentiles split the known delays at a half and at nine tenths, and the service date is the latest |
| `RollupTables.DescriptionIsUnique` | internal/rollup/rollup.go:99-108 | no other row satisfies that description |
| `TableRows.RollupDescribes` | internal/rollup/rollup.go:119-155 | a rollup gains the tables exactly one row for each hour and stop, or hour and route, with direction, that has visits counted, and one for all routes of each stop; each describes just those visits, and no other row changes |
| `TableRows.TablesDescribeRun` | internal/rollup/rollup.go:119-155 | after any run each row of both tables describes, of all visits that the run's rollups counted, just those of its key; there is a row exactly for the keys that have some |
| `TableRows.WrittenAreGained` | internal/rollup/rollup.go:119-165 | the rows a rollup reports written are by number the rows the tables gain |
| `RollupRuns.RunsForgetOnly` | internal/rollup/job.go:197-246 | on every run the database misses, of all rows ever stored, only rows bucketed before the watermark |
| `RollupRuns.RetentionIsInvisibleExactly` | internal/rollup/job.go:197-246 | over every run of inserts, rollups, partition creations and drops, the hourly tables and the watermark equal those of the same run without its drops, if and only if no row is bucketed before the watermark's seed |
| `RollupRuns.WindowIs` | internal/rollup/rollup.go:39-63 | a rollup's window starts at the watermark and ends on a later hour, the new watermark; without one nothing visible changes |
| `RollupRuns.ClocksPastSentinel` | internal/rollup/rollup.go:39-63 | on a run whose clocks are past the watermark's seed, whatever rows it stores, every window ends after the seed |
| `RollupRuns.RowsPastSentinel` | internal/rollup/rollup.go:39-63 | and so on a run that stores no row bucketed before the seed, whatever its clocks |
| `RollupRuns.WatermarkAdvances` | internal/rollup/rollup.go:161 | on such runs the watermark never decreases, and moves exactly when a window is rolled up |
| `RollupRuns.WindowsTile` | internal/rollup/rollup.go:39-63 | on them windows follow one another without overlap, and the next starts where the last ended |
| `RollupCounts.CountsLastWordsEverStored` | internal/rollup/rollup.go:25-35 | of a visit with no row before the watermark's seed, whose rows are overtaken by their last, a rollup counts just the last of all ever stored, dropped or not, if it is bucketed in the window, whatever the rows of other visits are |
| `RollupCounts.VisitIsForgottenOnly` | internal/rollup/job.go:197-246 | of a visit with no row before the seed the drops take only rows bucketed before the watermark, whatever they take of others |
| `RollupCounts.VisitCountedOnce` | internal/rollup/job.go:30-34 | a visit that keeps to one hour, with a row stored when that hour is rolled up, is counted then, in that hour, by its last row stored by then, and by no other run |
| `RollupCounts.ScheduledVisitCountedOnce` | internal/rollup/job.go:30-34 | so a visit whose rows share one scheduled time is counted exactly once, in its scheduled hour |
| `RollupCounts.WindowsDisjoint` | internal/rollup/rollup.go:25-27 | no instant is rolled up by two runs |
| `RollupCounts.AtMostOnceExactly` | internal/rollup/job.go:32-34 | no run counts a visit twice, if and only if the visit's rows are bucketed in one hour |
| `RollupTotals.RollupOnlyAdds` | internal/rollup/rollup.go:119-155 | a rollup adds rows for hours the tables do not have and replaces none: its ON CONFLICT clauses never fire |
| `RollupTotals.TablesCountEveryVisit` | internal/rollup/rollup.go:119-159 | over every run the route table's counts add up to the visits counted, and the stop table's to twice that, by route and over all routes |
| `RollupTotals.RowsAreNeverOverwritten` | internal/rollup/rollup.go:119-155 | a row of an hourly table stays as the one rollup of its hour made it |
| `RollupJob.Job.Store` | migrations/0002_observations.sql:35-43 | routing rows to their partitions is inserting into one table, conflicts included |
| `RollupJob.ConflictsAreLocal` | migrations/0002_observations.sql:4-7 | a row can only conflict with one of its own partition |
| `RollupJob.Job.WindowDue` | internal/rollup/rollup.go:39-63 | the window of hours due, or none |
| `RollupJob.Job.SelectFinals` | internal/rollup/rollup.go:71-90 | of each visit whose rows are overtaken by their last, it selects the last row there is if that is bucketed in the window, and no other |
| `RollupJob.Job.RollUp` | internal/rollup/rollup.go:36-175 | one transaction: the tables and the watermark after it, and what it reports |
| `RollupJob.Job.Partitions` | internal/rollup/job.go:112-136 | all daily partitions, oldest first |
| `RollupJob.Job.EnsurePartitions` | internal/rollup/job.go:141-195 | creates exactly the missing partitions up to the first that fails; moving stranded rows changes no row of the table |
| `RollupJob.Job.DropPartition` | internal/rollup/job.go:211-232 | drops a partition unless a row of it has yet to be rolled up, or the transaction fails |
| `RollupJob.Job.DropPartitionsBefore` | internal/rollup/job.go:197-246 | drops exactly the partitions before the cutoff that hold nothing pending, up to the first that fails, and never the default one |
| `RollupJob.Job.Tick` | internal/rollup/job.go:81-106 | a maintenance run: partitions, then the rollup, then retention unless the rollup failed; it reports exactly the steps that failed, in order, and the date the change filter is told |
| `RollupJob.TickIsInRun` | internal/rollup/job.go:81-106 | a maintenance run is a stretch of the runs the theorems are about |
| `Maintenance.KeepsRows` | internal/rollup/job.go:81-106 | a maintenance run loses no row of the retention days, none not yet rolled up, and none at all when the rollup failed |
| `Maintenance.MakesRoom` | internal/rollup/job.go:81-106 | after one in which no creation failed, each day from today through the lookahead has a partition, and yesterday if it is retained |
| `Maintenance.ClearsOld` | internal/rollup/job.go:197-246 | the older partitions left are pending, unless the run reports that a drop failed |
| `Maintenance.ReportsFailures` | internal/rollup/job.go:81-106 | each other step is reported failed exactly when it failed |
| `MatchedRows.RowsAreWellDated` | internal/rollup/rollup.go:65-72 | every row the matcher makes, scheduled or dated without the producer's help, lies where the rollup's service-date bounds look for it, in each of its windows |
| `GivenDates.GivenDateIsReadExactly` | internal/match/matcher.go:265-276 | an unscheduled row dated by the producer's start_date is read in each of its windows, if and only if that date is in reach of the feed's timestamp |
| `GivenDates.GivenDateIsCountedExactly` | internal/rollup/rollup.go:65-90 | such a row, stored first and its hour rolled up, is counted in the run, however long, if and only if that date is in reach |
| `GivenDates.GivenDateCanBeMissed` | internal/match/matcher.go:265-276 | at every feed timestamp since the seed, an unmatched update whose start_date lies four days on gives a row that no rollup of such a run counts |
| `MatchedRows.RowIsDated` | internal/match/matcher.go:265-301 | a row's service date is one of the update's candidates and its timestamp the feed's |
| `MatchedRows.RowsArePlaced` | internal/match/matcher.go:183-244 | a row of a scheduled trip has the time of a call at its stop, or none when the trip calls there never or more than once |
| `MatchedRows.HomogeneousExactly` | internal/rollup/rollup.go:65-67 | all rows made of a visit under one timetable agree on its scheduled time, if and only if no trip calls twice at a stop with a time to tell; and that for each feed and any two of its header timestamps |
| `EndToEnd.WrittenIsStored` | internal/ingest/writer.go:16-36 | a database that is given the batches ingestion writes, with rollups, new partitions and drops in between, has been given of each visit what ingestion holds for stored |
| `EndToEnd.StatisticIsLastOffer` | internal/rollup/rollup.go:29-35 | in every run of a database, drops included, what a rollup counts of a visit says the same as the last observation the feed offered of it, give or take the filter's threshold, if that was not lost and nothing let through before it was later or as late with another value; whatever was suppressed, evicted, dropped before or deleted since, and whatever other visits are like |
| `EndToEnd.LastOfferIsCounted` | internal/rollup/rollup.go:25-35 | in every such run such a visit is counted by the rollup whose window its last word falls in |
| `EndToEnd.MatchedIsFit` | internal/match/matcher.go:121-252 | if all that is offered of a visit comes of updates under one timetable that tells a trip's calls apart and has no time of 71 hours, and any unscheduled date the producer gave is in reach, then what ingestion stores of it agrees on its scheduled time, is dated within the rollup's bounds, and is overtaken by its last row |
| `EndToEnd.MatchedVisitIsCountedOnce` | internal/rollup/job.go:30-34 | so from the updates of a feed through matcher, filter, queue, writer, rollup and retention: a visit with a scheduled time, all that was said of it stored by then as above, is counted by the rollup of that time's hour, by no other, once, and as the feed last described it, give or take the filter's threshold |
| `Buckets.WaitFor` | internal/feed/limiter.go:104-105 | the wait for a deficit, truncated: at its end at most the deficit has refilled, a nanosecond later more |
| `Buckets.WindowHolds` | internal/feed/limiter.go:16-18 | times that are in order and paced keep the bound in every window |
| `Limiter.Limiter.Reserve` | internal/feed/limiter.go:81-106 | one step of the runs: a request's allowance, with the delay, or the time until the budget resets |
| `Limiter.Limiter.Exhaust` | internal/feed/limiter.go:129-138 | the step that calls the day's budget spent |
| `Limiter.Limiter.Used` | internal/feed/limiter.go:140-146 | the step that rolls the day over and tells the requests reserved on it |
| `Limiter.RunIsMetered` | internal/feed/limiter.go:84-106 | over every run with a clock that does not go back, each send lies within the burst of what was drawn since, which paces them: to a nanosecond, and exactly while a token takes whole nanoseconds |
| `Limiter.RateIsKept` | internal/feed/limiter.go:16-32 | at every rate requests go out in the order they were granted, and any window of length T holds at most burst + rate * T of them, with one nanosecond's slack |
| `Limiter.RateIsKeptExactly` | internal/feed/limiter.go:95-105 | any window of length T holds at most burst + rate * T requests over every run, if and only if some whole number of nanoseconds refills exactly one token |
| `Limiter.ThreeASecondExceeds` | internal/feed/limiter.go:104-105 | at three requests a second, four made together exceed the bound |
| `Promptness.DelayedOnlyIfNeeded` | internal/feed/limiter.go:95-106 | over every run a granted request is delayed only if, sent a nanosecond sooner, it would be one more than burst + rate * T for some window of length T from an earlier send or from where the limiter started |
| `Promptness.BurstGoesAtOnce` | internal/feed/limiter.go:95-106 | when every send is so long ago that the burst has refilled since, as many requests at one instant as the burst and the budget allow all go out at that instant |
| `Limiter.BudgetIsKeptExactly` | internal/feed/limiter.go:88-138 | a request is granted exactly while its UTC day's grants are under budget and the day was not called exhausted; no day's grants exceed the budget |
| `Limiter.ResetIsExact` | internal/feed/limiter.go:89-120 | a caller refused is refused until the reset it is told of, and granted at that instant if first |
| `IpLimiter.IpLimiter.Allow` | internal/api/ratelimit.go:42-71 | one step of the runs: sweeps if a sweep is due, then takes a token or says how long until there is one |
| `IpLimiter.IpLimiter.Sweep` | internal/api/ratelimit.go:50-57 | forgets exactly the idle buckets |
| `IpLimiter.SweepingIsInvisible` | internal/api/ratelimit.go:34-71 | every answer is the one that a bucket never forgotten gives, knowing only the client's own earlier requests |
| `IpLimiter.GrantedAlone` | internal/api/ratelimit.go:34-71 | the limiter that sweeps grants a client exactly what a bucket never forgotten would, other clients or not |
| `IpLimiter.RemembersTheRecent` | internal/api/ratelimit.go:34-57 | over every run the limiter remembers every client of the last minute and none that has not asked for two |
| `IpLimiter.ClientRateIsKept` | internal/api/ratelimit.go:12-14 | of any run of requests by many clients, any window of length T allows one client at most rate + rate * T |
| `Waiting.WaitsWorkExactly` | internal/api/ratelimit.go:58-71 | in every run a client refused, and silent whatever others do until its wait is over or longer, is allowed, if and only if the rate is at least one and some whole number of nanoseconds refills exactly one token |
| `Waiting.ThirdOfASecondIsTooShort` | internal/api/ratelimit.go:66-70 | at three a second the fourth request of an instant is told 333 333 333 ns, and is refused again then |
| `Waiting.RetryAfterWorksExactly` | internal/api/ratelimit.go:107-112 | in every run a client refused and then silent for as long as Retry-After says is allowed, if and only if the rate is at least one |
| `Cache.Cache.Update` | internal/cache/latest.go:84-140 | a poll replaces its feed's snapshot, whose indexes hold what a scan of the poll finds |
| `Cache.Build` | internal/cache/latest.go:92-132 | both indexes hold exactly what a scan of the observations shown finds, in order, under no other key |
| `Showing.ShownAre` | internal/cache/latest.go:80-172 | a call is shown until five minutes after its scheduled time and delay together, and without a match exactly when its trip is neither scheduled nor a replacement |
| `Showing.ShownOfBoth` | internal/cache/latest.go:92-95 | each observation is shown or not by itself, in the order of the poll |
| `Showing.SoLateIsAsGood` | internal/cache/latest.go:163-172 | a call scheduled earlier and later by as much is shown just as long |
| `Showing.GoneIsGone` | internal/cache/latest.go:163-172 | what is no longer shown does not come back at a later header timestamp that says the same of it |
| `Showing.NextIsFirst` | internal/cache/latest.go:111-131 | the next stops are, of each trip's run on each date, the first observation shown |
| `Showing.CallsTell` | internal/cache/latest.go:96-110 | each call listed at a stop tells what one observation shown there says, field by field and in order |
| `Showing.TripsTell` | internal/cache/latest.go:118-131 | each trip listed on a route tells what one next stop on it says, field by field and in order |
| `Showing.AnswersAre` | internal/cache/latest.go:174-233 | an answer has what the last polls of the feeds heard of within the time to live have, and nothing else; it is found if any has something, and is as old as the oldest of those |
| `Cache.NextsAre` | internal/cache/latest.go:111-131 | each trip shown is listed once, by the first of its observations shown |
| `Cache.TripsAreNexts` | internal/cache/latest.go:118-131 | a trip is listed under its own route, as often as it is a next stop, and under no other |
| `Cache.StalledCounts` | internal/cache/latest.go:134-150 | the counter reaches n exactly when each of the last n polls failed to advance past the one before |
| `Showing.StalledMeans` | internal/cache/latest.go:134-150 | the counter reaches n exactly when each of the last n polls, the first of all never among them, came with no later header timestamp than the one before |
| `Cache.Cache.Stale` | internal/cache/latest.go:142-150 | whether each of a feed's last n polls failed to advance |
| `Cache.Cache.Route` | internal/cache/latest.go:174-204 | what a scan of the fresh feeds' last polls finds on the route, with the oldest of their timestamps; found exactly when there is any |
| `Cache.Cache.Stop` | internal/cache/latest.go:206-233 | the same for the calls at a stop |
| `Gathering.OrderDoesNotMatter` | internal/cache/latest.go:181-203 | whatever order the map gives the feeds in, the answer has the same entries, equally often |
| `History.GroupRows` | internal/api/handlers_history.go:191-209 | the groups concatenate to the rows, each has rows of one hour or one day, and neighbours differ |
| `History.KeysAscend` | internal/api/handlers_history.go:191-209 | of rows in time order the groups' keys ascend, so no two groups share one, across days of 23 and 25 hours |
| `History.BucketsAddUp` | internal/api/handlers_history.go:151-165 | the buckets' counts add up to the totals', and so do the delays their means stand for |
| `History.Combine` | internal/api/handlers_history.go:228-258 | counts sum, the mean is that of all the delays; one row's percentiles stand, several rows' are summarised by their weighted medians |
| `Merging.GroupsAre` | internal/api/handlers_history.go:183-209 | of rows in time order two are in one group exactly when they start on one calendar date of the zone, by day, or in one hour |
| `Merging.CountsSum` | internal/api/handlers_history.go:228-258 | each count of a merge is the sum over the rows of that count |
| `Merging.OneRowStands` | internal/api/handlers_history.go:228-258 | a merge of one row is that row: its counts, its percentiles and its mean |
| `Merging.MeanWeighs` | internal/api/handlers_history.go:228-258 | the mean of a merge weighs each row's by its visits that have a delay, and is known exactly when there are any |
| `Merging.PercentileWeighs` | internal/api/handlers_history.go:260-287 | of several rows the percentile is one of theirs, with less than half of the visits that have a delay in rows below it and at least half in rows at or below |
| `History.WeightedMedian` | internal/api/handlers_history.go:260-287 | a value with less than half of the weight below it and at least half at or below it, or none when nothing is known; the final return is not reached |
| `History.MedianIsUnique` | internal/api/handlers_history.go:260-287 | only one value is the weighted median of some values, in whatever order they come |
| `History.MergesAlike` | internal/api/handlers_history.go:228-287 | whatever order the rows come in, counts, mean and percentiles merged of them are the same |
| `Migrate.Load` | internal/store/migrate.go:161-198 | succeeds exactly on a directory whose names all have a number before an underscore, no two the same, and sorts by it |
| `Migrate.NamesAreRead` | internal/store/migrate.go:174-183 | a version written in four digits or more, an underscore, a name and .sql are read back from a file's name |
| `Migrate.Database.Apply` | internal/store/migrate.go:114-135 | a migration and its record, in one transaction or not at all |
| `Migrate.Database.Migrate` | internal/store/migrate.go:34-112 | over any history of calls versions are applied in strictly ascending order, each once; a directory is refused exactly when it cannot be loaded or contradicts what was applied, and then nothing was applied in the call; success leaves every file recorded and names what ran |
| `Migrate.BeyondThen` | internal/store/migrate.go:82-98 | once one migration is to be applied none after it can be refused, so a refusal loses no applied names |

## Left out

- Columns.ColumnsOf: the arrays the source fills by index are sequences appended to, since sixteen arrays that nothing else shares differ only in how they are written.
- Matcher.DepartureRoundTrips: a delay is assumed to fit 32 bits, and so are the differences of two, except where the matcher itself converts them.
- Filter.Changed: the difference of two 32-bit delays is assumed not to overflow.
- Cache.Collect: the source writes the loop out twice, for routes and for stops; the model has it once.
- Filter.OldestFirst: a sort by age is modelled by repeatedly taking the oldest entry.
- Migrate.Load: listing the directory and hashing a body; a file is given as its name and checksum.
- History.Combine: the mean and its sum are exact reals, before the rounding to one decimal for display.
- Floating point: tokens are exact reals, and the rollup's own mean, the on-time percentage and the match rate are left out.
- The protobuf and CSV decoders, the HTTP client and server, TLS, logging, metrics and the web front end are input, output or thin glue.
- Downloading and activating schedules; a schedule is immutable, and the days a service runs on are a predicate.
- Swapping schedules under a running match or under a visit's life in the composed theorems, and the per-feed counters kept for the statistics endpoint: a poll is matched against the one schedule it starts with.
- Postgres itself: a table is a keyed set, a transaction one step that may fail, and locks, planning and the tuples' physical order are not modelled.
- Retry of failed writes is a single outcome of the batch, which says whether an earlier try had been stored.
- Goroutines, mutexes and atomics are the atomic steps of the pipeline's protocol, one poller to a feed; a Submit or a turn of the writer's loop alone is shown to be a stretch of such steps.
- Sydney.DaylightChanges: clocks change by the rule in force since 2008; the years before it had other dates.
- Daily partitions whose names cannot be read as dates, which the source ignores too.
