# Verified model of the log platform's stateful core

The repository ingests application logs per tenant, keeps them in PostgreSQL tables cut into UTC days,
months or years, serves them, folds them into metrics, and drops what is past retention. This project
models, in Dafny, the parts of it whose correctness rests on arithmetic over a real calendar or on the
order in which separate transactions happen, and proves what they promise.

- **Calendar, grains and names** (`Calendar`, `Grains`, `PartitionNames`, `Partitioning`, `Catalogue`).
  Python's proleptic Gregorian `date` with its ordinals (leap years as in Appendix C of RFC 3339), the
  three partition grains over it, what each partition is called, and the method that provisions missing
  partitions. Instants count microseconds in UTC.
- **Retention** (`Cursors`, `Retention`, `RetentionLimits`). Readers publish positions, clocks move, rows and stitch windows
  come and go, the worker provisions and drops. Log entries and their assignments have no foreign key, so
  that no assignment outlives its entry rests on both tables being cut and dropped alike.
- **The Idempotency-Key protocol** (`Idempotency`). Claim, failed insert, load, handler run and finish as
  separate steps of any number of requests in any order, with handlers that die.
- **One derivation zone per tenant** (`TimezoneGuard`, `Customers`). The guard on changing a tenant's
  timezone, and why it matters to a deduplication key that contains the timestamp. Ingest jobs read the
  zone when they start and commit later; a change reads the stored zone, asks for entries and writes, each
  in a transaction of its own.
- **The feed page** (`Feed`), **the metric lifecycle** (`Metrics`, `MetricRaces`, `Tickets`), **the breakdown ranking**
  (`Breakdown`) and **the review thread** (`SavedViews`, `SavedViewRuns`, `SavedViewRaces`).
- **Text** (`Text`, `DateText`, `Timestamps`, `TextLines`, `ShiftText`, `LogShift`, `IsoTime`, `KeepRecent`).
  Fixed-width dates and timestamps, reading and printing them, string order against time order, and the
  shifter that rewrites every timestamp of a log text.
- **The partition migration** (`Migration`). A plain table into partitions and back.

`Sorting` and `Results` hold what several modules share: stable sorting, filtering, folding, and optional and
refused results.

Where the source updates state the model does: classes whose methods reassign their fields, with the
source's loops and early returns, each proved against a specification function. What the source promises
is then proved about those functions, for every input and over every run. Protocols are state machines
whose steps are the committed transactions; a run is any sequence of enabled steps.

## Where the code does not keep what it says

Some promises turn out to be false of the code. Each is kept as the code has it, shown by a concrete example,
and followed by the exact condition under which it does hold.

- **The midnight rule under the holds.** Entries are kept a day longer than transactions so that no
  transaction outlives entries of its own. The schedule does guarantee it
  (`Retention.TransactionsAreDueBeforeTheirEntries`), but an open stitch window can hold one day and not
  the next: `Retention.StitchingCanOutliveTheEntries` is a run from an empty database that drops an entry
  of 2 March while the transactions of 1 March stay. It holds exactly when no open window touches the
  earlier day (`Retention.EntriesOutliveTransactionsUnlessStitching`).
- **One derivation zone per tenant.** The guard asks whether entries exist, and then writes in another
  transaction. A first ingest that is still running has read the old zone and stored nothing, so the change
  is granted and the ingest lands under the old zone; the same file ingested again is stored twice
  (`TimezoneGuard.ChangeDuringIngestSplitsTimeline`). A first ingest that fits between the question and the
  write splits the timeline as well, with no job in flight at either
  (`TimezoneGuard.IngestBetweenAskAndWriteSplitsTimeline`). `TimezoneGuard.RunKeepsOneZoneIff` gives the
  exact condition over whole runs, in what every commit and every write finds beforehand;
  `TimezoneGuard.CarefulRunsKeepOneZone` a discipline that meets it. Undisturbed between its question and its
  write the guard itself splits nothing, but what the jobs in flight commit afterwards may: they keep one zone,
  whatever their lines, exactly when entries exist, so that the change is refused, or no job of the tenant is in
  flight, or the two zones derive alike (`TimezoneGuard.GuardIsEnoughIff`).
- **The review thread is append-only, and frozen once completed.** Of two requests that overlap, the later
  commit writes the comment list it computed from the row it loaded: the earlier one's comment is gone
  (`SavedViewRaces.FirstOfTwoCommentsIsLost`), the earlier one's resolve is undone
  (`SavedViewRaces.ResolveIsReverted`), and a view completed in between takes the comment all the same
  (`SavedViewRaces.CompletedViewTakesAComment`). A request ends as if it had run alone exactly when the view
  has not been completed and the loaded comments are still the row's (`SavedViewRaces.AsIfAloneIff`); over a
  run the thread only grows exactly when every commit had loaded all it meets
  (`SavedViewRaces.ThreadOnlyGrowsIff`); and a completed row stays untouched exactly when the request was
  refused on what it had loaded (`SavedViewRaces.CompletedRowIsUntouchedIff`). Calls that do not overlap keep
  every promise (`SavedViewRuns`).
- **A metric goes live once, and publishes its history.** Two PATCHes that both loaded the draft both activate it
  and both publish (`MetricRaces.OverlappingActivationsPublishTwice`). Over every run a metric goes live at most once
  exactly when every request that goes live still finds a draft at its commit (`MetricRaces.GoesLiveOnceIff`); it
  goes live at most once and then keeps its shape and start exactly when no accepted commit that meets it live goes
  live again or sets anything new (`MetricRaces.LifecycleHoldsIff`). Even then the published range need not be that
  of the stored start: a start moved between an activation's load and its commit leaves the two apart
  (`MetricRaces.StartMovedUnderActivation`). They agree exactly when the activation went by the start the row then
  has, or neither of the two is before the watermark (`MetricRaces.PublishedItsHistoryIff`).
- **The clean-up keeps the London day.** The bookkeeping rows are cut at 23:00 UTC on 12 September, midnight
  in London; the partitions by the UTC date in their names. `KeepRecent.DroppedKeptInstantsIff`: exactly the
  partitions of 12 September are dropped although they hold the first hour that was to be kept.

One more law holds on fewer inputs than it might seem to. Shifting log timestamps composes for whole
milliseconds, and the driver only ever shifts by whole seconds; but `shift_text` takes any delta, and cuts
microseconds off each time. `ShiftText.ShiftsComposeIff` gives the exact condition, and for a line of the log at
midnight of 14 June 2026 it fails (`ShiftText.ACarryIsLostInTheLog`).

That no assignment outlives its entry rests on the two tables covering the same days. The worker keeps that so
(`Retention.ProvisionKeepsTwins`), but the migration cuts each table over the days of its own rows, and need not
leave it so. `Retention.DropKeepsReferencesIff` says what a drop does to catalogues that differ.

Smaller disagreements between the code and its documentation, all modelled as the code has them: the
tickets published at a metric's activation are those of the stated range exactly when there is no padding
(`Metrics.TicketsAreTheRangeIff`); a customer PATCH whose timezone is refused leaves the tenant as it was
exactly when the permanent fields it names are set already (`Customers.RefusedPatchChangesNothingIff`); a saved
view can be created as completed without a closure (`SavedViewRuns.CompletedOnCreationHasNoClosure`), lose its
closure to a null (`SavedViewRuns.CompletedHasClosureUnlessNulled`), and be PATCHed back to another status,
which unlocks its thread (`SavedViewRuns.CompletedCanBeReopened`); and the row behind a key that could not be
claimed can vanish because another request released it, not only through a sweep
(`Idempotency.UnclaimedRunsFollowARelease`).

## Model

| member | source | states |
|---|---|---|
| Calendar.DaysBeforeYearClosedForm | app/persistence/partitioning.py:166-181 | counting the days of the years one by one, leap years included, is the closed form of the Gregorian rule |
| Calendar.DaysBeforeMonthClosedForm | app/persistence/partitioning.py:166-181 | adding the lengths of the months one by one, the short one in its place, is the closed form of the Gregorian rule |
| Calendar.OrdinalBounds | app/persistence/partitioning.py:155-181 | every date lies inside its year and its month, and its ordinal between 1 and that of 31 December 9999 |
| Calendar.OrdinalIsOrder | app/persistence/partitioning.py:195-212 | comparing dates field by field, as `<` on dates does, is comparing their ordinals, and equal ordinals mean equal dates |
| Calendar.FromOrdinal | app/persistence/partitioning.py:305-314 | every ordinal in range is the ordinal of the date it is turned into |
| Calendar.FromOrdinalOfOrdinal | app/persistence/partitioning.py:305-314 | dates and ordinals are in bijection, so adding days and subtracting them are inverse |
| Calendar.DayOfIsUnique | app/persistence/partitioning.py:264-275 | an instant falls on a day exactly when it lies between that day's midnights, the later excluded |
| Grains.PeriodIsInterval | app/persistence/partitioning.py:155-181 | at every grain two dates share a period exactly when one lies between the other's half-open bounds |
| Grains.HasNextUnlessLast | app/persistence/partitioning.py:166-181 | the next period start exists for every date but those of the calendar's last period |
| Grains.NextIsLeastStart | app/persistence/partitioning.py:166-181 | the next period start is the least period start after the date, for every grain and year end |
| Grains.InstantHasOnePeriod | app/persistence/partitioning.py:258-292 | an instant is within a period's half-open UTC bounds exactly when its own UTC day belongs to the period |
| Grains.PeriodsAreDisjoint | app/persistence/partitioning.py:278-292 | distinct periods of one grain share no day |
| Grains.PeriodsCovering | app/persistence/partitioning.py:195-212 | terminates; refuses an inverted range; otherwise returns in ascending order exactly the starts whose periods intersect the range, each ending where the next begins |
| PartitionNames.DecodeOfPartitionName | app/persistence/partitioning.py:216-227 | a partition name decodes to its table and the start of its period, whatever day of the period it was made from, and fits 63 characters |
| PartitionNames.PartitionNamesAreInjective | app/persistence/partitioning.py:216-227 | over all registered tables and their grains two names are equal exactly when table and period are |
| PartitionNames.NamesOf15March2026 | app/persistence/partitioning.py:89-130 | the nine partitions in which that day lies, under the names they have: each registered table at its own grain |
| PartitionNames.PartitionNameOfDecode | app/persistence/partitioning.py:216-227 | conversely a name that decodes is the name of the partition it decodes to |
| PartitionNames.DefaultNameDoesNotDecode | app/persistence/partitioning.py:230-231 | a DEFAULT partition's name is no dated partition's name |
| PartitionNames.PatternMatchesOurPartitions | app/persistence/partitioning.py:234-255 | the pattern fully matches every dated and every DEFAULT partition name |
| PartitionNames.PatternSparesParents | app/persistence/partitioning.py:244-255 | the pattern matches no parent table's name |
| PartitionNames.PatternHidesOnlyOurs | app/persistence/partitioning.py:244-255 | whatever the pattern matches is a DEFAULT name or a registered parent, an underscore and a suffix that starts with a digit |
| Partitioning.DaysBetweenIsTheRange | app/persistence/partitioning.py:305-314 | refused exactly when inverted; otherwise ascending and exactly the days of the closed range |
| Partitioning.CoverageDaysAreExact | app/persistence/partitioning.py:317-323 | the runway is today and exactly the stated number of days after it, in order; a negative number is refused |
| Partitioning.MigrationCoversDataAndRunway | app/persistence/partitioning.py:331-355 | a build that is not refused covers the data's span and the runway and nothing outside their hull, within the bound; refused exactly when the hull is too wide or inverted |
| Partitioning.ExpiredDaysIsExact | app/persistence/partitioning.py:358-372 | in ascending order, and exactly the covered periods whose every day is strictly before the cutoff, each as often as listed, at every grain |
| Partitioning.InPolicyDaysAreKept | app/persistence/partitioning.py:358-372 | the period of a day still inside retention is never among the expired |
| Partitioning.CoverageIsNeverExpired | app/persistence/partitioning.py:317-323 | for non-negative retention nothing the runway asks for is expired the same day |
| Partitioning.ExpiryOnlyGrows | app/persistence/partitioning.py:358-372 | what is expired today is expired on every later day |
| Catalogue.NameIsIdentity | app/persistence/partitioning.py:375-378 | testing existence by name is right: in a consistent catalogue the relation with a partition's name is that partition |
| Catalogue.OnePartitionPerDay | app/persistence/partitioning.py:278-292 | a day is held by exactly the partition named for it, if any |
| Catalogue.PartitionsAreDisjoint | app/persistence/partitioning.py:278-292 | two dated partitions of one table have disjoint bounds |
| Catalogue.CanStartIff | app/persistence/partitioning.py:278-292 | a partition is refused exactly when its name is free and DEFAULT holds a row of one of its days |
| Catalogue.AddedIsExact | app/persistence/partitioning.py:401-432 | a request adds the partition of every requested day of every selected table, under its own name and bounds, and no other |
| Catalogue.ProvisioningKeepsConsistent | app/persistence/partitioning.py:401-432 | provisioning keeps every name true to its bounds, and removes and changes nothing |
| Catalogue.SecondRequestAddsNothing | app/persistence/partitioning.py:401-432 | the same request again leaves the catalogue as it is, so it returns 0 |
| Catalogue.RequestedDaysAreHeldOnce | app/persistence/partitioning.py:401-432 | afterwards each requested day lies in exactly one dated partition of each selected table |
| Catalogue.Database.CreatePartition | app/persistence/partitioning.py:278-292 | adds one partition unless its name is taken, given that DEFAULT holds no row of it |
| Catalogue.Database.CoverPeriods | app/persistence/partitioning.py:401-432 | creates the missing ones of one table's periods and returns exactly the growth of the catalogue |
| Catalogue.Database.EnsureCoverage | app/persistence/partitioning.py:401-432 | the catalogue becomes what was requested plus what was there, stays consistent, and the result is exactly its growth |
| Catalogue.Database.Select | app/persistence/partitioning.py:401-432 | the named tables in order, or an error naming the first unregistered name: all names before it are registered |
| Catalogue.Database.EnsureCoverageFor | app/persistence/partitioning.py:401-432 | an unregistered name changes nothing and asks nothing of the catalogue; otherwise exactly the selected tables are covered, and only they have to be creatable |
| Catalogue.SelectionIsTheNamed | app/persistence/partitioning.py:412-426 | a selection is refused exactly when a name is unregistered; otherwise it is exactly the tables named, or all |
| Cursors.PeriodIsBlockedByItsDays | app/services/consumer_cursors.py:38-63 | at every grain a period is blocked at its end exactly when one of its days is |
| Cursors.SplitByLiveness | app/services/consumer_cursors.py:100-105 | one pass gives exactly the rows that reported within the limit of seconds and exactly the others, each in order |
| Cursors.MinLiveIsUnique | app/services/consumer_cursors.py:85-97 | the oldest live position is one value, whatever order the rows come in |
| Cursors.Registry.Report | app/services/consumer_cursors.py:72-82 | one row per consumer: position and heartbeat replaced, every other consumer untouched |
| Cursors.Registry.MinLivePosition | app/services/consumer_cursors.py:85-97 | the least position among consumers whose heartbeat is fresh, None exactly when there are none |
| Retention.DueIsExact | app/services/workers/log_partition_worker.py:103-139 | due are the covered periods every day of which is past the number of days their table keeps, of tables that have one |
| Retention.PrefilterLosesNoHold | app/services/workers/log_partition_worker.py:169-193 | fetching only windows that meet the candidates' common span misses no window that holds one of them |
| Retention.TransactionsAreDueBeforeTheirEntries | app/services/workers/log_partition_worker.py:115-139 | when a day of entries is due, so is every covered transaction day up to the day after it |
| Retention.ProvisionKeepsTwins | app/services/workers/log_partition_worker.py:349-351 | provisioning both tables keeps the days of entries and of assignments equal |
| Retention.TwinsGoTogether | app/services/workers/log_partition_worker.py:383-399 | in one drop the entries and the assignments of a day go both or neither, under all three holds |
| Retention.DropKeepsReferencesIff | app/persistence/partitioning.py:93-101 | whatever the two catalogues are, a drop keeps every assignment's entry exactly when no assignment of an entry it drops lies on a day the assignments' table does not cover |
| Retention.EachDropIsSafe | app/services/workers/log_partition_worker.py:322-328 | a partition that goes is past its table's retention to the last day, every live consumer is past its exclusive end, and no open window or health hold touches it |
| RetentionLimits.DropIsExact | app/services/workers/log_partition_worker.py:67-139 | one drop takes a relation exactly if it is a dated partition of a table that may be dropped, ends 90 days (hourly rollups), 365 days (quality issues), the retention (transactions) or the retention and a day (entries, assignments) before today, no open window touches it, every reader heard of within the limit is past it, and it is not source data that unhealthy analytics may need |
| RetentionLimits.RowsGoWithTheirDay | app/persistence/partitioning.py:302-310 | with the partitions go exactly the entries and the assignments that fall on their days |
| RetentionLimits.DropIsRecorded | app/services/workers/log_partition_worker.py:383-399 | what goes is recorded with the readers heard of within the limit, the windows and the health at the time, and nothing recorded is lost |
| RetentionLimits.ProvisionIsEnabledIff | app/persistence/partitioning.py:278-292 | provisioning is refused exactly when entries and assignments are not asked for together or a new partition would hold the day of a row that DEFAULT has |
| RetentionLimits.NothingElseIsRefused | app/services/consumer_cursors.py:72-82 | readers report, windows change and rows come and go at any time, and the clock goes on; a report is kept as the position with the time it came |
| RetentionLimits.WhatMustStayStays | app/services/workers/log_partition_worker.py:60-80 | over every run, whatever the settings, each partition of the facts, their ledger, the daily rollups and the record facts, and each DEFAULT, is still there under its name and bounds |
| RetentionLimits.DropsWerePastTheirLimit | app/services/workers/log_partition_worker.py:322-328 | over every run each drop met its table's number of days and all three holds when it was made, none being of a table kept for ever |
| Retention.StepKeepsInv | app/persistence/partitioning.py:93-101 | every step of readers, clock, stitching, ingest, purge, provisioning and dropping keeps: equal catalogues, every assignment's entry present, every drop safe |
| Retention.RunsKeepInv | app/persistence/partitioning.py:93-101 | so through every run each surviving assignment still has its entry, without a foreign key, and every drop was safe when made |
| Retention.DroppedStaysConsumed | app/services/consumer_cursors.py:38-53 | a consumer that was live at a drop and never reports backwards stays at or past what was dropped, for the rest of any run |
| Retention.EntriesOutliveTransactionsUnlessStitching | app/services/workers/log_partition_worker.py:122-131 | when a day of entries is dropped the transactions of the day before go with it exactly when no open window touches that earlier day |
| Retention.StitchingCanOutliveTheEntries | app/services/workers/log_partition_worker.py:122-131 | a run from an empty database, through provisioning, an insert, its assignment and an open window, whose drop takes an entry and leaves the transactions of the day before |
| Idempotency.KeyStore.TryClaim | app/middleware/idempotency.py:92-106 | claims exactly when the key has no row; a failed insert changes nothing |
| Idempotency.KeyStore.Load | app/middleware/idempotency.py:55-64 | the row of the key, if it is still there |
| Idempotency.KeyStore.Finish | app/middleware/idempotency.py:140-158 | stores an answer whose status is below 500 and that is JSON, with the status, the JSON and the fingerprint of the claim; removes the row for any other; does nothing if the row is gone |
| Idempotency.KeyStore.Dispatch | app/middleware/idempotency.py:68-166 | an undisturbed request: the handler runs exactly when there is no key or no row; otherwise 422, the stored answer or 409 |
| Idempotency.RetryFinds | app/middleware/idempotency.py:114-156 | after an undisturbed request a retry is given its answer if that was below 500 and JSON, 422 with another body, and otherwise finds no row and runs |
| Idempotency.DecideIsExact | app/middleware/idempotency.py:114-124 | 422 exactly for another fingerprint, 409 exactly for the same one in progress, else the stored status and body |
| Idempotency.StepKeepsOwned | app/middleware/idempotency.py:92-158 | whatever step comes next, an in-progress row has exactly one claimant, running or dead, and a claimant has its row |
| Idempotency.StepKeepsInv | app/middleware/idempotency.py:68-158 | every step of any request keeps the protocol's whole invariant, releases and deaths included |
| Idempotency.HandlerRunsAtMostOnce | app/middleware/idempotency.py:92-158 | over every interleaving, a key that was never released has had its handler run at most once, by the claimant |
| Idempotency.EveryOtherReplyIsTheClaimants | app/middleware/idempotency.py:108-124 | and every other reply for that key is 422 exactly for a different fingerprint, else 409 or the very status and JSON the claimant's handler gave |
| Idempotency.UnclaimedRunsFollowARelease | app/middleware/idempotency.py:108-113 | with releases, a handler that runs unclaimed saw its insert fail and, before its load, its key released |
| Idempotency.CompletedStaysFinal | app/middleware/idempotency.py:149-158 | a completed row never changes over the rest of any run |
| Idempotency.ClaimComesTo | app/middleware/idempotency.py:132-158 | a claim comes to a completed row exactly when the answer is below 500 and JSON, holding that very answer; for any other the row goes and its release is logged; no other row changes |
| Idempotency.EveryReplayIsAnEarlierAnswer | app/middleware/idempotency.py:114-158 | over every run, releases and deaths included, whatever is replayed is below 500 and is what the handler of an earlier claimant with the same key and fingerprint answered |
| Idempotency.EveryAnswerIsLogged | app/middleware/idempotency.py:108-166 | over every run whatever a request was told is in the log, so that what is said of logged replies is said of all |
| Idempotency.OrphanedKeyStaysInUse | app/middleware/idempotency.py:126-128 | a handler that died with its claim leaves every later request of the same fingerprint a 409, for good |
| TimezoneGuard.ParseInsert | app/services/mnp_log_ingestion/pipeline/parse_insert.py:121-176 | parsing with in-batch collapse and batches of 200 ends with the table that inserting line by line gives |
| TimezoneGuard.StepKeepsOneZoneIff | app/services/timezone_change_guard.py:40-86 | a step of any kind keeps one zone per tenant exactly when, for a commit, every line is stored already or derives alike under the job's zone and the zone in effect, and, for a write, every entry of the tenant derives alike under both zones |
| TimezoneGuard.RunKeepsOneZoneIff | app/api/v1/customers.py:397-420 | over a whole run, with check and write as separate transactions, one zone holds in every state exactly when every commit and every write found that |
| TimezoneGuard.StepKeepsInv | app/api/v1/customers.py:397-420 | one change per tenant at a time, that the guard refuses or that finds no job in flight when it asks, and no job begun between grant and write, keep one zone |
| TimezoneGuard.CarefulRunsKeepOneZone | app/services/timezone_change_guard.py:74-96 | in every state of such a run all entries of a tenant were derived under its current zone, and no content is stored twice |
| TimezoneGuard.GuardIsEnoughIff | app/services/timezone_change_guard.py:50-86 | after a change that means something, without the override and undisturbed, every later commit of a job in flight keeps one zone, whatever its lines, exactly when entries existed, so that the change was refused, or no job of the tenant is in flight, or the two zones derive alike on every line |
| TimezoneGuard.JobsStayCurrentIff | app/services/timezone_change_guard.py:50-86 | right after such a change one zone holds in any case, and every job in flight has the zone in effect by name exactly when entries existed or no job of the tenant is in flight |
| TimezoneGuard.OneZoneMakesThreeColumnsEnough | alembic/versions/a1f6d70b3e92_partition_log_tables_by_utc_day.py:51-54 | then uniqueness on customer, hash and timestamp implies uniqueness on customer and hash |
| TimezoneGuard.ReingestAddsNothing | app/services/mnp_log_ingestion/pipeline/parse_insert.py:46-72 | then ingesting lines the tenant already has adds no row |
| TimezoneGuard.CommitKeepsOneZoneIff | app/services/mnp_log_ingestion/pipeline/parse_insert.py:97-110 | a job's commit keeps one zone exactly when each of its lines is stored already as the job derives it, or derives alike under the job's zone and the zone now in effect |
| TimezoneGuard.ChangeDuringIngestSplitsTimeline | app/services/timezone_change_guard.py:82-86 | a run without the override in which a change during a first ingest splits the timeline and stores a line twice |
| TimezoneGuard.IngestBetweenAskAndWriteSplitsTimeline | app/api/v1/customers.py:406-420 | a run in which a first ingest between the question and the write splits it, with no job in flight at either |
| Customers.Registry.SetTimezoneGuarded | app/api/v1/customers.py:397-420 | refused with the guard's reason, changing nothing, exactly when there is one and no override; otherwise only the zone is written |
| Customers.Registry.UpdateCustomer | app/api/v1/customers.py:424-466 | the permanent fields are written first and stay written when the timezone is refused; the switches only after it |
| Customers.UpdateWrites | app/api/v1/customers.py:455-466 | field by field: the permanent fields named in any case, and unless the zone is refused the zone and each of the two switches given; nothing else |
| Customers.RouteDecidesAsTheGuard | app/api/v1/customers.py:405-411 | the route refuses exactly when the guard's step in the state machine ends the change |
| Customers.RefusedPatchChangesNothingIff | app/api/v1/customers.py:455-460 | a PATCH whose timezone is refused leaves the tenant as it was exactly when the permanent fields it names are set already |
| Feed.KeyIsNullsLast | app/api/v1/logs.py:64-78 | the key orders as `seq NULLS LAST, line_number NULLS LAST`, and ties exactly on equal pairs: NULL is never taken for 0 |
| Feed.KeyIsTotalPreorder | app/api/v1/logs.py:64-78 | the key is a total preorder, so a stable sort by it is well defined |
| Feed.GroupByTransaction | app/api/v1/logs.py:1028-1030 | one bucket per transaction that has rows, holding exactly its rows in arrival order |
| Feed.GroupAndSort | app/api/v1/logs.py:1028-1032 | every bucket holds the stable sort of its transaction's rows |
| Feed.BucketSortIsGlobalSort | app/api/v1/logs.py:64-71 | sorting a bucket gives exactly the bucket's share of one stable sort of all rows |
| Feed.AnyStableSortIsGlobalSort | app/api/v1/logs.py:1031-1032 | however the bucket is sorted in place, if keys ascend and ties keep their order it is that share: nothing hangs on how the sort works |
| Feed.Render | app/api/v1/logs.py:1024-1036 | each transaction's block is its share of one global stable sort; a transaction without rows gets an empty block |
| Feed.RowsLandOnce | app/api/v1/logs.py:1028-1030 | every row lands in exactly one bucket, as often as it came |
| Timestamps.ReadStampOfStampText | bench/ingest_driver.py:77-78 | reading a printed instant gives it back, cut to the millisecond |
| Timestamps.StampTextOfReadStamp | bench/ingest_driver.py:77-78 | printing a timestamp that was read gives the same text |
| Timestamps.StampTextOrder | app/api/v1/saved_views.py:54-61 | string order of printed timestamps is time order to the millisecond |
| DateText.DayTextOrder | app/persistence/partitioning.py:216-227 | string order of printed dates is calendar order |
| TextLines.SplitLinesCutsExactly | bench/ingest_driver.py:74 | splitting at every line boundary Python knows loses nothing |
| TextLines.SplitLinesOfJoin | bench/ingest_driver.py:74-81 | the lines of a text are the only lines it splits into: joining and splitting are inverse |
| ShiftText.ShiftText | bench/ingest_driver.py:72-81 | the loop rewrites line by line, and the first timestamp it cannot read or move ends it |
| ShiftText.LogFormatIsLawful | bench/ingest_driver.py:42-43 | the driver's pattern and format satisfy what the results below assume of a timestamp format |
| ShiftText.ShiftKeepsLayout | bench/ingest_driver.py:72-81 | keeps every line boundary, unstamped line, line tail and the number of stamped lines, and moves each timestamp by exactly the delta, cut to the millisecond |
| ShiftText.ShiftByZeroIsIdentityIff | bench/ingest_driver.py:72-81 | shifting by nothing is the identity exactly when every timestamp in the text is valid, and is refused otherwise |
| ShiftText.ShiftsCompose | bench/ingest_driver.py:72-81 | a whole-millisecond shift followed by any other is the shift by the sum, refusals included |
| ShiftText.ShiftBackUndoesIff | bench/ingest_driver.py:72-81 | a whole-millisecond shift is undone by its opposite exactly when the text was printable to begin with |
| ShiftText.ShiftsComposeIff | bench/ingest_driver.py:72-81 | for any deltas two shifts equal the one by the sum exactly when the microseconds cut off do not carry, or there is nothing to shift |
| ShiftText.CarriesAreLost | bench/ingest_driver.py:77-79 | with any lawful format that can print the instants, two shifts of a line by 600 microseconds are not the one by 1200 |
| ShiftText.ACarryIsLostInTheLog | bench/ingest_driver.py:72-81 | in the driver's own format the line that says midnight of 14 June 2026 is such a line: all three shifts succeed and the two results differ |
| LogShift.ShiftedIff | bench/ingest_driver.py:72-81 | a text is shifted to another exactly when that has as many lines, each the line it was, with the timestamp it opens with, if any, printed anew the delta later and the rest kept |
| LogShift.LogLineIsShiftedIff | bench/ingest_driver.py:42-81 | any line of a log, whatever follows its timestamp, with or without a line break, comes back as the line of its instant the delta later exactly when the microseconds cut off do not carry |
| LogShift.OtherLineStays | bench/ingest_driver.py:75-80 | a line that is no timestamp, space and rest comes back as it was |
| LogShift.LogFormatIs | bench/ingest_driver.py:42-43 | what the driver takes for a timestamp, how it reads and prints it, and which instants it cannot print |
| IsoTime.IsoOrderIsTimeOrder | app/api/v1/saved_views.py:54-61 | `a <= b` as strings exactly when a's millisecond in UTC is not after b's, whatever the offsets; equal exactly when the milliseconds are |
| IsoTime.ClockAheadPrintsTheSame | app/api/v1/saved_views.py:58-61 | a clock ahead of UTC shows so much more and prints the same |
| IsoTime.IsoReads | app/api/v1/saved_views.py:54-61 | the text has its fixed places, ends in Z, and reads as the instant cut to the millisecond |
| KeepRecent.SelectDrops | scripts/keep_recent_days.py:62-70 | the nested loops collect, parent by parent and in order, the names whose trailing date is before the kept one as a string |
| KeepRecent.OldIffBeforeKeptDay | scripts/keep_recent_days.py:68-70 | string comparison picks a daily partition exactly when its day is before the kept day |
| KeepRecent.DropsAreExact | scripts/keep_recent_days.py:62-70 | of a consistent catalogue exactly the daily log partitions dated before the kept day are dropped: never DEFAULT, never another table's |
| KeepRecent.NewlineHidesNothing | scripts/keep_recent_days.py:68 | the date searched for is the last ten characters of the name, or of what precedes a final newline |
| KeepRecent.DroppedKeptInstantsIff | scripts/keep_recent_days.py:44-45 | a daily partition is dropped although it holds instants at or after the cut-off exactly if it is that of 12 September |
| KeepRecent.CutoffIsTheHourBefore | scripts/keep_recent_days.py:37-38 | the cut-off instant is one hour before the UTC start of the first day kept by name |
| Migration.ProvisionedDaysPlaceEveryRow | alembic/versions/a1f6d70b3e92_partition_log_tables_by_utc_day.py:138-152 | the days a build provisions leave no keyed row without its partition, so DEFAULT holds exactly the rows without a key |
| Migration.PartitionGoesThroughIff | alembic/versions/a1f6d70b3e92_partition_log_tables_by_utc_day.py:155-174 | a partitioning goes through exactly when the days can be had, each has a next period, and as many rows were copied as there were; then it has a partition for each day's period and no other; else which of these failed, with the counts of a short copy |
| Migration.DataDaysHoldTheRunway | alembic/versions/a1f6d70b3e92_partition_log_tables_by_utc_day.py:138-152 | never more than 3650 days, and the runway always among them |
| Migration.PartitionLosesAndMisplacesNothing | alembic/versions/a1f6d70b3e92_partition_log_tables_by_utc_day.py:155-174 | a partitioning that goes through has lost no row, whatever rows the copy left out and in whatever order it brought them, and has every row in its place |
| Migration.UnpartitionLosesNothing | alembic/versions/a1f6d70b3e92_partition_log_tables_by_utc_day.py:188-205 | collapsing returns every row the table holds by then |
| Migration.RoundTrip | alembic/versions/a1f6d70b3e92_partition_log_tables_by_utc_day.py:155-205 | up and down again gives the original multiset of rows, and is refused exactly when the copy back is short |
| Migration.Schema.CreatePartitions | alembic/versions/a1f6d70b3e92_partition_log_tables_by_utc_day.py:163-164 | one partition per period of the days, unless some period runs past the calendar |
| Migration.Schema.CopyInto | alembic/versions/a1f6d70b3e92_partition_log_tables_by_utc_day.py:166-167 | routes every row the copy brings across and reports how many there were |
| Migration.Schema.Partition | alembic/versions/a1f6d70b3e92_partition_log_tables_by_utc_day.py:155-179 | all of it or nothing: on success the same rows, each in its UTC day's partition; on any error the schema as it was |
| Migration.Schema.Unpartition | alembic/versions/a1f6d70b3e92_partition_log_tables_by_utc_day.py:188-205 | all of it or nothing: on success a plain table with the same rows |
| Tickets.PiecesTileTheRange | app/services/analytics/pending_windows.py:62-87 | the tickets of a range are chained from its start to its end, none over a day, as many as days begun |
| Tickets.PiecesCoverExactly | app/services/analytics/pending_windows.py:62-87 | an instant is in some ticket's range exactly when it is in the padded range; an inverted range has no tickets |
| Tickets.Queue.Publish | app/services/analytics/pending_windows.py:62-87 | appends exactly those tickets to the queue and returns their number |
| Metrics.AcceptedIff | app/api/v1/analytics.py:219-281 | a call is accepted exactly when it asks for something, parses, starts, pauses, resumes or keeps the status, changes neither shape nor start of a metric that has been live, has a name and a measure if it edits, is acceptable by the strict rules if it edits or starts a draft and by the lenient ones if it resumes, and gives a readable start |
| Metrics.AcceptedWrites | app/api/v1/analytics.py:225-300 | and then writes the status it spells, the start it gives or, starting a draft without one, now, the description it gives, and of the shape the edited columns alone |
| Metrics.StatusCallIff | app/api/v1/analytics.py:181-252 | told only a status, an acceptable metric takes it exactly if that starts a draft, pauses, resumes or keeps it; else it is 400 for a word that is no status and 409 for any other, and nothing changes |
| Metrics.PauseThenResume | app/api/v1/analytics.py:255-264 | pausing a live metric and resuming it, judged leniently, leaves it as it was and publishes nothing |
| Metrics.TicketsAreTheRangeIff | app/services/analytics/pending_windows.py:72-74 | the tickets of an activation are those of the stated range exactly when the pad is zero |
| Metrics.Registry.BeginHistory | app/api/v1/analytics.py:282-299 | fixes the start, now if none was given, and publishes the history before the watermark if there is any |
| Metrics.Registry.UpdateMetric | app/api/v1/analytics.py:195-311 | a refused call writes no row and no ticket; an accepted one writes the row and its tickets together |
| Metrics.CallSettles | app/api/v1/analytics.py:180-181 | a draft is never paused, a metric that has been live is never a draft again, and neither its shape nor its start nor what was published for it changes |
| Metrics.LifecycleOnlyMovesForward | app/api/v1/analytics.py:195-311 | over every run of calls a metric that has been live is never a draft again, and its shape, its start and what was published for it no longer change |
| Metrics.HistoryIsPublishedOnce | app/api/v1/analytics.py:282-299 | over every run a draft has published nothing; otherwise exactly one call took it live, and exactly its range from the start to the watermark was published, if not empty |
| MetricRaces.GoesLiveOnceIff | app/api/v1/analytics.py:210-299 | over every run of overlapping calls from a fresh draft, at most one goes live exactly when each call that goes live, by the row it had loaded, still finds the stored row a draft when it commits |
| MetricRaces.LifecycleHoldsIff | app/api/v1/analytics.py:267-299 | at most one call goes live, and from then on the metric is never a draft and keeps shape and start, exactly when every accepted commit that meets it live neither goes live again nor sets a column or start to anything but what was loaded or is stored |
| MetricRaces.PublishedIsThatHistory | app/api/v1/analytics.py:282-299 | if at most one call goes live, nothing is published before it, and over the whole run exactly the history from the start that call went by to its watermark |
| MetricRaces.PublishedItsHistoryIff | app/api/v1/analytics.py:282-299 | then what was published is the history from the start now stored exactly when the call that went live went by the start the row got, or neither start is before the watermark |
| MetricRaces.OverlappingActivationsPublishTwice | app/api/v1/analytics.py:210-299 | a run from a fresh draft in which two calls that loaded it both go live and the range from 0 to 3 is published twice |
| MetricRaces.StartMovedUnderActivation | app/api/v1/analytics.py:282-299 | a run in which one call goes live and publishes from 0, while the stored start was moved to 2 between its load and its commit |
| MetricRaces.LateCommitSettlesIff | app/api/v1/analytics.py:267-281 | one commit decided on an earlier row leaves a live metric its shape and start exactly when each column the call edits, as its definition stores it, and its start are what was loaded or what the row holds by now |
| MetricRaces.RunsWithoutOverlapAreSerial | app/api/v1/analytics.py:195-311 | a run in which every call commits on the row it loaded is the run of its calls one after the other |
| Breakdown.AnalyticsBreakdown | app/api/v1/analytics.py:555-581 | the loop and the ranking give the top of the stably sorted per-value totals |
| Breakdown.TotalsAddUp | app/api/v1/analytics.py:555-562 | the per-value sums and counts add up to those of all points |
| Breakdown.OneReadingMore | app/api/v1/analytics.py:555-562 | one point more adds its sum and its count, where it has them, to the value of its first dimension, or to none, and to no other |
| Breakdown.TotalsIgnoreOrder | app/api/v1/analytics.py:555-562 | the totals do not depend on the order of the points |
| Breakdown.TopIsTheHeaviest | app/api/v1/analytics.py:572-585 | as many rows as asked for or as there are values, each value once with its own total, heaviest first, and no omitted value outweighs a kept one, for sums and for levels |
| Breakdown.RankedBySizeOrMean | app/api/v1/analytics.py:574-579 | sums are ranked by size and levels by the mean reading, told by multiplying out; a value nothing was read of leads none |
| Breakdown.SignDoesNotMatter | app/api/v1/analytics.py:574-579 | the sign of a total does not matter to its weight |
| Breakdown.AnyStableRankingIsTheRanking | app/api/v1/analytics.py:581 | any order that is heaviest first and keeps ties by first appearance gives these rows |
| Breakdown.RankingIgnoresOrder | app/api/v1/analytics.py:572-581 | without ties in weight the whole answer is independent of the order of the points |
| SavedViews.CommentIsAcceptedIff | app/api/v1/saved_views.py:222-296 | a comment is accepted exactly when no field is of the wrong type, the source is a known one and there is a body, an anchor, a reference or a quote; it then holds, key by key, what was sent, with the defaults for what was not |
| SavedViews.ReplyIsAcceptedIff | app/api/v1/saved_views.py:549-558 | a reply is accepted exactly with a text that says something and an author that is one if given; it then is that text, by that author or anonymous |
| SavedViews.SpacesAre | app/api/v1/saved_views.py:222-230 | the characters that count as blank, by code point |
| SavedViews.CreatedIff | app/api/v1/saved_views.py:347-386 | a new view is accepted exactly with a name, a state, a known status if any and texts where texts belong, and holds what was sent |
| SavedViews.PatchedIff | app/api/v1/saved_views.py:424-461 | a PATCH is 404 exactly for a view that is not the tenant's own, is accepted exactly with values of the right kind, and writes, key by key, what was sent: null empties, absence keeps |
| SavedViews.FindComment | app/api/v1/saved_views.py:299-304 | a comment of the thread with the id, or not found exactly when there is none |
| SavedViews.Store.GetTenantScoped | app/api/v1/saved_views.py:185-201 | a view of another tenant is not found |
| SavedViews.Store.CreateSavedView | app/api/v1/saved_views.py:347-386 | a new view with an empty thread and no closure, or a 400 and no view |
| SavedViews.Store.UpdateSavedView | app/api/v1/saved_views.py:408-461 | writes exactly the keys present, never the thread; a refused PATCH writes nothing |
| SavedViews.Store.DeleteSavedView | app/api/v1/saved_views.py:465-475 | removes a view of the tenant's own, or is not found and removes nothing |
| SavedViews.Store.AddComment | app/api/v1/saved_views.py:479-526 | appends exactly the comment that was sent and stamps the view, or refuses and changes nothing: 400 for an unreadable body, then 404, then 409, then 400 for its content |
| SavedViews.Store.AddReply | app/api/v1/saved_views.py:530-563 | appends exactly the reply that was sent, last under the first comment with the id, every comment with another id as it was; or refuses and changes nothing, for the stated reasons |
| SavedViews.Store.UpdateComment | app/api/v1/saved_views.py:567-597 | sets the resolved flag of the first comment with the id, every comment with another id as it was; or refuses and changes nothing, for the stated reasons |
| SavedViewRuns.ChangeGrowsThread | app/api/v1/saved_views.py:408-597 | an accepted call leaves its view's thread as it was or adds to it, and keeps all ids distinct |
| SavedViewRuns.PatchKeepsThread | app/api/v1/saved_views.py:416-422 | PATCH never touches comments, tenant or creation time |
| SavedViewRuns.ThreadsOnlyGrow | app/api/v1/saved_views.py:299-318 | over every run a surviving view keeps every comment in place with its id, author, body, anchor, refs, quote and source, and every reply in place |
| SavedViewRuns.CompletedThreadIsFrozen | app/api/v1/saved_views.py:216-219 | a thread operation on a completed view changes nothing, and is a 409 exactly when the view is the tenant's own and the body readable |
| SavedViewRuns.CompletedHasClosureUnlessNulled | app/api/v1/saved_views.py:450-456 | after a PATCH a completed view has a closure exactly unless that PATCH said null |
| SavedViewRuns.CompletedOnCreationHasNoClosure | app/api/v1/saved_views.py:361-379 | a view created as completed has no closure |
| SavedViewRuns.CompletedCanBeReopened | app/api/v1/saved_views.py:438-441 | a PATCH takes a completed view back, and its thread is open again |
| SavedViewRuns.OwnSuffices | app/api/v1/saved_views.py:185-201 | the answer to a write depends on nothing but the tenant's own views |
| SavedViewRuns.TenantsDoNotInterfere | app/api/v1/saved_views.py:185-201 | what a tenant has after any run is what its own calls alone would have left it |
| SavedViewRaces.AsIfAloneIff | app/api/v1/saved_views.py:307-318 | a thread request ends as if it had run alone on the row it meets exactly when, accepted, the view is not completed since and the loaded comments are still the row's but for what it overwrites, or, refused, the row refuses it too |
| SavedViewRaces.CommitKeepsThreadIff | app/api/v1/saved_views.py:307-318 | a commit keeps every comment and reply of the row exactly when the request had loaded them all |
| SavedViewRaces.LockIsReadAtLoad | app/api/v1/saved_views.py:216-219 | a thread request is a 409 exactly when the view as loaded was completed and its own and the body readable |
| SavedViewRaces.CompletedRowIsUntouchedIff | app/api/v1/saved_views.py:216-219 | a row completed by now is untouched by an overlapping thread request exactly when that was refused on what it had loaded, or is a resolve that writes what is there |
| SavedViewRaces.FirstOfTwoCommentsIsLost | app/api/v1/saved_views.py:516-526 | two people comment at once and the first comment is gone |
| SavedViewRaces.ResolveIsReverted | app/api/v1/saved_views.py:583-597 | a resolve is undone by a comment that had loaded the thread before it |
| SavedViewRaces.CompletedViewTakesAComment | app/api/v1/saved_views.py:499-526 | a view completed between a request's load and its commit takes the comment |
| SavedViewRaces.ThreadOnlyGrowsIff | app/api/v1/saved_views.py:479-597 | over every run of loads, commits and PATCHes the thread only grows exactly when every commit had loaded all the comments and replies it meets |
| SavedViewRaces.AloneRunsAreSerial | app/api/v1/saved_views.py:479-597 | a run whose requests all end as if alone leaves the view as its calls do one after the other in the order of their commits |

## Left out

- SQL, sessions, HTTP, authentication and logging: tables are maps and sets, each commit is one step, clocks, generated ids and query results are inputs.
- Real timezone tables: what instant a raw line has under a zone is a fixed unknown function, and zones are compared by name, which is all the guard does.
- Calendar.DayOf: instants outside years 1 to 9999, which a `timestamptz` can hold and Python cannot.
- DateText.DayText: years below 1000, which `%Y` pads on some platforms only; the shifter ends there with an outcome of its own.
- PartitionNames.PatternHidesOnlyOurs: a numbered name that the pattern matches need not be a real date, since the pattern only looks at digits.
- Catalogue.Database.EnsureCoverage: that DEFAULT holds no row of a partition to be created is required, because PostgreSQL refuses it otherwise; partitions created beside this code are not modelled.
- Retention.StepKeepsInv: how analytics health is judged is an input of each drop, and a provisioning or drop that fails half-way is not modelled; neither are rows moved out of DEFAULT by script.
- Idempotency.HandlerRunsAtMostOnce: expiry and sweeping of keys; the middleware writes an expiry time and never reads it.
- Idempotency.KeyStore.Dispatch: which paths are allowed and how the fingerprint is hashed; a request is keyed or it is not, and a fingerprint is a value.
- TimezoneGuard.ParseInsert: reading and parsing the file; the lines are an input, and distinct lines are taken to have distinct hashes.
- TimezoneGuard.RunKeepsOneZoneIff: deleting a tenant, and writes to the zone that do not go through the guard.
- Customers.Registry.UpdateCustomer: normalising the code, the administrator check and the presence list.
- Feed.Render: the text of a rendered transaction and the pager headers.
- ShiftText.LogFormatIsLawful: digits other than ASCII, which a Python pattern also matches.
- Migration.Schema.Partition: constraints and indexes built after the copy, and a timestamp that no `date` can hold; a copy may leave rows out, but one INSERT from a SELECT neither invents nor repeats any, which a count would not see.
- Migration.UnpartitionLosesNothing: the narrower unique constraint a downgrade restores; `TimezoneGuard.OneZoneMakesThreeColumnsEnough` says when it cannot fail.
- Metrics.Registry.UpdateMetric: the unique constraint on the name; how a definition is parsed and judged, which is an input.
- MetricRaces.LateCommitSettlesIff: that a commit writes the columns whose value changed is how the object-relational mapper works, not something this code says.
- Breakdown.AnalyticsBreakdown: rounding in the decimal context; sums and quotients are exact.
- SavedViews.Store.UpdateSavedView: several clock readings within one request are one; timestamps are kept as printed.
- SavedViewRaces.AsIfAloneIff: a PATCH is one step there, for it writes no comments; a view deleted between load and commit is not modelled.
- The script that moves rows out of the DEFAULT partition, the purge of a whole log space, remote fetching, forecasts, the fold itself and the remaining routes: single-branch facts, or claims the code does not support.
