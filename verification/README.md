# A verified model of the desktop daemon's stateful cores

The daemon behind the desktop bar keeps an agenda, steers battery charging, records battery history,
imports calendars, drives the audio volume and the backlight, and chooses the active media player.
This project models those parts in Dafny and proves what they promise over every input, every run and
every reachable state. `dafny verify dfyconfig.toml` checks it.

How the files group:

- **Agenda.** `AgendaStore` is a log of tables, one more for each numbered commit, with receipts by request
  id. `AgendaSnapshot` is the in-memory vector that follows it by contiguous results. `AgendaService` and
  `AgendaRuns` state and prove the refinement of the store by the snapshot over runs of commits, lost
  replies, replays, receipt lookups, reloads, restarts and calendar imports, and of the snapshot by the
  cached catalog. `AgendaProgress` says what each answer brings about. `ActivityData` is the object with its
  fields, proved against them. `Projection` gives civil days their meaning in a time zone, `Catalog` sorts
  and filters on top of `StableSort` and `TextOrder`, `CatalogMeaning` says what its order and words mean,
  `Paging` proves that following cursors lists exactly the candidates, and `AgendaWalks` joins the chain
  from pages to store rows. `Whitespace` is what splitting and trimming share.
- **Battery protocol.** `BatteryRuntime` is the durable record, `ThresholdWriter` the helper's two-file
  write, `BatteryProtocol` every request as the sequence of durable states it passes through (a crash leaves
  one of them), `BatteryMonitor` one reconciliation pass, `BatteryRuns` and `BatteryFences` the laws over
  whole runs, `BatteryRestoration` what a pass does with a record it finds, `BatteryOutcomes` and
  `BatteryPasses` what requests and passes leave on a device, and `BatteryApi` the imperative requests
  proved equal to the sessions.
- **Battery history.** `EnergyBins` and `EnergyTheorems` cover trapezoid energy in bins, `BatteryHistory`
  and `HistoryStore` the recorder, `EnergyMeaning` and `HistoryMeaning` what both say of points and
  readings, `BatteryAlerts` the alert flags and levels.
- **Smaller cores.** `CalendarParser`, `CalendarGrammar` and `CalendarLines` (component stack against a
  grammar over lines), `ImportAdapter`, `AudioQueue`, `MediaSelection`, `MediaRuns`, `MediaService`,
  `Brightness`.

Abstractions: floats are reals; a record's serialized size is a function; digests are the values they
digest; a time zone is the partial map from local seconds to earliest instants together with the local date
of an instant; civil dates are day numbers; the outcome of every foreign call (store, file save, hardware
write, reload) is an arbitrary argument. Batteries in one reading have distinct names, being directory
entries, and players in one list distinct bus names. Automatic induction is switched off for every lemma, so
each inductive step is written out.

Properties that turned out false of the code, each with a failing input and the exact condition:

- Calendar import acceptance overwrites the accepted revision without looking at the items
  (`AgendaRuns.ImportHidesLostCommit`). The snapshot stays in step exactly when the receipts it has not seen
  cancel out (`AgendaService.ImportKeepsSyncedExactly`, `AgendaRuns.GapOfOne`), and receipts are silenced
  exactly when there were any (`AgendaService.ImportSilencesReceipts`).
- After such an import and a restart, one fence stands over two catalogs
  (`AgendaRuns.RestartChangesFencedRead`). Reads under one fence agree exactly when the snapshots hold the
  same items (`AgendaRuns.FencedReadsAgree`, `AgendaRuns.SyncedReadsAgree`).
- A start records the published reading, which can be older than the device's range
  (`BatteryProtocol.StaleStartLosesRange`), and a calibration start gives up its record after a definite
  refusal (`BatteryProtocol.RefusedStartGivesUp`). The exact conditions are
  `BatteryProtocol.ChargeOnceRecoverable` and `BatteryProtocol.CalibrationRecoverable`.
- A monitor pass that was given a reading from before a charge-once started drops the charge-once record
  while the device is still open to 0-100 (`BatteryRuns.StaleReadingDropsRecord`); the exact condition is
  `BatteryRuns.PassReleases`, over runs `BatteryRuns.RunReleasesExactly`. `docs/battery.md` line 80 says that
  the marker is cleared only after verified restoration; the model follows the code.
- A pass that finishes a charge-once overwrites a fence that another battery received in the same pass
  (`BatteryFences.PassLosesNewFence`, exact form `BatteryFences.PassKeepsNewFence`); for fences from before
  the pass the exact form is `BatteryFences.PassKeepsFence`.
- A history file whose active times run backwards is loaded as it is (`BatteryHistory.UnorderedFile`, exact
  condition `BatteryHistory.StartOnAxis`).
- Percentages survive the backlight exactly when it has at least a hundred steps
  (`Brightness.RoundTripExactly`); with ten steps, raising by one percent never moves it
  (`Brightness.StuckAtFive`).
- An unavailable reading clears the level but not the alert flags (`BatteryAlerts.UnavailableDiverges`); the
  two agree exactly under the condition of `BatteryAlerts.LevelsMatchAlerts`.
- Two sources can build the same raw event id (`ImportAdapter.EventIdsCollide`), exactly under the condition
  of `ImportAdapter.EventIdsExactly`; the agenda identity tells them apart (`ImportAdapter.IdentityExactly`).

## Model

| member | source | states |
|---|---|---|
| `AgendaStore.MutateKeepsValid` | src/activity/agenda_store/database.rs:521-664 | every mutation, fresh, replayed or refused, keeps each receipt an explanation of exactly one commit of the log, and its own reply explains the log |
| `AgendaStore.InvalidateKeepsValid` | src/activity/agenda_store/database.rs:354-365 | invalidation adds a revision with unchanged items and keeps the log explained |
| `AgendaStore.UnattributedKeepsItems` | src/activity/agenda_store/database.rs:354-365 | revisions that no receipt holds changed no item |
| `AgendaStore.ReplayedIsLog` | src/activity/agenda_store/database.rs:611-664 | the receipts alone carry the items from any revision to any later one |
| `AgendaProgress.KnownRequest` | src/activity/agenda_store/database.rs:521-550 | a known request is answered from its receipt without effect, or refused when it asks for something else |
| `AgendaProgress.FreshRequest` | src/activity/agenda_store/database.rs:551-664 | a create, patch or delete is refused exactly for a taken id or a wrong expected revision, and otherwise adds one revision that changes exactly its own item in the stated way |
| `AgendaSnapshot.ApplyResultRefines` | src/activity/service.rs:80-100 | editing the vector by a newer result is editing the table it stands for, and keeps ids distinct |
| `AgendaSnapshot.SameTableSameRecords` | src/activity/agenda_service.rs:219-226 | two vectors with distinct ids for the same table hold the same records |
| `AgendaService.NextConsistent` | src/activity/agenda_service.rs:140-186 | every step, whatever is lost, keeps ids distinct and the accepted revision inside the store's history |
| `AgendaService.AcceptKeepsInStep` | src/activity/agenda_service.rs:266-287 | accepting any reply that explains the log, old or new or after a gap, keeps the snapshot equal to the store at its own revision |
| `AgendaProgress.ReplyArrives` | src/activity/agenda_service.rs:266-287 | an answered write takes the snapshot to the reply revision when it is the next one and to the store when a gap is reloaded, with exactly the store items; older replies leave it |
| `AgendaProgress.OwnCommitIsSeen` | src/activity/agenda_service.rs:266-325 | from a current snapshot, an answered fresh commit is in the snapshot at once |
| `AgendaProgress.LookupCatchesUp` | src/activity/agenda_service.rs:228-258 | looking up a receipt newer than the snapshot brings it to the store revision and items when the reload answers, and else changes nothing |
| `AgendaProgress.OpeningLoads` | src/activity/agenda_service.rs:219-226 | opening and restarting take the store as it is, with no imports and no cache |
| `AgendaProgress.ImportArrives` | src/activity/agenda_service.rs:140-186 | changed imports that pass the checks replace the old ones under the next store revision, and any others change nothing |
| `AgendaProgress.AcceptableMeans` | src/activity/agenda_service.rs:152-173 | the checks are ten thousand events, a hundred megabytes beside the items, and no shared identity |
| `AgendaProgress.AcceptedImportsAreDistinct` | src/activity/agenda_service.rs:106-117 | what passes the checks never fails a later catalog for its identities or its number |
| `AgendaProgress.StampedIds` | src/activity/agenda_service.rs:96-105 | stamping sorts the imports by id and changes nothing but their revision |
| `AgendaService.NextSynced` | src/activity/agenda_service.rs:219-287 | every step keeps the snapshot equal to the store at its revision, imports only when nothing was unpublished |
| `AgendaService.ImportKeepsSyncedExactly` | src/activity/agenda_service.rs:177-184 | over a gap of any size, an accepted import keeps the snapshot in step if and only if the receipts the snapshot has not seen, replayed over it, give it back |
| `AgendaService.ImportSilencesReceipts` | src/activity/agenda_service.rs:249-256 | after an accepted import no receipt reloads the snapshot any more; one would have before if and only if a revision in the gap has a receipt |
| `AgendaService.FlatteningsAgree` | src/activity/agenda_service.rs:96-101 | the records of all sources do not depend on the order in which the sources are visited |
| `AgendaRuns.RunStaysSynced` | src/activity/agenda_service.rs:140-287 | over every run whose imports see nothing unpublished, the snapshot is the store at its revision and the revision never falls |
| `AgendaRuns.RunStaysConsistent` | src/activity/agenda_service.rs:140-287 | over every run at all, the service stays consistent, its revision never falls and the store only grows |
| `AgendaRuns.CurrentMeansPublished` | src/activity/agenda_service.rs:177-184 | when every later revision is an invalidation, nothing is unpublished |
| `AgendaRuns.GapOfOne` | src/activity/agenda_service.rs:177-184 | with a gap of one revision, an import keeps the snapshot in step if and only if no receipt holds that revision |
| `AgendaRuns.ImportHidesLostCommit` | src/activity/agenda_service.rs:177-184 | the failing run: a commit whose reply is lost, then an import; the item stays hidden and its receipt changes nothing |
| `AgendaRuns.ReadIsRebuild` | src/activity/agenda_service.rs:70-139 | the catalog returned, cached or not, equals a rebuild from the present snapshot and imports |
| `AgendaRuns.RunStaysFresh` | src/activity/agenda_service.rs:70-139 | over every run the cached catalog stays equal to a rebuild for its own key whenever the key is current |
| `AgendaRuns.BuildIgnoresOrder` | src/activity/agenda_service.rs:96-128 | a build does not depend on the order in which sources are visited |
| `AgendaRuns.ReadShowsStore` | src/activity/agenda_service.rs:70-139 | a synced read shows exactly the store's rows and the imports |
| `AgendaRuns.FencedReadsAgree` | src/activity/agenda_service.rs:70-139 | two reads with equal revision, digest, today and zone show the same catalog if and only if their snapshots hold the same items |
| `AgendaRuns.SyncedReadsAgree` | src/activity/agenda_service.rs:70-139 | beside a synced service, such as one just restarted, such reads agree if and only if the other service was synced too |
| `AgendaRuns.RestartChangesFencedRead` | src/activity/agenda.rs:456-471 | the failing pair: after a hidden commit and a restart, the same fence stands over a different catalog |
| `AgendaRuns.SameRevisionSameData` | src/activity/service.rs:88-98 | without a restart an unchanged revision means unchanged items and imports |
| `ActivityData.ActivityData.ApplyAgendaResult` | src/activity/service.rs:80-100 | the in-place edit is the value edit, and reports whether the revision was newer |
| `ActivityData.ActivityData.AcceptAgenda` | src/activity/agenda_service.rs:266-287 | a contiguous reply moves the snapshot to its revision with its item, an old one changes nothing, and a gap reloads |
| `ActivityData.ActivityData.AgendaReceipt` | src/activity/agenda_service.rs:228-258 | a receipt newer than the accepted revision reloads, any other changes nothing |
| `ActivityData.ActivityData.AcceptCalendarImports` | src/activity/agenda_service.rs:140-186 | events equal in every field change nothing; rejected or refused ones neither; accepted ones, even if only a colour changed, overwrite the revision and raise the import revision |
| `ActivityData.ActivityData.ReadCatalog` | src/activity/agenda_service.rs:70-139 | a hit returns the cache, a miss builds, checks and stores it; a failed check stores nothing |
| `ActivityData.AllDistinct` | src/activity/agenda_service.rs:113-117 | true exactly when no two records share an id |
| `ActivityData.WithinBudget` | src/activity/agenda_service.rs:118-127 | true exactly when the summed sizes stay within the budget |
| `ActivityData.CheckImports` | src/activity/agenda_service.rs:152-173 | true exactly when the imports are few enough, small enough and collide with nothing |
| `StableSort.TwoPassesAreOne` | src/activity/agenda.rs:392-400 | a stable keyed sort after an id sort is one lexicographic sort |
| `StableSort.SortIgnoresArrangement` | src/activity/agenda.rs:392-400 | sorting comparable elements does not depend on their input order |
| `TextOrder.PrecedesMeans` | src/activity/agenda.rs:395-395 | ids are compared by their first differing character, and a beginning comes before the whole |
| `Catalog.CatalogOrder` | src/activity/agenda.rs:343-413 | the catalog is its input, nothing lost or added, in one lexicographic order of key then id |
| `CatalogMeaning.GroupsInOrder` | src/activity/agenda.rs:343-362 | in every catalog today comes first, then upcoming, then past, then undated items |
| `CatalogMeaning.GroupsByTime` | src/activity/agenda.rs:343-362 | within today and upcoming an earlier start comes first, and within the past a later end |
| `Catalog.CatalogIgnoresArrangement` | src/activity/agenda.rs:392-413 | for distinct ids the catalog does not depend on input order |
| `Catalog.GetFinds` | src/activity/agenda.rs:414-416 | lookup by id finds an item exactly when one has that id, and that item |
| `Catalog.CandidatesExact` | src/activity/agenda.rs:474-485 | the candidates by cached memberships and search text are exactly the records that match by themselves, in catalog order, each once |
| `CatalogMeaning.WordsRoundTrip` | src/activity/agenda.rs:482-482 | a query gives back exactly the words it was written with, whatever the white space between them |
| `Catalog.MarkDay` | src/activity/agenda.rs:533-550 | a day's marks are set exactly when the unqueried list of that day holds that kind, though the scan stops early |
| `Catalog.Markers` | src/activity/agenda.rs:518-558 | one exact marker for each day of a range of 1 to 370 days, refusal otherwise |
| `Paging.List` | src/activity/agenda.rs:443-517 | a page is the longest run from the cursor within limit and byte budget, or the error the request deserves |
| `Paging.RefusalsMean` | src/activity/agenda.rs:451-454 | which requests are refused before a page is made, in which order, and that no page exceeds a hundred items |
| `Paging.Fill` | src/activity/agenda.rs:487-501 | the filling loop takes exactly as many candidates as limit and budget allow |
| `Paging.FullPageUnique` | src/activity/agenda.rs:490-505 | limit and budget determine the page end |
| `Paging.CursorIsFenced` | src/activity/agenda.rs:456-471 | an issued cursor is later found stale if and only if the query, day, today, zone, revision or imports differ |
| `Paging.WalkListsCandidates` | src/activity/agenda.rs:443-517 | following cursors with any per-page limits returns the candidates in order, each once, in finitely many pages within limit and budget |
| `Paging.WalkCompletesExactlyWhenAllFit` | src/activity/agenda.rs:486-517 | for any budgeted sizes, a completing walk exists if and only if every candidate fits the budget alone |
| `Paging.WalksComplete` | src/activity/agenda_store/model.rs:227-230 | over validated records, which are at most 1 MiB, every fresh walk with any per-page limits can be followed to its end |
| `Paging.NeverTooLarge` | src/activity/agenda.rs:502-505 | over validated records no request is refused for the size of a summary |
| `AgendaWalks.WalkListsStore` | src/activity/agenda.rs:443-517 | a completed walk over a read of a synced service lists exactly the wanted ones of the store rows at that revision and the imports, each once and in catalog order |
| `AgendaWalks.StoreCanBeListed` | src/activity/agenda.rs:443-517 | over validated records such a walk always exists |
| `Projection.MidnightIsFirstValid` | src/activity/agenda_projection.rs:32-45 | midnight is the first valid local second of the three days searched, and undefined exactly when there is none |
| `Projection.MidnightMonotone` | src/activity/agenda_projection.rs:32-45 | midnight never decreases over days in a monotone zone |
| `Projection.DaysTile` | src/activity/agenda_projection.rs:46-49 | each day ends where the next begins |
| `Projection.MomentHasDay` | src/activity/agenda_projection.rs:19-26 | an instant in a covered range of days is on one of them |
| `Projection.MomentHasOneDay` | src/activity/agenda_projection.rs:19-26 | and on no other |
| `Projection.SpanDays` | src/activity/agenda_projection.rs:19-26 | a timed item is on exactly the days that hold one of its moments |
| `Projection.TimedEndpoints` | src/activity/agenda_projection.rs:66-88 | a timed schedule is on exactly the days, from midnight to midnight, that meet the time from its start to its end; equal ends are one instant, a start alone runs through today and an end alone from today |
| `Projection.SkippedDayIsEmpty` | src/activity/agenda_projection.rs:19-49 | a skipped civil day holds no timed item |
| `Projection.CivilEndpoints` | src/activity/agenda_projection.rs:54-66 | a start-only schedule runs through today, an end-only one from today, and both ends are inclusive |
| `ThresholdWriter.Device.SetThresholds` | src/battery/helper.rs:269-316 | write order, rollback and report: each failure told from the others, a failed second write always undone, reports exact readbacks, and unrounded writes only through valid pairs |
| `BatteryProtocol.ChargeOnceCovered` | src/api/battery.rs:156-189 | at every crash point the device still has its own range or the durable record names the battery with the range that was read |
| `BatteryProtocol.ChargeOnceRecoverable` | src/api/battery.rs:156-189 | the device's own range is recoverable at every crash point if and only if it was the range read or the device never left it |
| `BatteryProtocol.CalibrationCovered` | src/api/battery.rs:466-552 | the same cover for calibration start at every crash point before the end, and at the end if and only if it does not give up |
| `BatteryProtocol.CalibrationRecoverable` | src/api/battery.rs:466-552 | the own range is recoverable at every crash point if and only if it was the range read and is not given up, or the device never left it |
| `BatteryProtocol.StaleStartLosesRange` | src/api/battery.rs:160-168 | the failing start: a reading of 75-80 recorded for a device at 40-60 makes 40-60 unrecoverable |
| `BatteryProtocol.RefusedStartGivesUp` | src/api/battery.rs:522-552 | the failing start: discharge refused and the range write back denied leaves 0-100 with nothing recorded |
| `BatteryApi.Host.HardwareResponse` | src/api/battery.rs:359-372 | a confirmed request drops its battery's fence from the record on disk and nothing else |
| `BatteryApi.Host.RequestChargeOnce` | src/api/battery.rs:156-189 | the request passes through exactly the session's durable states |
| `BatteryApi.Host.RequestCalibration` | src/api/battery.rs:215-236 | the same for starting a calibration, with both rollbacks |
| `BatteryApi.Host.RollBackCalibration` | src/api/battery.rs:503-552 | the same for the rollback after a refused behaviour |
| `BatteryApi.Host.RequestCancel` | src/api/battery.rs:237-278 | the same for cancelling a calibration |
| `BatteryApi.Host.RequestInhibit` | src/api/battery.rs:554-573 | the same for inhibiting charging |
| `BatteryApi.Host.RequestResume` | src/api/battery.rs:575-593 | the same for resuming charging |
| `BatteryOutcomes.RequestLeaves` | src/api/battery.rs:156-278 | for every outcome of every call, a request touches only its own device and leaves the stated behaviour and range: force-discharge, inhibit-charge or auto as asked, or what a refused or unclear write left |
| `BatteryOutcomes.GrantedRecords` | src/battery/config.rs:254-356 | a granted start leaves its operation recorded with battery, range and time, a granted cancellation or resumption nothing; its fence is gone and other fences stay |
| `BatteryOutcomes.PendingRefuses` | src/api/battery.rs:170-175 | while an operation is pending, starts, policy changes and endings of another operation do nothing |
| `BatteryOutcomes.OperationsExpire` | src/battery/config.rs:254-322 | a charge-once expires after 24 hours, a calibration after 48, an inhibition never |
| `BatteryRuns.RequestLawful` | src/api/battery.rs:156-278 | at every durable step of any request with any outcome, one operation at a time and pending battery and range unchanged; and no record dropped before its range is back, if and only if the request does not abandon one |
| `BatteryRuns.PassOrderly` | src/battery/mod.rs:189-307 | at every durable step of any pass with any readings, one operation at a time and pending battery and range unchanged |
| `BatteryRuns.PassReleases` | src/battery/mod.rs:245-269 | a pass drops no record before its range is back if and only if it does not finish a due charge-once whose battery was read at the recorded range and has another one |
| `BatteryRuns.RunOrderly` | src/battery/config.rs:254-356 | over every run of requests, passes and crashes, charge-once and another operation are never both active, and a pending operation keeps its battery and range until it is cleared |
| `BatteryRuns.RunReleasesExactly` | src/battery/config.rs:254-356 | over every run, records are dropped only with their range back if and only if no event abandons one or finishes on a stale reading |
| `BatteryOutcomes.RunRested` | src/api/battery.rs:237-278 | over every run of requests, passes and crashes, a device has another behaviour than auto only while the record on disk names its operation |
| `BatteryRuns.RestoredExactly` | src/battery/mod.rs:338-399 | what the threshold loop makes of a due charge-once: not restored when unread, taken as restored untouched when read at the recorded range, else restored only by writing it |
| `BatteryPasses.RunningOperation` | src/battery/mod.rs:439-552 | a pass over an inhibition or a calibration that goes on leaves the behaviour its phase and charge ask for |
| `BatteryPasses.EndingCalibration` | src/battery/mod.rs:488-607 | a pass over a calibration that is to end leaves auto |
| `BatteryPasses.PassRange` | src/battery/mod.rs:277-437 | the range a pass leaves on each device: open while its charge-once lasts, the recorded one after, else the configured one, unless fenced, settled or not controllable |
| `BatteryRuns.StaleReadingDropsRecord` | src/battery/mod.rs:388-399 | the failing pass: a reading from before the start drops the record while the device is at 0-100 |
| `BatteryRestoration.OnceRestored` | src/battery/mod.rs:234-297 | a pass that finishes the charge-once a record names ends with nothing pending, and with the recorded range on the device if and only if it was written or the sparing reading is true |
| `BatteryRestoration.CalibrationRestored` | src/battery/mod.rs:439-607 | a pass that ends the calibration a record names reaches the recorded range with nothing pending, and ends there unless the device policy then writes its own |
| `BatteryFences.RequestKeepsFence` | src/api/battery.rs:359-372 | a fence survives every durable state of every request except a confirmed one for its own battery |
| `BatteryFences.FinishesExactly` | src/battery/mod.rs:245-269 | a pass saves the record without the charge-once if and only if it is due, its battery was read, and the reading or a confirmed write put its range back |
| `BatteryFences.PassKeepsFence` | src/battery/mod.rs:189-307 | a fence from before a pass is in every durable state of it if and only if the readings and write outcomes do not verifiably end the operation of that very battery |
| `BatteryFences.PassKeepsNewFence` | src/battery/mod.rs:264-268 | a fence made during a pass is in every later durable state of it, except that the save which finishes a charge-once (as `FinishesExactly` says) overwrites it |
| `BatteryFences.RunKeepsFence` | src/battery/helper.rs:486-510 | over every run of requests, passes and crashes, a fence stays until a confirmed request for its battery or a pass that verifiably ends its operation |
| `BatteryFences.UnknownStaysFenced` | src/battery/helper.rs:486-510 | a request whose last write had an unknown outcome, with its fence saved, leaves the battery fenced through every later run without such an event |
| `BatteryFences.PassFenceStays` | src/battery/helper.rs:486-510 | a fence made by a pass stays over every later run that spares it, unless the pass got as far as finishing a charge-once |
| `BatteryFences.FinishedPassFences` | src/battery/mod.rs:245-269 | after a pass that finishes a charge-once, the fenced batteries are those fenced before it, less the finished one |
| `BatteryFences.PassLosesNewFence` | src/battery/mod.rs:264-268 | the failing pass: a fence saved during the pass is overwritten by its end |
| `EnergyBins.AreaSplits` | src/battery/derived.rs:106-131 | the trapezoid energy of a segment is the sum over any split of it |
| `EnergyBins.WholeArea` | src/battery/derived.rs:106-131 | over a whole segment the energy is the mean of its end powers times its length |
| `EnergyBins.Accumulate` | src/battery/derived.rs:112-131 | the splitting loop terminates and adds to every bin exactly the segment's energy and time in that bin's window |
| `EnergyBins.CollectBins` | src/battery/derived.rs:132-145 | the accepted segments of all adjacent points, binned |
| `EnergyBins.Energy` | src/battery/derived.rs:132-159 | the loops compute the energy history defined by windows |
| `EnergyTheorems.EnergyConserved` | src/battery/derived.rs:112-159 | for every list of points the bars sum to the trapezoid energy of the accepted segments, and their times to the segments' length |
| `EnergyMeaning.TotalIsPairs` | src/battery/derived.rs:62-104 | for every list of points the total is the mean power over active time of exactly the adjacent pairs measured on battery, unbroken and moving on in both clocks |
| `EnergyMeaning.BarsMean` | src/battery/derived.rs:112-159 | every bar spans one interval of the axis and holds exactly the counted time and energy that lie in it |
| `EnergyMeaning.IntervalIsLeast` | src/battery/derived.rs:132-145 | the interval is the shortest multiple of a quarter of an hour with which 48 bars cover the axis |
| `EnergyTheorems.EnergyLaidOut` | src/battery/derived.rs:132-159 | at most 48 bars, each inside the unit axis with positive width, no two overlapping |
| `EnergyTheorems.OrderedObservation` | src/battery/derived.rs:112-158 | for ordered active times each bar observes at most its interval and all of them at most the duration |
| `BatteryHistory.RunSound` | src/battery/history.rs:79-140 | over every run a stored point is continuous exactly when every reading since the point before was available and passed the gap and clock tests, and then lies the summed awake time later |
| `HistoryMeaning.RunSampled` | src/battery/history.rs:79-140 | in every run each stored point that came from a reading shows its time, charge, connection, mode, power and validity |
| `HistoryMeaning.StartSampled` | src/battery/history.rs:52-78 | a loaded history starts that invariant |
| `HistoryMeaning.RecordedPair` | src/battery/derived.rs:82-104 | in every run a pair of adjacent recorded points adds energy exactly when both readings drained the battery with measured power, nothing broke between them and both clocks moved on; then the mean of the two rounded powers over the awake time |
| `HistoryMeaning.PublishedPairs` | src/battery/history.rs:142-185 | the published total is the sum over those pairs |
| `HistoryMeaning.PassesMeans` | src/battery/history.rs:87-97 | readings follow each other unbroken exactly when both are available, no clock went back, at most two minutes passed and the clocks agree within a second |
| `HistoryMeaning.AwakeStep` | src/battery/history.rs:87-97 | the awake time of one step is in whole milliseconds |
| `HistoryMeaning.RoundedNearest` | src/battery/history.rs:279-285 | a recorded power is the nearest hundredth, and zero below zero |
| `HistoryMeaning.NewestPointIsCurrent` | src/battery/history.rs:106-140 | after every available reading the newest stored point is of its quarter of an hour and shows its connection and charging |
| `HistoryMeaning.LastChargeMeans` | src/battery/history.rs:107-112 | the last charge is dated when a reading on battery follows a point on power, and by no other once known |
| `HistoryMeaning.AWeekIsKept` | src/battery/history.rs:187-197 | pruning drops the leading points more than a week old and stops at the first that is not |
| `BatteryHistory.RunOnAxis` | src/battery/history.rs:79-197 | over every run the cached energy is the recomputed one, and ordered active times stay ordered along the deque |
| `BatteryHistory.StartSound` | src/battery/history.rs:52-78 | a loaded history satisfies the run invariant |
| `BatteryHistory.StartOnAxis` | src/battery/history.rs:52-78 | every file gives a history without a stale cache, with ordered active times if and only if the points of the file from the first unexpired one on are ordered |
| `BatteryHistory.UnorderedFile` | src/battery/history.rs:52-78 | the failing file: two recent points whose times run backwards are loaded as they are |
| `BatteryHistory.PublishedEnergy` | src/battery/history.rs:142-185 | what is published is the conserved energy of the present points, and with ordered times it is bounded by its intervals and its axis |
| `BatteryHistory.MigratedOrdered` | src/battery/history.rs:247-259 | every old file is placed in order on the active axis |
| `BatteryHistory.MigratedGaps` | src/battery/history.rs:247-259 | a migrated point is continuous exactly when its wall gap is forward and within reach, and then lies that gap later |
| `BatteryHistory.MigrateLegacyPoints` | src/battery/history.rs:247-259 | the in-place loop computes that placement |
| `HistoryStore.HistoryStore.constructor` | src/battery/history.rs:52-78 | loading keeps the saved points from the first unexpired one on; the times are ordered exactly when those are |
| `HistoryStore.HistoryStore.DropOld` | src/battery/history.rs:187-197 | pruning drops exactly the leading points before the cutoff and the cache with them |
| `HistoryStore.HistoryStore.RecordReading` | src/battery/history.rs:79-140 | one reading moves the object as the recorder on values does, keeps the cache fresh and keeps ordered times ordered |
| `HistoryStore.HistoryStore.Publish` | src/battery/history.rs:142-185 | publishing fills the cache only when empty and returns the energy of the published points |
| `BatteryAlerts.AlertTracker.ObserveReading` | src/battery/policy.rs:23-43 | one reading moves the flags as the flag function does and gives its alert |
| `BatteryAlerts.FirstNeverAlerts` | src/battery/policy.rs:23-50 | the first available reading never alerts |
| `BatteryAlerts.WarningFlagExactly` | src/battery/policy.rs:44-93 | the warning flag is set exactly when some reading spent it and none rearmed it since |
| `BatteryAlerts.CriticalFlagExactly` | src/battery/policy.rs:44-93 | the same for the critical flag |
| `BatteryAlerts.FullFlagExactly` | src/battery/policy.rs:44-68 | the same for the completion flag |
| `BatteryAlerts.AlertsExactly` | src/battery/policy.rs:22-93 | for every sequence of readings and changing policy, exactly when each alert is given |
| `BatteryAlerts.AlertsAreSeparated` | src/battery/policy.rs:22-93 | two like alerts are separated by a reading that rearms |
| `BatteryAlerts.AlertsAreApart` | src/battery/policy.rs:22-93 | two like alerts have between them a reading on power or more than three percent above the level, two completions one on battery or below the complete level |
| `BatteryAlerts.ClearReadingRearms` | src/battery/levels.rs:7-9 | and any such reading arms the alert again |
| `BatteryAlerts.CompletionMeans` | src/battery/policy.rs:95-103 | completion is announced on power, at or above the full or protected level |
| `BatteryAlerts.CriticalLevelExactly` | src/battery/levels.rs:20-46 | the level is critical exactly when some reading entered it and every later one was available and did not rearm it |
| `BatteryAlerts.LowerLevelExactly` | src/battery/levels.rs:20-46 | the same for any lowered level, for policies that pass validation |
| `BatteryAlerts.LevelsMatchAlerts` | src/battery/levels.rs:20-46 | a level agrees with its alert flag if and only if a spent alert was spent by a reading after which none was unavailable |
| `BatteryAlerts.AvailableLevelsMatch` | src/battery/levels.rs:20-46 | over available readings with validated policies, notifications and profiles always see the same episodes |
| `BatteryAlerts.UnavailableDiverges` | src/battery/levels.rs:20-46 | the failing pair: a low reading and then an unavailable one |
| `CalendarParser.ParseCalendar` | src/activity/ics.rs:93-142 | the reading loop computes the stack machine's run, refusals included |
| `CalendarLines.LinesMean` | src/activity/ics.rs:105-132 | BEGIN and END lines open and close and any other line is a property, split at the first colon, in any letter case |
| `CalendarLines.LinesAreSplit` | src/activity/ics.rs:102-107 | a line is blank exactly when it is white space, and malformed exactly when it has no colon |
| `CalendarLines.NamesMean` | src/activity/ics.rs:144-163 | component names are told apart by their letters |
| `CalendarLines.FoldMeans` | src/activity/ics.rs:165-189 | the own lines of an event are taken exactly when none is a recurrence and every DTSTART and DTEND can be read, and then the last line of each name counts |
| `CalendarLines.EventMeans` | src/activity/ics.rs:191-246 | for every event body: refused, cancelled, or one event from its last DTSTART to its last DTEND or the default end, with its own UID, title, place and link |
| `CalendarLines.RecurrenceIsRefused` | src/activity/ics.rs:183-185 | an event with a recurrence line of its own is never accepted |
| `CalendarParser.UnfoldLines` | src/activity/ics.rs:307-320 | the joining loop computes the unfolded lines |
| `CalendarParser.UnfoldUndoesFold` | src/activity/ics.rs:307-320 | unfolding undoes every folding, at spaces and tabs, of every list of content lines |
| `CalendarGrammar.ParserAcceptsGrammar` | src/activity/ics.rs:93-163 | a stream is accepted with these events if and only if it renders a well-formed forest of calendars with these events, one for each block that is not cancelled, in order |
| `CalendarGrammar.NestingMeans` | src/activity/ics.rs:143-163 | calendars stand at the top and nowhere else, events directly in a calendar, and no to-do or nameless component anywhere |
| `CalendarGrammar.OthersMayNest` | src/activity/ics.rs:150-159 | any other component may stand in any other |
| `CalendarGrammar.EventsMayNest` | src/activity/ics.rs:150-159 | an event may stand in a calendar and a calendar at the top |
| `CalendarGrammar.RunForest` | src/activity/ics.rs:93-246 | reading any well-formed forest leaves the stack as it was, and only an event's own properties reach its builder |
| `CalendarGrammar.Recover` | src/activity/ics.rs:93-163 | every accepted prefix is a forest with some components still open |
| `CalendarGrammar.BlanksIgnored` | src/activity/ics.rs:102-104 | blank lines never matter |
| `CalendarGrammar.NothingPendingOutside` | src/activity/ics.rs:110-120 | whenever no event is open the builder is empty |
| `ImportAdapter.UidRecovered` | src/activity/agenda_adapter.rs:10-15 | the UID comes back from the event id for every source and UID, colons included |
| `ImportAdapter.IdentityExactly` | src/activity/agenda_adapter.rs:16-27 | two events share an agenda identity if and only if they share source and UID, whatever their starts |
| `ImportAdapter.EventIdsExactly` | src/activity/ics.rs:232-232 | two event ids are equal if and only if source and UID run together the same and the starts agree |
| `ImportAdapter.EventIdsCollide` | src/activity/ics.rs:232-232 | the failing pair: two sources that build one event id, told apart by the agenda identity |
| `ImportAdapter.AllDayExactly` | src/activity/agenda_adapter.rs:28-52 | an all-day event is imported exactly when its days can be written, and is then on exactly the days from DTSTART up to, not including, its end (section 3.6.1 of RFC 5545) |
| `ImportAdapter.FinishedDates` | src/activity/ics.rs:191-246 | a finished all-day event ends after it starts, on DTEND or the day after DTSTART |
| `ImportAdapter.LegacyRoundTrip` | src/activity/agenda_adapter.rs:83-127 | the old form gives back the same start and exclusive end, for all-day events exactly when both midnights exist |
| `AudioQueue.Batch` | src/audio/controller.rs:93-114 | the longest leading run of adjustments in one direction, and their clamped sum |
| `AudioQueue.AdjustmentMoves` | src/audio.rs:142-182 | one adjustment moves the volume by its hundredths, stopping at silence and at full, and unmutes |
| `AudioQueue.MuteSetsOrFlips` | src/audio.rs:149-186 | a mute command sets what it is given and otherwise flips, and touches nothing else; a missing source is an error |
| `AudioQueue.StepsMerge` | src/audio.rs:180-182 | two steps the same way are one, even at the ends of the range |
| `AudioQueue.AlikeSinglyIsSum` | src/audio/controller.rs:93-114 | any run of like adjustments is one adjustment by their sum |
| `AudioQueue.BatchIsSingly` | src/audio/controller.rs:93-114 | a batch has the effect of its entries one by one, despite saturation and clamping |
| `AudioQueue.BatchAnswers` | src/audio/controller.rs:116-129 | every entry of a batch is owed the result of that batch, its error included |
| `AudioQueue.Publish` | src/audio/controller.rs:116-129 | every waiting entry of a batch gets the batch's result, in order |
| `AudioQueue.Drain` | src/audio/controller.rs:45-91 | the queue is consumed whole; the device ends as if each command had run alone, except for what failed transactions left; each waiting entry is answered once, in order, with the device after its own run of like commands or that run's error |
| `AudioQueue.NoFailureIsSingly` | src/audio/controller.rs:45-91 | without failures the device ends exactly as after one-at-a-time execution |
| `AudioQueue.OneReplyEach` | src/audio/controller.rs:116-129 | as many answers as entries that wait |
| `AudioQueue.MixedSignsDoNotMerge` | src/audio/controller.rs:103-106 | at full volume, up and down again is not one step, so the sign test is needed |
| `MediaSelection.RunSound` | src/media.rs:44-94 | in every run a player is active exactly when one is listed, and active and pinned players are listed |
| `MediaSelection.PublishSound` | src/media.rs:65-94 | a snapshot drops an unlisted pin, keeps a listed one and makes it active |
| `MediaSelection.Recent` | src/media.rs:49-57 | the eligible player with the greatest start number, or none exactly when none is eligible |
| `MediaSelection.FallbackOrder` | src/media.rs:49-63 | unpinned and without an observed start, the active player is the first playing one, else the last started, the first Spotify one, the first controllable one, or the first |
| `MediaRuns.SnapshotTracks` | src/media.rs:65-83 | a snapshot keeps the start numbers equal to the numbering of starts seen in the history of lists |
| `MediaRuns.NumbersFollowHistory` | src/media.rs:73-80 | start numbers follow the order in which starts were seen |
| `MediaRuns.ActiveStartedLast` | src/media.rs:44-94 | in every run, unpinned, the active player is playing and no playing player was seen to start after it |
| `MediaRuns.CyclesReachEach` | src/media.rs:140-150 | as many cycles as players pin every one of them |
| `MediaRuns.CyclesNeverRepeat` | src/media.rs:140-150 | and none of them twice |
| `MediaRuns.CyclesReturn` | src/media.rs:491-500 | and end at the player that was active before |
| `MediaService.MediaService.TakeSnapshot` | src/media.rs:65-94 | the loop over fields computes the published state, which is sound |
| `MediaService.MediaService.CyclePlayer` | src/media.rs:140-150 | cycling pins the next player, or refuses with fewer than two and changes nothing |
| `MediaService.MediaService.SelectPlayer` | src/media.rs:152-162 | selecting pins a listed player or unpins, and refuses an unlisted one unchanged |
| `Brightness.RawRounds` | src/brightness.rs:272-278 | rounding is within half a unit and neither cut to 64 bits nor clamped above |
| `Brightness.PercentNearest` | src/brightness.rs:265-270 | the percentage shown is the nearest one and at most 100 |
| `Brightness.RoundTripExactly` | src/brightness.rs:265-278 | every percentage survives the device if and only if it has at least a hundred steps |
| `Brightness.NoDrift` | src/brightness.rs:63-80 | any sequence of requests leaves the percentage at the fold of exact ones |
| `Brightness.DriftBelow` | src/brightness.rs:63-72 | below a hundred steps some adjustment misses, from any start |
| `Brightness.StuckAtFive` | src/brightness.rs:63-72 | with ten steps, any number of one-percent raises leaves the backlight where it was |
| `Brightness.Backlight.Write` | src/brightness.rs:167-194 | a write that is read back shows the requested percentage when there are enough steps; one that fails or is not read back shows nothing, whatever it left |
| `Brightness.Backlight.AdjustBy` | src/brightness.rs:63-72 | an adjustment that takes effect lands on the clamped sum |
| `Brightness.Backlight.SetTo` | src/brightness.rs:74-81 | a percentage outside 1 to 100 is refused unchanged |

## Left out

- D-Bus, polkit, PipeWire, udev, sysfs and HTTP code: only the outcomes of the calls are modelled.
- SQL, JSON, file encodings, permissions, capabilities and store capacity limits: the store is its log of tables.
- Cursor and receipt text encodings, and SHA-256: values stand for their encodings and digests; that a summary is at most 64 bytes longer than its validated record is an argument.
- Text lower-casing for search: a record carries its lower-cased search text, and a query its trimmed, lower-cased text.
- `decode_text` and `parse_time` (src/activity/ics.rs:248-329): parameters of the reader; all-day times are taken to carry their own date at UTC midnight.
- Carriage returns and line splitting before unfolding: the reader is given lines without line ends.
- Validation of titles, links, identifiers, zone names and instants of imported records: only the schedule is modelled.
- IEEE rounding of powers, energies and volumes: reals.
- What a failed PipeWire transaction leaves on the device: any volume in range and any mute, as an argument.
- Configuration-file saves of a policy change, the hibernation settings of the helper, notifications and profile switching.
- Forecasts and mode normalization of the battery history: expressions over one state.
- Control modes, enrichment and metadata of media players: they never influence selection.
- Saturation of the media start counter at 64 bits: `ActiveStartedLast` needs fewer starts than that.
- Discovery among several backlights and the fallback program: one device, and the outcome of its write.
- City catalog, time-zone retry, weather, theme, sleep and lock handling, work areas, protocol registry and command line: plumbing or easy members.
