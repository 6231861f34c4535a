# A verified model of the Docker monitor's control plane and agent

This project models the parts of the Docker monitor whose correctness depends on whole
histories rather than on single calls, and proves what they keep true.

- **Historical metrics** (`HistoryIndex`, `HistoryStore`, `HistoryRuns`, `HistoryMixing`,
  `HistoryInterleaving`, `HistoryText`). The table of per-minute and five-minute averages is
  treated as a compressed index of the multiset of raw samples. A ghost log records for every
  sample where it now lives (a minute row, a five-minute row, or gone), and `Represents` says
  that each row's count and averages are exactly those of the samples living there. Every method of the store keeps this. From it follow, for every run
  of recordings and retention passes, the closed form of the table, confluence, conservation, a
  storage bound, the accuracy of retention and the meaning of a range query; also when roll-ups
  are split into a read and a write with recordings in between, and with bucket starts stored
  and compared as text.
- **Adaptive monitoring** (`Monitoring`, `MonitoringRuns`). The per-entity threshold and
  hysteresis machine with its viewer count: exactly when an entity enters and leaves CRITICAL,
  how often it can flap, and how criticality, viewers and entities stay independent.
- **Telemetry ingestion and enrollment** (`Ingestion`, `Registry`, `IngestionRuns`,
  `IngestionCalls`, `IngestionRows`, `Enrollment`). The registry's methods work in place on the
  stores and are proved equal to a sequence of steps on a value `World`, up to the write that the
  store refuses, if any; the theorems are about every run of batches, viewer calls, heartbeats,
  token issues and enrollments. The event log replays the engine, persisted modes agree with it,
  restarts are reported exactly, tokens enroll once.
- **Two concurrent protocols** (`Hub`, `HubProtocol`, `HubOrder`, `HubClients`, `Collector`).
  Explicit transition systems over arbitrarily many clients, broadcasts and callers, with
  invariants over every interleaving. The classes beside them are the uninterrupted methods.
- **Supporting pieces** (`Timestamps`, `Rebind`, `Migrations`, `Sessions`). The fixed-width
  timestamp text, placeholder translation, the migration runner and login sessions.

Times are integer nanoseconds since the zero time 0001-01-01T00:00:00Z, measures are reals, and
every clock reading is a parameter of the operation that makes it.

The program and its own comments disagree in one place; the model follows the program.
`internal/controlplane/storage/sqlstore/historical_metric.go:80-85` and
`internal/controlplane/storage/sqlstore/migrations/0002_historical_metrics.sql:20-23` say that a
period is stored at exactly one resolution at any point in time. It is not:

- Right after a pass, the window that contains the roll-up cutoff can hold both resolutions,
  exactly if the cutoff lies more than zero and at most four minutes after a five-minute mark
  (`HistoryMixing.MixedIff`).
- After a pass, recording a sample can add a minute row to a window already rolled up, exactly if
  the window starts before the cutoff and has not expired (`HistoryMixing.LateSampleMixesExactly`),
  also with a cutoff on a five-minute mark (`HistoryMixing.AlignedCutoffIsNotEnough`).
- At any time, a window is at two resolutions exactly if one of its samples has been rolled up and
  another has not (`HistoryMixing.MixedExactly`, and in terms of what was recorded
  `HistoryMixing.MixedLaterExactly`). With an aligned cutoff and no late recordings the promise
  holds (`HistoryMixing.SingleResolution`).

What always holds is that a query never counts a sample twice (`HistoryRuns.QueryCountsSamples`).

About the order in which a topic's broadcasts reach a client the program promises nothing, and
two that overlap can be seen in opposite order (`HubOrder.OverlapCanReorder`).
`HubOrder.InOrderExactly` says for which runs and clients the order is kept.

## Model

| member | source | states |
|---|---|---|
| HistoryIndex.CoarseOfMinute | internal/controlplane/storage/sqlstore/historical_metric.go:181 | Truncating a minute bucket to five minutes gives the same window as truncating the sample's own time |
| HistoryIndex.RepresentationIsUnique | internal/controlplane/storage/sqlstore/historical_metric.go:53-78 | At most one table stands for a given placement of samples |
| HistoryIndex.TotalOfPermutation | internal/controlplane/storage/sqlstore/historical_metric.go:53-78 | The order in which samples arrived does not matter to any row |
| HistoryIndex.TotOfRowOf | internal/controlplane/storage/sqlstore/historical_metric.go:188-197 | Average times count gives back the exact sum the row was made from |
| HistoryIndex.AverageIsBounded | internal/controlplane/storage/sqlstore/historical_metric.go:61-67 | Every stored average of each of the five measures lies between the least and greatest sample it stands for |
| HistoryStore.FoldSampleIsMean | internal/controlplane/storage/sqlstore/historical_metric.go:61-67 | The running-average update of a mean row is the mean of one more sample, for all five measures |
| HistoryStore.MergeRowsIsMean | internal/controlplane/storage/sqlstore/historical_metric.go:220-226 | Merging two mean rows gives the mean row of both sample sets together |
| HistoryStore.RecordedRow | internal/controlplane/storage/sqlstore/historical_metric.go:53-78 | After the upsert the table represents the old samples plus the new one in its minute, and nothing else changed |
| HistoryStore.GroupTotalIsTotal | internal/controlplane/storage/sqlstore/historical_metric.go:168-199 | Each group's weighted sums are the count and exact sums of the raw samples in the selected minutes of its window, however the rows came and whatever merges they went through |
| HistoryStore.GroupsArePopulated | internal/controlplane/storage/sqlstore/historical_metric.go:182-187 | A window forms a group exactly if it holds samples to roll up, so no division by zero |
| HistoryStore.RolledCoarse | internal/controlplane/storage/sqlstore/historical_metric.go:215-238 | A five-minute window gains exactly what the selected minutes of that entity and window held |
| HistoryStore.InterleavedOutcome | internal/controlplane/storage/sqlstore/historical_metric.go:145-252 | With the read and the write transaction as separate steps and any recordings in between, the table ends up representing the rolled-up samples plus each interleaved sample in its minute, except that a sample in a selected minute, of whatever entity, is lost |
| HistoryStore.InterleavedRollup | internal/controlplane/storage/sqlstore/historical_metric.go:145-252 | So nothing is lost or double counted if and only if no interleaved sample falls into a selected minute |
| HistoryStore.RecentSamplesAreSafe | internal/controlplane/storage/sqlstore/historical_metric.go:148-153 | Recording only at or after the cutoff meets that condition |
| HistoryStore.InterleavingIsAtomic | internal/controlplane/storage/sqlstore/historical_metric.go:145-252 | Then the outcome represents exactly what an atomic roll-up after those recordings would |
| HistoryStore.Store.RecordHistoricalSample | internal/controlplane/storage/sqlstore/historical_metric.go:53-78 | The table keeps representing the log, which gains the sample in its minute |
| HistoryStore.Store.SelectOldMinutes | internal/controlplane/storage/sqlstore/historical_metric.go:148-153 | Each minute row of every entity before the cutoff exactly once, in any order, and nothing else |
| HistoryStore.Store.GroupRows | internal/controlplane/storage/sqlstore/historical_metric.go:165-199 | The groups are the windows of the selected rows with their weighted sums; the buckets are those of the rows |
| HistoryStore.Store.CommitRollup | internal/controlplane/storage/sqlstore/historical_metric.go:210-251 | The whole new table: every group merged into its old row or inserted, then every minute row at a source bucket gone for all entities |
| HistoryStore.Store.RollupOldMinuteBuckets | internal/controlplane/storage/sqlstore/historical_metric.go:145-252 | The table keeps representing the log, in which exactly the minute samples before the cutoff have moved to their five-minute row |
| HistoryStore.Store.RunRetention | internal/controlplane/storage/sqlstore/historical_metric.go:132-143 | The same, and with d >= 1 days exactly the samples are gone whose row started more than d times 24 hours before now; without a positive number of days none |
| HistoryStore.Store.QueryRange | internal/controlplane/storage/sqlstore/historical_metric.go:86-119 | Each row of the entity that starts in the closed range exactly once with its own values, ascending, and no other |
| HistoryRuns.ClosedForm | internal/controlplane/storage/sqlstore/historical_metric.go:53-252 | After any run with passes no later than now and then a pass, the place of every sample ever recorded is a function of that sample, now and the retention days only |
| HistoryRuns.TableIsClosedForm | internal/controlplane/storage/sqlstore/historical_metric.go:121-252 | So the whole table, rows and averages, is a function of the samples ever recorded, now and the retention days |
| HistoryRuns.Confluence | internal/controlplane/storage/sqlstore/historical_metric.go:53-252 | Two such runs that recorded the same multiset of samples, in any order and with any passes in between, end with equal tables |
| HistoryRuns.PassIsIdempotent | internal/controlplane/storage/sqlstore/historical_metric.go:121-125 | Repeating a pass changes nothing |
| HistoryRuns.RetainedSamples | internal/controlplane/storage/sqlstore/historical_metric.go:132-143 | A pass with retention drops a sample exactly if its window starts before the cutoff, so nothing kept is older than the cutoff |
| HistoryRuns.PlaceByAge | internal/controlplane/storage/sqlstore/historical_metric.go:25-28 | After any run and a pass, in plain numbers: a sample is in a minute row iff its minute started at most six hours before now; with d >= 1 days it is gone iff its five-minute window started more than d times 24 hours before now; without retention none ever is |
| HistoryRuns.DroppedSamples | internal/controlplane/storage/sqlstore/historical_metric.go:132-143 | In every run, with any clock, a dropped sample was there before one particular delete and gone after it, and was less than five minutes newer than that delete's cutoff |
| HistoryRuns.RollupConserves | internal/controlplane/storage/sqlstore/historical_metric.go:168-246 | A roll-up preserves, per entity and five-minute window, the total count and all five count-weighted sums |
| HistoryRuns.StorageBound | internal/controlplane/storage/sqlstore/historical_metric.go:21-28 | After a pass with d days an entity without future samples has at most 361 minute rows and 288 d - 72 five-minute rows, however many samples were recorded |
| HistoryRuns.StorageBoundIsAttained | internal/controlplane/storage/sqlstore/historical_metric.go:21-28 | Both bounds are attained, for every number of days, by a sample in every minute and a pass on a five-minute mark |
| HistoryRuns.StoredKey | internal/controlplane/storage/sqlstore/historical_metric.go:145-153 | After a pass every row has a recorded sample behind it; its bucket is aligned to its resolution and lies on the right side of both cutoffs |
| HistoryRuns.QueryCountsSamples | internal/controlplane/storage/sqlstore/historical_metric.go:80-119 | At any time, the sample counts of a query over whole five-minute windows add up to exactly the samples of the entity in them still represented |
| HistoryRuns.QueryIsStrictlyAscending | internal/controlplane/storage/sqlstore/historical_metric.go:80-119 | Right after a pass no two points of a query have the same start |
| HistoryMixing.MixedExactly | internal/controlplane/storage/sqlstore/historical_metric.go:80-85 | At any time, for any log, a window of an entity is stored at both resolutions if and only if one sample in it lives in the five-minute row and another in a minute row |
| HistoryMixing.MixedLaterExactly | internal/controlplane/storage/sqlstore/historical_metric.go:80-85 | After any run, a pass and anything recorded since, that is: if and only if the pass left a five-minute row in the window, and left a minute row there too or a sample in it was recorded since |
| HistoryMixing.LateSampleMixesExactly | internal/controlplane/storage/sqlstore/historical_metric.go:53-78 | A recording after a pass can put its window at two resolutions if and only if the window starts before the pass's roll-up cutoff and not before its retention cutoff |
| HistoryMixing.LateSampleMixes | internal/controlplane/storage/sqlstore/historical_metric.go:53-78 | For every such sample, a run in which it does |
| HistoryMixing.AlignedCutoffIsNotEnough | internal/controlplane/storage/sqlstore/historical_metric.go:80-85 | A concrete run, with the cutoff on a five-minute mark, in which the promised single resolution fails: the same sample before and after a pass |
| HistoryMixing.GuardedRecordingsKeepResolutions | internal/controlplane/storage/sqlstore/historical_metric.go:53-78 | Recordings whose windows start at or after the last roll-up cutoff leave every window as the pass did |
| HistoryMixing.SingleResolution | internal/controlplane/storage/sqlstore/historical_metric.go:80-85 | With the cutoff on a five-minute mark and no later recording in a minute before it, no window is at two resolutions: the documented promise |
| HistoryMixing.MixedOnlyAtCutoff | internal/controlplane/storage/sqlstore/historical_metric.go:80-85 | After any run and a pass, both resolutions can meet only in the window containing the roll-up cutoff, and only if that cutoff is off the grid |
| HistoryMixing.MixedAtCutoff | internal/controlplane/storage/sqlstore/historical_metric.go:80-85 | For every such cutoff, two samples for which the promised single resolution fails right after a pass |
| HistoryMixing.MixedIff | internal/controlplane/storage/sqlstore/historical_metric.go:145-153 | Right after it, a pass can leave a window at two resolutions exactly if its cutoff lies more than zero and at most four minutes after a five-minute mark |
| HistoryRuns.IndexRepresents | internal/controlplane/storage/sqlstore/historical_metric.go:53-78 | Every placement of samples has a table that represents it |
| HistoryInterleaving.RunRefines | internal/controlplane/storage/sqlstore/historical_metric.go:145-252 | In every interleaving of recordings with passes split into read, write and delete, the table represents the samples as the moves have placed them, including any that a write deletes unseen |
| HistoryInterleaving.GuardedRunIsAtomic | internal/controlplane/storage/sqlstore/historical_metric.go:145-252 | If nothing older than the roll-up cutoff arrives between a read and its write, splitting makes no difference: the log is that of atomic roll-ups at the writes |
| HistoryInterleaving.SplitClosedForm | internal/controlplane/storage/sqlstore/historical_metric.go:121-252 | The closed form holds for a final pass split in this way, with recordings between its read, write and delete, after any such run |
| HistoryInterleaving.SplitTableIsClosedForm | internal/controlplane/storage/sqlstore/historical_metric.go:121-252 | And so the table is the same function of the samples recorded, now and the retention days |
| HistoryText.UpsertByText | internal/controlplane/storage/sqlstore/historical_metric.go:61-77 | An upsert keyed by text finds and replaces the row of that time and no other |
| HistoryText.SelectByText | internal/controlplane/storage/sqlstore/historical_metric.go:148-153 | Comparing stored text with the formatted cutoff selects exactly the minute rows before it |
| HistoryText.DeleteByText | internal/controlplane/storage/sqlstore/historical_metric.go:136-141 | The retention delete by text leaves exactly the rows that the delete by time leaves |
| HistoryText.PurgeByText | internal/controlplane/storage/sqlstore/historical_metric.go:240-246 | Deleting minute rows by the texts that were read deletes exactly those at the times that were read |
| HistoryText.RangeByText | internal/controlplane/storage/sqlstore/historical_metric.go:86-95 | A range by text is the range by time, and ordering by text is ordering by time |
| HistoryText.TextReadsBack | internal/controlplane/storage/sqlstore/historical_metric.go:176-181 | A row's text reads back as its start, and the window's text derived from it is that of its window |
| Monitoring.StateKeyIsInjective | internal/controlplane/monitoring/engine.go:126-128 | Different entities never share a state, even if an identifier contains a slash |
| Monitoring.MemPercentExactly | internal/controlplane/monitoring/engine.go:163-168 | The memory percentage reaches p exactly if 100 times the bytes used are at least p times the limit; without a limit it is zero |
| Monitoring.CleanExactly | internal/controlplane/monitoring/engine.go:198-208 | A sample is clean exactly if processor and memory are both strictly below their recovery thresholds, the memory in bytes |
| Monitoring.FastestMode | internal/controlplane/monitoring/engine.go:296-313 | One of the given modes that no given mode outranks; NORMAL if there is none |
| Monitoring.FastestPollsMostOften | internal/controlplane/monitoring/engine.go:276-313 | With manual <= critical <= normal intervals, that mode has the least interval of them all |
| Monitoring.Engine.EvaluateMetric | internal/controlplane/monitoring/engine.go:174-222 | The whole new state map and the event returned, which names entity, mode, reason and time; an entity not critical becomes so exactly if processor or bytes of memory reach a critical threshold |
| Monitoring.Engine.EvaluateContainerHealth | internal/controlplane/monitoring/engine.go:229-252 | The same for a health report: crash before health before restart, and nothing while critical |
| Monitoring.Engine.EffectiveMode | internal/controlplane/monitoring/engine.go:140-161 | Real-time exactly if there is a viewer, critical exactly if there is none and the entity is critical; an entity never seen is NORMAL |
| Monitoring.Engine.ManualViewerOpen | internal/controlplane/monitoring/engine.go:254-263 | Only that entity's viewer count changes, by one |
| Monitoring.Engine.ManualViewerClose | internal/controlplane/monitoring/engine.go:265-274 | Only that entity's viewer count changes, and never below zero |
| MonitoringRuns.RecoversExactly | internal/controlplane/monitoring/engine.go:198-221 | Over every run with a clock that never goes back, an entity leaves CRITICAL at a metric sample if and only if the sample ends an unbroken stretch of clean samples, taken while critical, of at least the required number and time span |
| MonitoringRuns.EntersExactly | internal/controlplane/monitoring/engine.go:183-252 | After any run, an entity not critical becomes so exactly at a sample whose processor share or bytes of memory reach a critical threshold, or at a report of exit, bad health or a risen restart count |
| MonitoringRuns.ModeOverRuns | internal/controlplane/monitoring/engine.go:140-161 | Over every run the mode is real-time iff opens minus closes exceed the least such balance of some prefix; else critical iff there has been one more entry than recoveries; else normal |
| MonitoringRuns.NoStreakUnlessCritical | internal/controlplane/monitoring/engine.go:229-252 | No credit towards recovery exists outside CRITICAL, which is why entering it from a health report need not reset the streak |
| MonitoringRuns.StreakIsQuiet | internal/controlplane/monitoring/engine.go:198-213 | The streak counters describe an actual stretch of clean samples: its first sample's time and its length |
| MonitoringRuns.QuietIsStreak | internal/controlplane/monitoring/engine.go:198-213 | No stretch of clean samples since entry is longer or older than the counters say |
| MonitoringRuns.EntriesAndRecoveriesAlternate | internal/controlplane/monitoring/engine.go:174-252 | Over every run the entries number as many as the recoveries, plus one while critical |
| MonitoringRuns.FlapBound | internal/controlplane/monitoring/engine.go:183-221 | k recoveries take at least k hysteresis windows of time and k times the required number of metric samples |
| MonitoringRuns.ViewersAndCriticalityAreIndependent | internal/controlplane/monitoring/engine.go:254-274 | Erasing all viewer calls from a run leaves criticality, streaks and transitions unchanged; erasing everything else leaves the viewer count unchanged |
| MonitoringRuns.ViewerCount | internal/controlplane/monitoring/engine.go:254-274 | The viewer count is opens minus closes less the least such balance of any prefix: unmatched closes are forgotten and nothing else |
| MonitoringRuns.EntitiesAreIndependent | internal/controlplane/monitoring/engine.go:126-138 | One engine serves each entity as if all other entities' calls had not been made |
| Ingestion.SlashSplits | internal/controlplane/agentregistry/registry.go:273 | With slash-free host IDs, the joined name determines host and Docker ID |
| Ingestion.IdsAreDistinct | internal/controlplane/agentregistry/registry.go:263-276 | Different containers never get the same internal ID |
| Ingestion.UpsertsKeepKeys | internal/controlplane/agentregistry/registry.go:370-399 | Every container row stays under the hash of its own host and Docker ID |
| Registry.Registry.IngestTelemetry | internal/controlplane/agentregistry/registry.go:249-418 | An unknown host is refused without effect. Otherwise the stores and the engine end as the batch's steps say, up to the write that the store refuses if any, and it fails exactly if one is refused; else the answer is the one fastest mode over host and reported containers after the batch, with its interval |
| Registry.Registry.FindContainerByDockerId | internal/controlplane/agentregistry/registry.go:443-454 | The scan finds exactly the row stored under the pair's own ID |
| Registry.Registry.ResolveContainers | internal/controlplane/agentregistry/registry.go:263-276 | Each reported Docker ID is mapped to its internal ID and to the row known before the batch |
| Registry.Registry.EvaluateHealth | internal/controlplane/agentregistry/registry.go:278-299 | All health reports in order against the counts known before the batch, each transition logged |
| Registry.Registry.EvaluateReadings | internal/controlplane/agentregistry/registry.go:301-368 | All readings in order: translated, evaluated, relabelled with the engine's mode, stored; those of unreported containers skipped. A metric that cannot be stored ends the loop, after the engine has seen the reading |
| Registry.Registry.UpsertContainers | internal/controlplane/agentregistry/registry.go:370-399 | One row per reported container up to one that cannot be written, carrying over creation time and tags, and if all are written the list of their modes |
| Registry.Registry.RecordTransition | internal/controlplane/agentregistry/registry.go:420-441 | One event is appended, with severity, owner and message as the transition says |
| Registry.Registry.Heartbeat | internal/controlplane/agentregistry/registry.go:173-204 | The host's new row, blank fields keeping their old value, and an event exactly if it was not online |
| Registry.Registry.IssueEnrollmentToken | internal/controlplane/agentregistry/registry.go:104-129 | Replaces any earlier token of the host and reopens enrollment |
| Registry.Registry.EnrollAgent | internal/controlplane/agentregistry/registry.go:131-171 | Goes through exactly if the host exists, accepts the token and signing works, and only then changes anything |
| IngestionRuns.StepKeepsAgreement | internal/controlplane/agentregistry/registry.go:281-353 | Every operation on any host, also a batch that a refused write ends, keeps the event log in agreement with the engine for every entity |
| IngestionRuns.LogReplaysTheEngine | internal/controlplane/agentregistry/registry.go:420-441 | Over every run each entity's monitoring events strictly alternate, entry first, and replaying them gives the engine's own verdict |
| IngestionCalls.RunIsCalls | internal/controlplane/agentregistry/registry.go:278-353 | Over every run the engine has been through exactly the health, metric and viewer calls that the operations make, in their order, and each entity's events in the log are exactly its changes of criticality, in order, each with the type its cause has and the severity of its direction |
| IngestionCalls.ReasonIsCause | internal/controlplane/monitoring/engine.go:183-252 | A transition happens exactly when criticality changes, and is named after its cause: processor before memory, exit before health before restart |
| IngestionCalls.EntityIsOneMachine | internal/controlplane/monitoring/engine.go:106-138 | So under any traffic each entity's state is that of a machine of its own fed only its own calls |
| IngestionCalls.EntityMode | internal/controlplane/monitoring/engine.go:140-161 | Under any traffic, an entity's effective mode is real-time iff it has an unmatched viewer, else critical iff it has entered once more than it recovered |
| IngestionCalls.LoggedFlapBound | internal/controlplane/monitoring/engine.go:183-221 | Over every run whose clock readings never go back, k recovery events logged for an entity take at least k hysteresis windows of time and k times the required number of its readings |
| IngestionRuns.TransitionTyp | internal/controlplane/agentregistry/registry.go:434-440 | The event type of a transition tells recoveries and restarts from all other reasons |
| IngestionRows.AttemptedRow | internal/controlplane/agentregistry/registry.go:370-399 | After a batch, cut short or not, each container's row is that of its last report that was written, or as before, whatever its host |
| IngestionRows.ReportedRow | internal/controlplane/agentregistry/registry.go:379-395 | Field by field, what the last written report of a container leaves, its mode the engine's, its tags and creation time as first stored |
| IngestionRows.CutShortByMetric | internal/controlplane/agentregistry/registry.go:354-356 | A batch ended by a refused metric leaves the metrics of a batch with only the readings before it, the transitions of one ending with it, and no row changed |
| IngestionRows.StoredMetricsAgree | internal/controlplane/agentregistry/registry.go:301-356 | After a batch none of whose metrics is refused, what is stored for each entity is its last reading, under its own ID, labelled with the mode the engine has it in after the batch |
| IngestionRows.OtherKindsAreStored | internal/controlplane/agentregistry/registry.go:304-356 | A metric of any other entity type is stored as sent and touches nothing else |
| IngestionRows.WithoutEngine | internal/controlplane/agentregistry/registry.go:281-410 | Without an engine a batch logs nothing and every mode it persists is normal |
| IngestionRows.PersistedModesAgree | internal/controlplane/agentregistry/registry.go:370-410 | After every batch that goes through, the persisted mode of the host and of every reported container is the engine's effective mode |
| IngestionRows.AnsweredIntervalIsLeast | internal/controlplane/agentregistry/registry.go:412-417 | With sensibly ordered intervals the answered interval is the least over the host and the reported containers, and is one of theirs |
| IngestionRows.BatchKeepsMetricRows | internal/controlplane/agentregistry/registry.go:332-399 | A batch leaves no container metric without a container row if and only if each container it stored a reading for had a row before, or got one before a write was refused |
| IngestionRows.RefusedRowOrphans | internal/controlplane/agentregistry/registry.go:396-398 | A batch whose first row is refused leaves the metric of a newly discovered container without one |
| IngestionRows.NoOrphans | internal/controlplane/agentregistry/registry.go:332-399 | Over every run in which no batch is cut short, no container metric is without its row |
| IngestionRows.RunKeepsRows | internal/controlplane/agentregistry/registry.go:249-418 | Over every run: rows sit under their own ID, hosts neither appear nor vanish |
| IngestionRows.FirstSightingIsKept | internal/controlplane/agentregistry/registry.go:392-395 | No operation changes the creation time or tags of a stored container, or removes it |
| IngestionRows.StoredCountIsLastCount | internal/controlplane/agentregistry/registry.go:291-294 | Over every run the stored restart count is the one in the last earlier batch of that host that wrote the container's row, and absent if there was none |
| IngestionRows.RestartIsReportedExactly | internal/controlplane/agentregistry/registry.go:278-299 | After every run, a batch without duplicate Docker IDs logs a restart for a container if and only if its count exceeds that last one and it is not critical, exited or unhealthy; never on first sighting, and whether or not a later write is refused |
| Enrollment.RecordIsCurrentToken | internal/controlplane/agentregistry/registry.go:121-158 | Over every run the host record holds exactly the latest token not yet used, with its time of issue, or none |
| Enrollment.AcceptedExactly | internal/controlplane/agentregistry/registry.go:136-149 | An enrollment is accepted if and only if the token is the host's latest, at most 15 minutes old, and no enrollment has gone through since |
| Enrollment.TokenWorksOnce | internal/controlplane/agentregistry/registry.go:131-158 | Two enrollments of a host that both go through used different tokens |
| Enrollment.EnrolledExactly | internal/controlplane/agentregistry/registry.go:104-171 | Over every run the record shows an enrolled agent iff some accepted enrollment has had no token issued after it |
| Enrollment.EnrolledRecord | internal/controlplane/agentregistry/registry.go:156-171 | And then it shows the token burnt and the fingerprint of that certificate, and the host online iff it has sent a heartbeat since |
| Enrollment.HeartbeatsAreKept | internal/controlplane/agentregistry/registry.go:177-194 | Over every run the record shows the time of the last heartbeat and the last Docker version and operating system that were not blank |
| Hub.SubscribersAfter | internal/controlplane/ws/hub.go:100-118 | Subscribing and unsubscribing change one client on one topic, though empty topics are removed |
| Hub.Client.TrySend | internal/controlplane/ws/hub.go:146-158 | Succeeds exactly if the channel is open and holds fewer than 32 payloads; otherwise nothing changes |
| Hub.Client.Close | internal/controlplane/ws/hub.go:95 | However often it is called, the channel is closed once |
| Hub.Server.Broadcast | internal/controlplane/ws/hub.go:72-98 | Uninterrupted: an open subscriber with fewer than 32 payloads queued stays open and gains the payload last; any other is closed and gains nothing; nobody else is touched |
| Hub.Server.Subscribe | internal/controlplane/ws/hub.go:100-107 | The new topic map |
| Hub.Server.Unsubscribe | internal/controlplane/ws/hub.go:109-118 | The new topic map, without a topic that has lost its last client |
| HubProtocol.HubIsSafe | internal/controlplane/ws/hub.go:68-232 | In every interleaving: at most one close per channel, at most 32 queued, only payloads of the client's topic broadcast since it subscribed, each at most once, the topic map exact |
| HubProtocol.AcceptedOnlyGrows | internal/controlplane/ws/hub.go:129-158 | No step removes or reorders what was accepted, reopens a channel, or adds to a closed one |
| HubClients.RefusedExactly | internal/controlplane/ws/hub.go:146-158 | In every run a payload is refused exactly if the client's channel is closed or holds 32 payloads; otherwise it is queued last |
| HubClients.ClosedExactly | internal/controlplane/ws/hub.go:72-98 | In every run a client is closed, or about to be, exactly if a broadcast found its open channel holding 32 payloads or its reader failed |
| HubClients.ReaderGoneCloses | internal/controlplane/ws/hub.go:175-194 | In every run a client whose reader has stopped is closed |
| HubClients.PumpEndsExactly | internal/controlplane/ws/hub.go:196-232 | A client's pump ends exactly at a failed write, a failed ping or its close frame, and the client leaves its topic exactly after that |
| HubClients.GoodbyeComesLast | internal/controlplane/ws/hub.go:211-221 | The close frame is sent only after everything the client accepted has been written |
| HubClients.NoTopicIsEmpty | internal/controlplane/ws/hub.go:109-118 | In every run a topic that has lost its last subscriber is gone |
| HubClients.BroadcastCanProceed | internal/controlplane/ws/hub.go:79-97 | In every run a broadcast in progress can take its next step, whatever its clients do |
| HubClients.BroadcastGetsNearer | internal/controlplane/ws/hub.go:79-97 | Each of its own steps brings it nearer to its end and no other step sets it back, so a broadcast to k subscribers takes at most 2 k + 1 steps |
| HubOrder.InOrderExactly | internal/controlplane/ws/hub.go:72-118 | In any run, overlapping or not, what a client has accepted is a gap-free initial part of its topic's broadcasts since it subscribed if and only if no payload was put into its channel while an earlier one was still on its way to it |
| HubOrder.NothingMissed | internal/controlplane/ws/hub.go:72-118 | And then an open, subscribed client has been sent everything due to it except what is still on its way |
| HubOrder.SequentialIsOrdered | internal/controlplane/ws/hub.go:72-98 | Broadcasts on a topic that do not overlap never overtake each other |
| HubOrder.DeliveryIsGapFree | internal/controlplane/ws/hub.go:72-118 | When broadcasts on a topic do not overlap, what is written to a client is a gap-free initial part of the topic's broadcasts since it subscribed, and an open client is owed nothing between broadcasts |
| HubOrder.SequentialHubIsGapFree | internal/controlplane/ws/hub.go:160-232 | Over every such run: a client still to be tried lacks exactly the payload on its way |
| HubOrder.OverlapCanReorder | internal/controlplane/ws/hub.go:79-98 | A concrete run in which two overlapping broadcasts reach one client in opposite order |
| Collector.Collector.SetInterval | internal/agent/collector/collector.go:55-64 | The interval is the one given and a wake-up is pending; uninterrupted, it is the write step followed by the post step |
| Collector.Collector.CollectNow | internal/agent/collector/collector.go:71-76 | Leaves exactly one token pending |
| Collector.Collector.CurrentInterval | internal/agent/collector/collector.go:78-82 | What the loop arms its timer with |
| Collector.IntervalIsLastRequest | internal/agent/collector/collector.go:55-58 | In every interleaving the interval is the one last asked for by a caller or the control plane, or the initial one |
| Collector.WaitsOnCurrentInterval | internal/agent/collector/collector.go:86-99 | While the loop waits, its timer has the interval last asked for, or a wake-up is pending, or a caller is between its write and its post |
| Collector.WakesToLastRequest | internal/agent/collector/collector.go:93-95 | A pending wake-up can be taken while the loop waits, and re-arms the timer with the interval last asked for |
| Collector.CancelledForGood | internal/agent/collector/collector.go:90-92 | After a cancellation no cycle starts and no timer is armed |
| Collector.NoLostReset | internal/agent/collector/collector.go:51-64 | After every change of interval, in every interleaving, a wake-up is due or the loop arms its timer afresh |
| Collector.NoLostCollect | internal/agent/collector/collector.go:66-76 | After every CollectNow a token is pending or a cycle has started since |
| Collector.ResetsAreBounded | internal/agent/collector/collector.go:84-105 | The loop restarts its timer at most once per change of interval |
| Collector.CyclesDoNotOverlap | internal/agent/collector/collector.go:84-105 | A cycle starts only when the last has ended, and requests start at most one cycle each |
| Timestamps.InstantOrder | internal/controlplane/storage/sqlstore/store.go:31-39 | Valid dates compare field by field exactly as their instants do, and are equal only if those are |
| Timestamps.CivilIsRight | internal/controlplane/storage/sqlstore/store.go:39 | The date computed for an instant is a valid Gregorian date and denotes that instant |
| Timestamps.YearStartIs | internal/controlplane/storage/sqlstore/store.go:35-39 | The days before a year are 365 each, and one more for every fourth year but not every hundredth and yet every four hundredth |
| Timestamps.FourCenturies | internal/controlplane/storage/sqlstore/store.go:35-39 | The calendar repeats after 400 years of 146,097 days |
| Timestamps.FormatOfDate | internal/controlplane/storage/sqlstore/store.go:35-39 | The text of a date's instant is its fields as zero-padded numerals of widths 4, 2, 2, 2, 2, 2 and 9 with the layout's marks between them |
| Timestamps.LeapDayText | internal/controlplane/storage/sqlstore/store.go:35-39 | The text of one instant in nanoseconds, in the last second of a leap day |
| Timestamps.FormatKeepsOrder | internal/controlplane/storage/sqlstore/store.go:31-39 | For years 0 to 9999, comparing stored texts character by character is comparing times, for less-than and for equality |
| Timestamps.ParseInvertsFormat | internal/controlplane/storage/sqlstore/store.go:39-47 | What is stored reads back as the same time, to the nanosecond |
| Timestamps.FormatInvertsParse | internal/controlplane/storage/sqlstore/store.go:39-47 | A canonical text that reads as a time is that time's text |
| Rebind.Rebind | internal/controlplane/storage/sqlstore/store.go:160-178 | The loop yields the recursive translation for PostgreSQL and the query itself otherwise |
| Rebind.ItoaDenotes | internal/controlplane/storage/sqlstore/store.go:172 | A placeholder's numeral denotes its number in decimal, without leading zero |
| Rebind.KthPlaceholder | internal/controlplane/storage/sqlstore/store.go:152-178 | The k-th question mark becomes $k and the text around it is translated on its own |
| Rebind.RebindIsReversible | internal/controlplane/storage/sqlstore/store.go:160-178 | Replacing each dollar sign and digits by a question mark recovers the query if and only if no question mark or dollar sign in it is followed by a digit |
| Migrations.SortingSorts | internal/controlplane/storage/sqlstore/migrate.go:90 | The pending files come out lowest version first, none lost and none twice |
| Migrations.Database.Pending | internal/controlplane/storage/sqlstore/migrate.go:64-90 | Refuses exactly if some file name has no version; otherwise the files not yet recorded, in order |
| Migrations.Database.Apply | internal/controlplane/storage/sqlstore/migrate.go:92-126 | What has been applied stays an initial part of the ascending order; it stops exactly before the first that fails |
| Migrations.Database.Migrate | internal/controlplane/storage/sqlstore/migrate.go:38-126 | Over any number of failing start-ups each version is applied once and in ascending order; success means all are applied |
| Migrations.LowestIsNext | internal/controlplane/storage/sqlstore/migrate.go:90-124 | The lowest pending version is the one right after those applied |
| Migrations.ReleaseKeepsOrder | internal/controlplane/storage/sqlstore/migrate.go:29-33 | A release may add files and keep every old database an initial part of the order if and only if each new version is above every old one |
| Sessions.Service.CreateUser | internal/controlplane/auth/service.go:42-65 | Adds the account exactly if no account has the email, so emails stay unique |
| Sessions.Service.Login | internal/controlplane/auth/service.go:70-117 | Opens a session exactly if email and password name an account, and for that account |
| Sessions.Service.Logout | internal/controlplane/auth/service.go:119-131 | Ends the token's session if there is one, and never fails |
| Sessions.Service.Authenticate | internal/controlplane/auth/service.go:133-160 | Resolves a token to an account exactly if it is that of an open login of it that has not expired, over everything done before |
| Sessions.AuthenticatesExactly | internal/controlplane/auth/service.go:133-160 | With a clock that never goes back, that is: if and only if the token was issued, not logged out since, and not expired |
| Sessions.RefusedAfterClockStep | internal/controlplane/auth/service.go:147-154 | With a clock that steps back, an unexpired session is refused exactly if an earlier check past its expiry removed it |
| Sessions.RecordsAfterEnd | internal/controlplane/auth/service.go:122-130 | Ending one session removes its record and no other |

## Left out

- Floating-point rounding: averages and percentages are reals, so NaN and infinities do not occur.
- Integer widths: durations and counts are unbounded; a retention setting so large that it overflows a 64-bit duration is not modelled.
- SQL itself: upserts, deletes and selects are updates of a map under old-row semantics and transactions are atomic. A history statement that fails appears as a move that does not happen. Connection pooling, PRAGMAs and the drivers are not modelled.
- HistoryText.DeleteByText: needs a cutoff, and its neighbours need bounds and buckets, in the years 0 to 9999; other years have no fixed-width text and are not modelled.
- Timestamps.FormatInvertsParse: is about a parser that accepts only the canonical text; Go's also takes a few other spellings of the same layout, which nothing here ever stores.
- Rebind.Rebind: queries are sequences of valid characters; Go replaces malformed UTF-8 while it copies.
- Rows of other resolutions: only 60 and 300 seconds are ever written.
- HistoryStore.Store.RollupOldMinuteBuckets: atomic as a method; the interleaving with recordings is in `HistoryInterleaving`. Two passes at once are not modelled.
- The engine's and the registry's locks: each method is one atomic step. Entity states are values in the state map rather than shared pointers.
- MonitoringRuns.RecoversExactly: needs a clock that never goes back, as the comparison of times in the source does.
- Registry.Registry.IngestTelemetry: does not model the live broadcast of metrics or the best-effort write of historical samples, which neither read nor change anything else here.
- Registry.Registry.EvaluateReadings: the same.
- Registry.Registry.ResolveContainers: does not model a failing read of the known rows, which the program treats as a container never seen.
- Registry.Registry.RecordTransition: does not model a failing append to the event log, which the program ignores; the log then no longer tells the engine's verdict.
- Registry.Registry.Heartbeat: does not model a failing write, nor do the other host operations; it leaves everything as it was.
- Metrics are keyed by the pair of entity type and ID, as in the SQL tables; the in-memory store joins the two into one string. The rest of the in-memory store and the CRUD of hosts, containers, metrics and events is not modelled.
- Creating and deleting hosts, and deleting containers.
- Hashes and name-based UUIDs are arbitrary injective functions, fresh tokens and IDs are given and distinct, certificates are values that signing may or may not give, and host IDs contain no slash.
- Hub: ping and pong deadlines and liveness; a read, write or ping may fail at any moment. Marshalling of payloads and the HTTP upgrade. A pump's write and its return are one step.
- Collector: which of several ready channels a select takes is arbitrary; progress is not claimed. What a cycle collects and reports, and the interval it labels metrics with, is not modelled.
- Migrations: splitting a file into statements, parsing file names, and failures of the bookkeeping queries. Whether a file fails is an input of each start-up.
- Ingestion: the texts of event messages beyond the members named above, and the times the event log itself puts on its entries.
- Sessions: password hashing, timing parity, store failures and the bootstrap account. Deleting all sessions of a user is never called by the service.
- JSON, HTTP, TLS, Docker calls, `/proc` arithmetic, configuration and roles: easy members or I/O.
