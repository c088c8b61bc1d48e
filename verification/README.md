# Monitoring core: a Dafny model

The system watches scrap pits with lidar devices. Devices send observations and status reports; a
receiver keeps a short filter and a per-minute history; a worker raises and lowers alarms and
detects collections; readers ask for history, alert lifecycles, event recordings, forecasts and
camera health. This project models the state machines and caches behind those answers and proves
what they promise over whole runs.

| files | part of the system |
|---|---|
| `CollectionModel`, `CollectionTracker`, `CollectionRuns`, `CollectionEpisodes`, `CollectionPreparation`, `CollectionProcess` | the collection detector: a four-phase hysteresis machine with five timers, and the worker that feeds it |
| `MinuteModel`, `MinuteReader`, `MinuteStreams`, `MinuteTables`, `MinuteResults`, `MinuteWriters`, `MinuteEvidence` | the compact minute history: its two writers, the summary cache, the fast and the slot-by-slot reader |
| `ObservationWindow`, `StoredFilter`, `FillFilter`, `FillFilterRuns`, `FillFilterLaws` | the one-second observation slots, the receiver's stored median filter and its timer |
| `FillOperations`, `AlarmConfirmation`, `OperationRuns`, `OperationLaws`, `AlertEpisodes`, `AlertLifecycles`, `SustainedAlarm` | the worker's alarm (confirmation, hysteresis, cooldown), alert episodes, and the reader of their durable evidence |
| `Intervals`, `ReplayModel`, `ReplayResolver`, `ReplayCoverage`, `ReplayTheorems`, `ReplayContents`, `ReplaySummaries`, `ReplaySummaryLaws` | the replay of event recordings and the list summaries that prefilter its input |
| `StatusStore` | compact status storage against full storage |
| `FillForecast` | the recent trend and the forecast made from it |
| `EventPageStore` | the bounded store of frozen event lists |
| `CameraLease` | camera evidence leased on two clocks |

Code that updates objects in place is a class whose methods are proved equal to a function of the
old state; what the system promises is then proved about those functions over all runs. Instants and
durations are integer microseconds. Heights, percentages, sums and playback positions are exact reals.

The main results are `CollectionProcess.WorkerDetectionsAreBacked`,
`CollectionProcess.WorkerDetectsFromHeights`, `CollectionEpisodes.EpisodesAlternate`,
`CollectionEpisodes.EpisodeEnds`, `MinuteResults.ReadersAgree`, `MinuteEvidence.WrittenIsPublished`,
`MinuteWriters.MinuteStore.Project`, `ObservationWindow.WindowFillsAndStaysFull`,
`FillFilterLaws.NothingFromBeforeFault`, `FillFilterLaws.SteadyObservationsMakeReady`,
`AlarmConfirmation.CriticalIsConfirmed`, `SustainedAlarm.SustainedHighRaisesAlarm`,
`OperationRuns.AlarmHoldsUntilRecovery`, `AlertEpisodes.EpisodeTraces`,
`AlertEpisodes.InterruptedNeverResolves`, `AlertLifecycles.ReaderIsRight`,
`ReplayTheorems.ReplayAccountsForEveryInstant`, `ReplayContents.EveryPartIsRecorded`,
`ReplayContents.EveryRecordingIsPlayed`, `ReplaySummaries.SummaryMatchesDetail`,
`ReplaySummaryLaws.CheapPageIsServed`, `StatusStore.ShownIff`, `FillForecast.TrendIsExact`,
`FillForecast.ForecastIsFirstReach`, `EventPageStore.RunIsBounded` and
`CameraLease.ShownBeforeEveryDeadline`.

Three promises turned out to be conditional. For each there is a concrete input on which it fails
and a lemma that says exactly when it holds:

- A comment in the receiver says an old observation cannot become a new sample. A rejected old
  observation moves the stored time back, and a third message with the first one's observation time is
  then taken (`FillFilterRuns.RepeatIsTakenAfterOldOne`). After a run nothing old can be taken exactly
  unless a rejected projection fell behind the newest time and none has caught up since
  (`FillFilterRuns.OldObservationIsTakenIff`). A window still never holds one observation time twice
  (`FillFilterRuns.SamplesNeverRepeat`).
- `_remaining` stays inside its window exactly when no interval starts past the end
  (`Intervals.RemainingCanOverrun`, `Intervals.RemainingIsExact`). Its callers only pass clipped
  intervals, which the replay theorems use.
- Compact storage can hide the status full storage shows, when the reports of two instances
  interleave (`StatusStore.InterleavedInstancesHide`). It does so exactly when a later report of another
  instance ties the newest time, or an earlier report of the newest instance has a higher sequence than
  all since that instance came in (`StatusStore.ShownIff`).

The readers of the minute history agree on every table the writers can produce
(`MinuteWriters.MinuteStore.Project` and `MinuteWriters.BackfillBatch` keep that invariant): a minute's
last sample is chosen by sub-second time while its slots are keyed by whole seconds, so misplaced keys
would make the answer depend on the order of rows.

## Model

| member | source | states |
|---|---|---|
| CollectionTracking.CollectionTracker.Invalidate | src/app/services/collection_detection_service.py:107-117 | An outage clears every timer and candidate; outside an episode it also drops the baseline, and inside one it keeps episode and baseline |
| CollectionTracking.CollectionTracker.SustainedReference | src/app/services/collection_detection_service.py:120-145 | Accepts a candidate level once it has been held for the baseline time without a fall of more than the band below its running peak, then starts the next candidate |
| CollectionTracking.CollectionTracker.Advance | src/app/services/collection_detection_service.py:148-262 | One height leaves the tracker and emits the events of the specification that the run theorems are about |
| CollectionTracking.CollectionTracker.Watch | src/app/services/collection_detection_service.py:223-262 | The branch without an open episode: raise the baseline, arm or disarm the candidate, detect after the confirm time |
| CollectionTracking.CollectionTracker.Collect | src/app/services/collection_detection_service.py:179-222 | The branch of an open episode: follow the anchor, restart the quiet interval on a confirmed further drop, settle after the wait |
| CollectionRuns.Continuity | src/app/services/collection_detection_service.py:107-117 | After every input an invalid tracker has no timer running, and a valid one has the time of its newest observation, not before any other |
| CollectionRuns.PriorCases | src/app/services/collection_detection_service.py:363-366 | Every accepted observation either meets a freshly invalidated tracker or follows the one before it within three seconds |
| CollectionRuns.BaselineIsSupported | src/app/services/collection_detection_service.py:159-176 | Every baseline set or raised outside settlement was held for the baseline time in one unbroken stretch (within half a band of every height of a stable plateau, or never fallen more than a band below the peak); while watching it never falls |
| CollectionRuns.AcceptedLevelWasHeld | src/app/services/collection_detection_service.py:120-145 | Every level accepted from below, whether it becomes the baseline or not, was the first height of an unbroken stretch of the baseline time in which no height fell more than the band below the running peak |
| CollectionRuns.DetectionIsBacked | src/app/services/collection_detection_service.py:230-262 | Every detection ends an unbroken stretch of at least the confirm time in which each height was at least the drop below the baseline then in force, a baseline established after the last invalidation or long gap |
| CollectionRuns.SustainedDropIsDetected | src/app/services/collection_detection_service.py:230-262 | Conversely, heights that stay the drop below a watching tracker's baseline, unbroken for the confirm time, cause a detection on the way |
| CollectionEpisodes.EpisodesAlternate | src/app/services/collection_detection_service.py:179-262 | In every run the events are detection, settlement, detection, and so on; each settlement carries the identifier of its own detection and comes at least the settle time later |
| CollectionEpisodes.DetectionsAreSpaced | src/app/services/collection_detection_service.py:179-262 | Any two detections of one tracker are more than settle plus confirm apart |
| CollectionEpisodes.SettlementIsQuiet | src/app/services/collection_detection_service.py:182-215 | A settlement ends a quiet interval of the settle time without an invalidation or gap and without a further drop of a band that lasted the confirm time |
| CollectionEpisodes.OpenEpisodeIsTimed | src/app/services/collection_detection_service.py:182-204 | In an open episode either no further drop is pending and the quiet interval is shorter than the settle time, or one is pending for less than the confirm time |
| CollectionEpisodes.EpisodeEnds | src/app/services/collection_detection_service.py:179-222 | Once collecting, with non-negative heights that never rise and no gap or outage, settlement comes within floor(level / band) + 1 rounds of settle plus confirm plus two gaps, where the level is the anchor, or the height plus half a band while the surface lies above the anchor |
| CollectionEpisodes.EpisodeEndsFromDetection | src/app/services/collection_detection_service.py:179-249 | So from its detection on an episode ends within floor(detected height / band) + 1 such rounds |
| CollectionPreparation.FlatWindowIs | src/app/services/collection_detection_service.py:151-158 | Since it last started over, a flat window spans exactly the lowest and the highest height |
| CollectionPreparation.FlatWindowPrepares | src/app/services/collection_detection_service.py:172-174 | While a tracker prepares, heights within one band of each other for the baseline time make the middle of that band the baseline |
| CollectionPreparation.CalmPrepares | src/app/services/collection_detection_service.py:120-177 | A tracker that starts from scratch prepares, while no height falls more than a band below an earlier one, for less than the baseline time; then it watches |
| CollectionPreparation.BaselineIsEstablished | src/app/services/collection_detection_service.py:159-177 | So after the baseline time it has a baseline, between the lowest and the highest height it saw |
| CollectionPreparation.RisingBaselineIsFirst | src/app/services/collection_detection_service.py:159-177 | A stretch that rises by more than a band makes its first height the baseline |
| CollectionPreparation.FlatWindowRaises | src/app/services/collection_detection_service.py:223-229 | While a tracker watches, a height above its baseline at the end of a flat window raises the baseline to the middle of the window, or to that height |
| CollectionPreparation.BaselineCatchesUp | src/app/services/collection_detection_service.py:120-229 | A watching tracker follows a rising surface: after twice the baseline time and one gap without a fall of more than a band, and without a detection, its baseline is at least the lowest height of that stretch |
| CollectionPreparation.FlatWindowRaisesAnchor | src/app/services/collection_detection_service.py:182-190 | In an open episode a flat window above the anchor raises the anchor to its middle |
| CollectionPreparation.SettlementLeavesMiddle | src/app/services/collection_detection_service.py:205-222 | A settlement leaves the middle of the flat window of that moment as the next baseline |
| CollectionPreparation.FlatEpisodeLeavesMiddle | src/app/services/collection_detection_service.py:182-249 | A detection starts the flat window over, so an episode whose surface stays within one band until it settles leaves the middle of just its own heights as the baseline |
| CollectionPreparation.StartsFromScratch | src/app/services/collection_detection_service.py:107-117 | Outside an episode the first input, an outage and a long gap make the next height start from scratch |
| CollectionPreparation.CalmThenDropIsDetected | src/app/services/collection_detection_service.py:148-262 | From heights and times alone: starting from scratch, the baseline time without a fall of more than a band and then, for the confirm time, heights at least the drop below all of those, bring a detection |
| CollectionProcess.CollectionWorker.Process | src/app/services/collection_detection_service.py:304-403 | One sweep of the worker: scope check, replay gate, gap gate, advance and the stored row equal the specification |
| CollectionProcess.WorkerFollowsLives | src/app/services/collection_detection_service.py:304-403 | After any sequence of sweeps the stored row and the event log are those of valid tracker lives: scope changes begin a new life, unusable sweeps and long gaps become outages, replays are no input at all |
| CollectionProcess.LivesAreReceived | src/app/services/collection_detection_service.py:322-366 | Every life of a run, ended or current, is exactly what the worker took from a range of sweeps of its pit and scope: it begins with the sweep that found no tracker, ends where another life begins, and its inputs are the heights of the usable sweeps that were no replays and the outages in between, in order and nothing else |
| CollectionProcess.LoggedEventIsEmitted | src/app/services/collection_detection_service.py:366-390 | Every logged event was emitted by one input of one of the run's own lives |
| CollectionProcess.EmittedEventIsLogged | src/app/services/collection_detection_service.py:366-390 | Every event that a life of the run emits is logged |
| CollectionProcess.WorkerDetectionsAreBacked | src/app/services/collection_detection_service.py:304-403 | Every detection the worker ever logs is backed as above by what the worker itself received: by the inputs of one of the run's own lives, across scope changes, outages and replays |
| CollectionProcess.WorkerLogsSustainedDrops | src/app/services/collection_detection_service.py:304-403 | Conversely a sustained drop below the baseline of a watching tracker that a life of the run received has a detection in the worker's log, within the time of the drop |
| CollectionProcess.WorkerDetectsFromHeights | src/app/services/collection_detection_service.py:304-403 | From heights and times alone: a life that starts, or starts again outside an episode after an outage or a long gap, sees the baseline time without a fall of more than a band and then, for the confirm time, heights at least the drop below all of those, has a detection in the log within the time of the drop |
| CollectionProcess.HeightIsTakenIff | src/app/services/collection_detection_service.py:322-366 | The worker takes a height exactly from a fresh, ready, complete reading of height sections, simulated as its source is, that is newer in both times than the stored row of its pit and scope |
| MinuteModel.MergeRepresents | src/app/services/compact_history_summary.py:127-136 | Merging is a homomorphism: groups of two disjoint slot sets merge into the group of their union, although sets of names are capped at two |
| MinuteModel.AddingRepresents | src/app/services/compact_history_stream.py:40-48 | Adding the figures of further slots to a group gives the group of all of them |
| MinuteModel.CapRepresents | src/app/services/compact_history_stream.py:34-37 | A capped set that takes a name only while it has room still has min(2, true size) members, all of them true |
| MinuteModel.CappedUnion | src/app/services/compact_history_stream.py:34-37 | Capping before or after a union keeps the same information |
| MinuteReader.MaxStampIsLatest | src/app/services/compact_history_stream.py:89-124 | In a well placed minute the largest second key holds the slot that is last by sub-second time |
| MinuteReader.WholeStats | src/app/services/compact_history_stream.py:89-124 | Stored statistics are used only when their counts match, and either way the figures are those of the slots |
| MinuteReader.Provenances | src/app/services/compact_history_stream.py:79-86 | Names, simulation and valid values of all slots are collected in whatever order the slots come |
| MinuteReader.HistoryGroups.WholeMinute | src/app/services/compact_history_stream.py:89-124 | A complete minute turns the group of the slots before into the group of those slots and the minute's |
| MinuteReader.HistoryGroups.AddSlot | src/app/services/compact_history_stream.py:138-162 | One slot of a boundary minute is added with its names, its value and, when it is later, as last sample |
| MinuteReader.HistoryGroups.MergeSummary | src/app/services/compact_history_summary.py:139-193 | A cached minute merged as one part gives the same group as its slots would |
| MinuteStreams.AccumulateMinute | src/app/services/compact_history_stream.py:138-162 | One row adds exactly its slots inside the window, by the whole-minute path or slot by slot |
| MinuteStreams.MinuteInOneBucket | src/app/services/compact_history_stream.py:138-162 | All seconds of a minute fall in one output bucket when buckets are whole minutes |
| MinuteStreams.BuildMinuteSummary | src/app/services/compact_history_summary.py:27-56 | A summary is built only for complete, normally placed minutes, and is then the compact group of the minute's slots |
| MinuteStreams.BuiltIsRestored | src/app/services/compact_history_summary.py:27-124 | Round trip: a summary that was built is accepted by restore and still means the slots of its minute |
| MinuteTables.SelectionIsComplete | src/app/services/compact_history_stream.py:165-196 | The rows selected for a window hold every slot of the window |
| MinuteTables.LegacyStreamGroups | src/app/services/compact_history_stream.py:165-196 | For every true table, window and split into pages, the original reader ends with the groups of exactly the window's slots |
| MinuteTables.SummaryStreamGroups | src/app/services/compact_history_summary.py:139-193 | The summary reader ends with groups of the same slots, decoding originals only where a summary cannot be used |
| MinuteTables.ReadCached | src/app/services/compact_history_summary.py:139-193 | A minute inside the window read from its summary counts the same slots as its payload |
| MinuteResults.CompactResult | src/app/services/load_history_v2_service.py:316-362 | Each group becomes one published sample, bucket by bucket |
| MinuteResults.PublishedIsDetermined | src/app/services/load_history_v2_service.py:316-362 | The published sample depends on the set of slots alone: not on row, page or slot order, not on which two of several names were kept, not on stored or recomputed statistics |
| MinuteResults.PublishedMeaning | src/app/services/load_history_v2_service.py:316-362 | With several sources or methods the bucket is MIXED and shows no value, method or statistics; otherwise counts, minimum, maximum and average are those of the valid values, the value is that of the latest slot, the source is that of every valid slot, the method that of every valid slot that has one, and without any they are those of the latest slot; totals are always the number of slots |
| MinuteResults.SameSlotsSameHistory | src/app/services/load_history_v2_service.py:316-362 | Two accumulations of the same slots publish the same history |
| MinuteResults.HistoryIsUnique | src/app/services/load_history_v2_service.py:316-362 | A window has one published history: the one of groups that answer exactly its slots |
| MinuteResults.ReadersAgree | src/app/services/compact_history_summary.py:139-193 | For every true table, window and whole-minute interval the summary reader and the original reader both publish that one history of the window's slots, however each orders and pages its rows |
| MinuteWriters.WrittenSlots | src/app/services/edge_v2_projection.py:436-466 | The written slot says what was observed at its own time; other keys keep values and names, and the retained metadata is that of stored values and of the written slot |
| MinuteWriters.MinuteStore.Project | src/app/services/edge_v2_projection.py:421-473 | Storing an observation keeps the table true (at most sixty placed slots, statistics and summary recomputed from them), changes only its own minute and writes exactly the slot |
| MinuteWriters.BackfillBatch | src/app/services/history_summary_backfill.py:25-53 | A batch writes missing summaries only, changes no observation, keeps the table true, and when it comes back short has left no unlocked row without a summary behind its cursor |
| MinuteWriters.BuiltRow | src/app/services/compact_history_summary.py:27-56 | A row that gets its built summary is a true row |
| MinuteEvidence.EvidenceIsPublished | src/app/services/load_history_v2_service.py:316-362 | A published sample carries time, identifiers, state and reasons of the latest slot's evidence exactly when that was generated in the window and in the slot's second; otherwise it has the slot's time, no identifiers and the reason that metadata was not retained |
| MinuteEvidence.WrittenIsPublished | src/app/services/edge_v2_projection.py:436-466 | Round trip from writer to reader: a stored observation that lies in the window and is the latest of its bucket is what the published sample of the bucket carries |
| MinuteEvidence.HistoryIsOfItsSeconds | src/app/services/compact_history_stream.py:138-196 | A history has a sample for exactly the buckets in which some stored second of the table lies, in the window; it counts just these and is simulated exactly when one of them was |
| MinuteEvidence.SlotEvidence | src/app/services/compact_history_stream.py:138-162 | A second with evidence of its own has its exact time; any other has its whole second and the evidence written last |
| MinuteEvidence.SummaryIsCurrent | src/app/services/compact_history_summary.py:59-124 | A summary is used only in its own format, for its own minute and generation, and with possible content |
| ObservationWindow.ObservationSlots | src/app/services/observation_window.py:7-28 | The loop over a dictionary of slots equals the selection the window theorems are about, with the anchor kept while young |
| ObservationWindow.SelectedPoints | src/app/services/observation_window.py:22-28 | Every chosen index is a position of the list and at most `size` are chosen |
| ObservationWindow.FilledIsSlotted | src/app/services/observation_window.py:24-28 | Rising times fill the dictionary with one entry a slot, in slot order, the newest last |
| ObservationWindow.FilledIsNewest | src/app/services/observation_window.py:24-28 | Every slot that was observed is filled, and with nothing older than any observation of that slot |
| ObservationWindow.WindowIsSound | src/app/services/height_median_service.py:89-111 | After any run of newer and newer observations a window is at most `size` samples in different slots, all younger than `size` seconds, the newest observation last, all from the run and none from before its last pause over 1.5 s |
| ObservationWindow.StretchIsUnbroken | src/app/services/height_median_service.py:103-105 | The stretch a window belongs to starts right after the last pause over 1.5 s |
| ObservationWindow.BurstCannotFill | src/app/services/observation_window.py:7-28 | `size` samples always span more than `size` - 2 seconds: no burst fills a window |
| ObservationWindow.WindowFillsAndStaysFull | src/app/services/observation_window.py:10-18 | With one observation a second to within half a second, or gaps of at least a second that keep `size` of them inside `size` seconds, the window is exactly the newest `size` observations: it fills with the `size`-th and stays full for ever, however often it is re-anchored |
| ObservationWindow.DriftAllowsUpTo | src/app/services/observation_window.py:10-18 | Gaps between one second and anything below size / (size - 1) seconds, and at most 1.5 s, are such a pace |
| ObservationWindow.AnchorStays | src/app/services/observation_window.py:10-24 | The anchor stays for as long as observations follow within 1.5 s and it is younger than `size` seconds; then the oldest observation still that young takes its place, and after a pause the newest |
| FillFilter.FilterRow.ProjectInput | src/app/services/edge_v2_projection.py:283-408 | One observation turns the stored filter into the specified one (trust, old observations, scope, pause, window, median, timer) and records a changed input and changed validity |
| FillFilter.FilterRow.StatusReplaced | src/app/services/edge_v2_projection.py:179-202 | A report that replaced the retained one keeps the filter exactly when instance, state, clock, both sensors and configuration allow it |
| FillFilterRuns.RecordedChangesReplay | src/app/services/edge_v2_projection.py:371-395 | Secondary: while nothing is erased, each recorded change starts from what the ones before it tell, and replayed from any projection they give the validity, the source and the method of the last one |
| FillFilter.MedianIsMajority | src/app/services/edge_v2_projection.py:352-358 | The median of an odd window reaches a bound exactly when a majority of its values do |
| FillFilter.EvenMedianIsMiddle | src/app/services/edge_v2_projection.py:352-358 | The median of an even window lies halfway between its two middle values, which reach a bound exactly when one more than half and half of the values do |
| FillFilterRuns.TrailEndsStored | src/app/services/edge_v2_projection.py:168-396 | The recorded trail of projections and erasures ends with the stored filter |
| FillFilterRuns.AboveSinceIsBacked | src/app/services/edge_v2_projection.py:361-370 | Whenever the filter carries a time above since, every projection from the one observed then up to the last was ready, at or above the threshold, in one scope and within 1.5 s of the one before |
| FillFilterRuns.AboveSinceCovers | src/app/services/edge_v2_projection.py:361-370 | The timer starts no later than any such stretch that ends with the last projection |
| FillFilterRuns.ReadyFollows | src/app/services/edge_v2_projection.py:319-360 | A projection with more than one sample goes on from an accepted one, newer, in its scope, without a pause |
| FillFilterRuns.SamplesAreTaken | src/app/services/edge_v2_projection.py:304-360 | Every stored sample is the newest one of an accepted projection since which nothing was rejected, erased, out of scope or paused |
| FillFilterRuns.ReadyMeansFullWindow | src/app/services/edge_v2_projection.py:346-360 | A ready filter rests on `size` samples that span more than size - 2 and less than size seconds, each taken as above |
| FillFilterRuns.AboveMeansMajority | src/app/services/edge_v2_projection.py:346-362 | A ready edge-state projection is at or above its threshold exactly when a majority of its samples are |
| FillFilterRuns.OldObservationEmptiesWindow | src/app/services/edge_v2_projection.py:322-327 | A trusted observation not newer than the stored one is rejected, empties the window and moves the stored time back; the next newer one starts a window of one sample |
| FillFilterRuns.NextIsNewIff | src/app/services/edge_v2_projection.py:322-327 | Every trusted observation that can be taken next is newer than everything since the last erasure exactly when the stored time is the newest of them |
| FillFilterRuns.OldObservationIsTakenIff | src/app/services/edge_v2_projection.py:322-396 | After every run that holds exactly unless a rejected projection had no time or one below the newest, and no projection has caught up with the newest since |
| FillFilterRuns.RepeatIsTakenAfterOldOne | src/app/services/edge_v2_projection.py:322-327 | Concretely: three messages sent one after another, the second with an older observation and the third with the first one's time, are accepted, rejected, accepted |
| FillFilterRuns.SamplesNeverRepeat | src/app/services/edge_v2_projection.py:322-347 | A stored window is strictly increasing in time in every run, so it never holds one observation twice |
| FillFilterLaws.TakenIff | src/app/services/edge_v2_projection.py:283-345 | An observation is taken exactly when its evidence is younger than its lifetime, from a reporting and working device configured alike, and newer than the stored time; otherwise nothing remains but its message and time |
| FillFilterLaws.ChangeOfKindRestarts | src/app/services/edge_v2_projection.py:304-345 | After a change of configuration, rule, method, instance, pit, threshold, source or token neither samples nor the timer go on |
| FillFilterLaws.ReportErasesIff | src/app/services/edge_v2_projection.py:179-202 | After any history a report erases the filter exactly when its instance or state differs or, with height fill, its clock, generation time, number of sensors, a scan's age or the configuration is wrong; any other leaves it as it is |
| FillFilterLaws.NothingFromBeforeFault | src/app/services/edge_v2_projection.py:179-396 | Over every run no stored sample, and no start of the timer, is from before a report with such a fault |
| FillFilterLaws.StoredSinceErasure | src/app/services/edge_v2_projection.py:168-396 | Whatever is stored after any erasure was taken after it |
| FillFilterLaws.SteadyIsTracked | src/app/services/edge_v2_projection.py:304-360 | Fresh observations of one kind, each newer than the one before, keep exactly the window of their times in the stored filter |
| FillFilterLaws.SteadyObservationsMakeReady | src/app/services/edge_v2_projection.py:304-360 | At a steady pace they make the filter ready with the `size`-th and keep it so: its values are exactly the newest `size` and its value their median, or the median the height path brings |
| FillOperations.Tables.InvalidateEpisode | src/app/services/alert_lifecycle_service.py:64-72 | A gap takes the episode from the pit's own tracker and nothing else, and reports whether anything changed |
| FillOperations.Tables.AdvanceEpisode | src/app/services/alert_lifecycle_service.py:82-142 | An evaluation carries, opens, resolves or drops the device's episode as specified, and returns the open one |
| FillOperations.Tables.RecordAlert | src/app/services/alert_lifecycle_service.py:145-170 | An alert of the open episode is written with its event and remembered by the tracker |
| FillOperations.Tables.ProcessSource | src/app/services/edge_v2_operations.py:30-195 | One sweep of a source updates row, tracker, events and alerts as the specification says, and records a change of state when the filter is ready |
| FillOperations.Tables.Decide | src/app/services/edge_v2_operations.py:97-137 | Confirmation and hysteresis: the pending time and the next state |
| AlarmConfirmation.SameMessageSameTrail | src/app/services/edge_v2_operations.py:101-109 | A filter that is read again and still has the snapshot's message has seen no projection or erasure in between |
| AlarmConfirmation.TimerDecides | src/app/services/edge_v2_projection.py:361-370 | The stored timer has run for the confirmation time exactly when a long enough stretch above the threshold exists |
| AlarmConfirmation.CriticalIsConfirmed | src/app/services/edge_v2_operations.py:97-128 | With the filter ready the alarm is raised exactly when the fill reaches the threshold and either nothing has to be confirmed or, the filter still being the snapshot's, every projection of the receiver over at least the confirmation time was ready, in one scope, at or above the threshold and without a pause |
| OperationRuns.OneSweepHolds | src/app/services/edge_v2_operations.py:129-137 | A raised alarm survives a sweep exactly when the sweep does not evaluate its pit at or below critical minus five |
| OperationRuns.AlarmHoldsUntilRecovery | src/app/services/edge_v2_operations.py:75-137 | Over any run with one device for the pit a raised alarm stays raised exactly as long as no sweep evaluates it at or below critical minus five |
| OperationRuns.AlertsAreSpaced | src/app/services/edge_v2_operations.py:160-193 | In every run any two alerts of a pit are at least the cooldown apart, across source reassignment |
| OperationRuns.AlertsAreRaised | src/app/services/edge_v2_operations.py:160-193 | Every alert a run adds was raised by one of its sweeps that evaluated the pit as critical on a fill above critical minus five, with that sweep's time, fill and observation |
| OperationRuns.CriticalHasAlert | src/app/services/edge_v2_operations.py:160-193 | A sweep that finds a pit critical leaves an alert of that pit from this sweep or less than the cooldown old |
| OperationRuns.StatesChain | src/app/services/edge_v2_operations.py:96-159 | Secondary: an evaluation starts from the state the evaluation before it of the same source ended in, so recorded changes chain |
| OperationRuns.ReplayChangesNothing | src/app/services/edge_v2_operations.py:75-86 | Once a reading is evaluated, later sweeps that bring it, or any reading not newer in both times, change no row, tracker, event or alert, however many sweeps lie between |
| OperationLaws.SweepCases | src/app/services/edge_v2_operations.py:58-96 | Without usable evidence, or with thresholds out of order, a sweep only takes the episode of the device's own tracker of the pit, and the first also drops a pending alarm; a reading not newer in both times changes nothing; every other is evaluated and taken into the row |
| OperationLaws.StateIsExact | src/app/services/edge_v2_operations.py:97-137 | The evaluated level is the raw one with a disabled filter and the filtered one otherwise; the row is CRITICAL exactly while a raised alarm is above critical minus five, or at the threshold once confirmed by the right timer, else WARNING exactly from the lower threshold on, and holds the pending time exactly while one is awaited |
| OperationLaws.ChangeIsExact | src/app/services/edge_v2_operations.py:138-159 | A change of state is recorded exactly when a ready filter's evaluation leaves the row in another state than it found, with both states and the level |
| OperationLaws.HigherIsNoLower | src/app/services/edge_v2_operations.py:97-137 | Secondary: a higher level never finds a lower state |
| OperationLaws.EpisodeFollows | src/app/services/alert_lifecycle_service.py:82-142 | After an evaluation the device's tracker is of this pit and observation; in CRITICAL it goes on with its episode unless something that rests on differs or the observation is late, and otherwise begins a new one; outside CRITICAL it holds none |
| AlertEpisodes.SweepKeeps | src/app/services/alert_lifecycle_service.py:64-170 | One sweep keeps the invariant of trackers and durable events: no two devices hold one episode, a held episode has only alerts on record, and events of an episode are ordered |
| AlertEpisodes.RunKeeps | src/app/services/edge_v2_operations.py:30-195 | So does every run on a clock that does not go back |
| AlertEpisodes.EpisodeTraces | src/app/services/alert_lifecycle_service.py:64-170 | From empty tables the durable trace of each episode is one or more alerts of one pit, device and scope followed by at most one resolution, observed later than all of them |
| AlertEpisodes.InterruptedIsGone | src/app/services/alert_lifecycle_service.py:64-107 | Missing evidence, thresholds out of order, or a reading with another pit, source, configuration, rule, method, token, input, simulation, threshold or instance, or not newer, or the lifetime or more after the tracker's observation, takes the episode from its tracker and writes nothing about it |
| AlertEpisodes.InterruptedNeverResolves | src/app/services/alert_lifecycle_service.py:64-132 | After such an interruption nothing more is ever written about the episode, so it is never resolved |
| AlertEpisodes.ResolvedIffRecovered | src/app/services/alert_lifecycle_service.py:112-126 | A sweep resolves an episode exactly when it evaluates a reading that breaks with none of these, an alert of the episode is on record, the alarm was raised and the level is at or below critical minus five |
| AlertLifecycles.CurrentEpisode | src/app/services/alert_lifecycle_service.py:173-208 | The episode reported open now is held by the tracker of the pit's configured device, with valid input, a current scope, an observation within its lifetime and a critical, usable snapshot |
| AlertLifecycles.Lifecycles | src/app/services/alert_lifecycle_service.py:211-292 | The reader answers for every alert asked for, by the first created event of the alert and the first resolution of that event's episode |
| AlertLifecycles.CreationIsFound | src/app/services/alert_lifecycle_service.py:224-251 | The query finds the one event that created an alert |
| AlertLifecycles.EndIsFound | src/app/services/alert_lifecycle_service.py:254-272 | The query finds the one resolution of the alert's episode if there is one, later than the alert, and nothing else |
| AlertLifecycles.ReaderIsRight | src/app/services/alert_lifecycle_service.py:273-292 | The reader calls an alert resolved exactly when its own episode recorded a resolution, with its times, and active exactly when its episode is the open one |
| AlertLifecycles.EveryAlertHasAnEvent | src/app/services/edge_v2_operations.py:160-193 | After any run from empty tables every recorded alert has a created event of its own, with its time and observation, so the reader's theorem applies to it |
| AlertLifecycles.OneActiveEpisode | src/app/services/alert_lifecycle_service.py:273-292 | At most one episode of a pit is reported active |
| AlertLifecycles.CriticalIsActive | src/app/services/alert_lifecycle_service.py:173-292 | Once a sweep has found a pit critical, every alert of its open episode is reported active for as long as the observation is younger than its lifetime and the reader sees the same source, critical and on the same footing |
| SustainedAlarm.HighRunsSince | src/app/services/edge_v2_projection.py:283-370 | Fresh observations of one kind at a steady pace, all at or above the threshold, keep the filter ready and above from the `size`-th on, with a timer that started no later |
| SustainedAlarm.SustainedHighRaisesAlarm | src/app/services/edge_v2_operations.py:58-193 | From observations to the alarm: once these have lasted the confirmation time beyond the `size`-th, the worker's evaluation of the last of them is CRITICAL and leaves an alert of the pit from this sweep or less than the cooldown old |
| Intervals.Remaining | src/app/services/event_recording_service.py:101-113 | The cursor loop over sorted intervals equals the specified holes |
| Intervals.RemainingIsExact | src/app/services/event_recording_service.py:101-113 | For forward intervals the holes stay in the window exactly when none starts past its end; then they are the uncovered stretches, in order, each instant once |
| Intervals.RemainingCanOverrun | src/app/services/event_recording_service.py:101-113 | One interval wholly past the end yields a hole longer than the window |
| Intervals.Duration | src/app/services/event_recording_service.py:116-125 | The loop equals the swept length of the sorted intervals |
| Intervals.DurationIsMeasure | src/app/services/event_recording_service.py:116-125 | That length is the measure of the union: overlaps count once |
| Intervals.SortKeeps | src/app/services/event_recording_service.py:106-106 | Sorting keeps every interval as often as it occurs |
| ReplayResolver.ReplayBuilder.Miss | src/app/services/event_recording_service.py:180-184 | An unavailable interval is reported unless it runs backwards; a point is kept |
| ReplayResolver.ReplayBuilder.CollectGaps | src/app/services/event_recording_service.py:200-207 | Clipped gaps inside the confirmed part of the day are reported and returned |
| ReplayResolver.ReplayBuilder.CollectAvailable | src/app/services/event_recording_service.py:216-264 | Available intervals become point or linear parts, unless a gap contradicts them or nothing of them is playable |
| ReplayResolver.ReplayBuilder.ResolveDay | src/app/services/event_recording_service.py:170-274 | One day of a window: future, missing, expired, gaps, parts and remaining holes, in the code's order |
| ReplayResolver.PlaceParts | src/app/services/event_recording_service.py:342-347 | Parts in order get consecutive relative positions from one running total |
| ReplayResolver.WalkDays | src/app/services/event_recording_service.py:328-341 | The walk over Korean midnights gathers the days' outcomes, or gives up at the segment limit |
| ReplayResolver.ResolveEventReplay | src/app/services/event_recording_service.py:314-363 | The whole replay of an event equals the specification |
| ReplayCoverage.DayTiles | src/app/services/event_recording_service.py:170-274 | One segment of a window is tiled: every instant is in exactly one covered or unavailable interval |
| ReplayCoverage.TilesJoin | src/app/services/event_recording_service.py:331-341 | Tilings of adjacent segments tile their union |
| ReplayCoverage.WalkTiles | src/app/services/event_recording_service.py:331-341 | So the walk over all days tiles the window |
| ReplayTheorems.ReplayAccountsForEveryInstant | src/app/services/event_recording_service.py:314-363 | For validated recordings and below the segment limit every instant of a known, non-empty window lies in exactly one linear part or unavailable interval, and covered plus unavailable seconds equal the requested seconds |
| ReplayTheorems.AvailableMeansComplete | src/app/services/event_recording_service.py:348-357 | A replay is AVAILABLE exactly when its window is not open and nothing is unavailable; then linear parts cover every instant |
| ReplayTheorems.ReplayTimelineIsSeamless | src/app/services/event_recording_service.py:342-347 | The parts tile the relative timeline from zero to the playback total without a hole |
| ReplayTheorems.PositionIsStrict | src/app/services/event_recording_service.py:240-249 | The linear mapping of instants to playback positions is strictly increasing and takes an interval onto its range |
| ReplayTheorems.AvailableAlwaysMaps | src/app/services/event_recording_service.py:250-264 | A validated interval never loses its part to the precision rule, and its part plays forward within its range |
| ReplayContents.EveryPartIsRecorded | src/app/services/event_recording_service.py:208-264 | Every part of a replay is of the recording of its date, kept and ready, and of one of its intervals: a point with the interval's own seconds, or exactly the stretch in the window that is past, confirmed, playable and undisturbed by a gap, whose ends play at the seconds that divide the playback range as they divide the interval; parts follow one another by time |
| ReplayContents.EveryRecordingIsPlayed | src/app/services/event_recording_service.py:208-264 | Conversely every such interval of every day is shown by a part |
| ReplayContents.EveryLackIsExplained | src/app/services/event_recording_service.py:180-274 | Every unavailable stretch is of the future, of a day without recording, of one no longer kept, of a gap with its own reason, or unconfirmed: pending past the coverage, else not ready, else unconfirmed |
| ReplayContents.EveryGapIsReported | src/app/services/event_recording_service.py:200-207 | Every gap of a kept day that touches the past of the window is reported with all of its stretch there |
| ReplayContents.StateIsExact | src/app/services/event_recording_service.py:348-357 | A replay that is not AVAILABLE is PARTIAL exactly when it plays anything, else PROCESSING exactly when everything unavailable may still come, else UNAVAILABLE |
| ReplayContents.ReasonsAreExact | src/app/services/event_recording_service.py:358-363 | The reasons are, each once, those of the unavailable stretches, that the collection is open, and the errors and contradicting gaps of the kept days of the window's past |
| ReplayContents.RefusalsAreExact | src/app/services/event_recording_service.py:314-345 | Unknown and empty windows and more than 2000 segments are refused with their reason and no contents, and nothing else is |
| ReplayContents.WalkIsItsSegments | src/app/services/event_recording_service.py:328-341 | A walk over the days says exactly what the days of the window's instants say |
| ReplaySummaries.NarrowedDaySaysTheSame | src/app/services/event_playback_summary.py:121-134 | A day without the intervals and gaps that fail the overlap test resolves to the same outcome inside the window |
| ReplaySummaries.PreparedWalk | src/app/services/event_playback_summary.py:107-134 | With only the event's own dates, narrowed, the walk over the days has the same outcome |
| ReplaySummaries.SummaryMatchesDetail | src/app/services/event_playback_summary.py:112-148 | The list summary and the detail view resolve the same replay |
| ReplaySummaries.Dates | src/app/services/event_playback_summary.py:31-40 | The dates of an event are the consecutive Korean dates of its past window, refused exactly when there are more than seven |
| ReplaySummaries.DatesAreUsed | src/app/services/event_playback_summary.py:31-40 | They are exactly the dates the past window touches |
| ReplaySummaries.SelectDates | src/app/services/event_playback_summary.py:45-56 | An event is refused exactly when its own dates, or they and those chosen before it, are more than seven; the selected dates are the union of the dates of the others |
| ReplaySummaries.PrepareDays | src/app/services/event_playback_summary.py:112-135 | The days are the stored ones of the event's dates, narrowed to its window; the scan counts their intervals and gaps, the cost the pairs that remain |
| ReplaySummaries.SummarizeOne | src/app/services/event_playback_summary.py:104-148 | One event: its summary and the work it adds, where scanning counts even when resolving would go too far |
| ReplaySummaries.AddPlaybackSummaries | src/app/services/event_playback_summary.py:103-148 | Every summary of a page is what the detail view reports from the full metadata, unless the window was refused, a date failed or the segment limit was hit, or the work of the events before it and its own exceed the budget, and the work limit is reported exactly then |
| ReplaySummaryLaws.DatesAreOfInstants | src/app/services/event_playback_summary.py:31-40 | The dates an event reads are exactly those of the instants of its known window before now |
| ReplaySummaryLaws.SmallPageIsServed | src/app/services/event_playback_summary.py:45-56 | A page whose events together use at most seven dates has none of them refused |
| ReplaySummaryLaws.GapIsKeptIff | src/app/services/event_playback_summary.py:121-134 | Narrowing keeps every gap as often as it occurs if it begins before the end of the past window and ends at its start or later, and drops it otherwise |
| ReplaySummaryLaws.IntervalIsKeptIff | src/app/services/event_playback_summary.py:121-134 | The same for available intervals |
| ReplaySummaryLaws.CheapPageIsServed | src/app/services/event_playback_summary.py:103-148 | Whatever is refused or fails, a page whose events would together cost at most 200 000 never meets the work limit: every event that was not refused and has no failed date is summarised as its detail view reports it |
| ReplaySummaryLaws.OtherSummariesAreReasons | src/app/services/event_playback_summary.py:103-148 | A refused window, the first failed date that has a reason, and work over the limit are reported as such |
| ReplaySummaryLaws.CostsAdd | src/app/services/event_playback_summary.py:112-136 | Costs of dates add up; one date costs its stored intervals and gaps, and the product of one more than its kept intervals and one more than its kept gaps |
| StatusStore.StatusTables.Project | src/app/services/edge_v2_projection.py:115-143 | Within an instance the higher sequence is retained, across instances the newer generation time, and the row's time never goes back |
| StatusStore.StatusTables.Accept | src/app/services/edge_v2_service.py:185-239 | A report is stored, answered as a duplicate or refused; a refusal changes nothing |
| StatusStore.RunIsImmutable | src/app/services/edge_v2_service.py:94-125 | In every run one sequence number of an instance has one content and message identifiers are unique |
| StatusStore.AnswerIsExact | src/app/services/edge_v2_service.py:185-239 | After any run a report is a duplicate exactly when it was received, a conflict exactly when its message was received with another content or its sequence number stands for another content, and otherwise it is stored last; only then does anything change |
| StatusStore.ResendIsDuplicate | src/app/services/edge_v2_service.py:192-196 | A report that was stored is answered as a duplicate whenever it is sent again |
| StatusStore.NewestRow | src/app/services/edge_v2_service.py:253-255 | The instance is chosen by the newest generation time, of equal ones the last stored |
| StatusStore.HighestRow | src/app/services/edge_v2_service.py:259-263 | Within the instance the highest sequence number is chosen |
| StatusStore.CompactRefinesFull | src/app/services/edge_v2_service.py:242-287 | For any arrival order, whatever snapshot compact storage shows is what full storage would show, up to the message identifier |
| StatusStore.RetainedLeads | src/app/services/edge_v2_projection.py:115-143 | Since its instance came in, the retained row holds that instance's highest sequence and newest time |
| StatusStore.ShownIff | src/app/services/edge_v2_service.py:264-274 | On the receipts alone: compact storage shows the selected snapshot exactly unless a later report of another instance ties the newest time, or an earlier report of the newest instance has a higher sequence than all since it came in |
| StatusStore.InstalledBegins | src/app/services/edge_v2_projection.py:115-143 | The instance came in with the first of the advancing reports that all are its own |
| StatusStore.RetainedIsNewest | src/app/services/edge_v2_projection.py:115-143 | The retained row's time is the newest generation time of all receipts |
| StatusStore.OrderedInstancesAreShown | src/app/services/edge_v2_service.py:242-287 | When every report of a later instance was generated after all of earlier ones, the snapshot is always shown, in every arrival order |
| StatusStore.InterleavedInstancesHide | src/app/services/edge_v2_service.py:264-274 | Two interleaving instances for which full storage shows a snapshot and compact storage none |
| FillForecast.RecentPoints | src/app/services/fill_forecast_service.py:25-56 | The points are the last samples, all usable, with gaps in (0, 90] s and no drop over one point, and one sample more would not be |
| FillForecast.RecentIsUnique | src/app/services/fill_forecast_service.py:25-56 | No other list of points is recent in that sense |
| FillForecast.RecentReaches | src/app/services/fill_forecast_service.py:25-56 | The last m samples are all used exactly when each is valid, available, without invalid parts, of the input asked for and timely, and each comes within 90 s after the one before without a drop over one point |
| FillForecast.LongSpanVaries | src/app/services/fill_forecast_service.py:65-76 | Points over a minute or more have a positive spread in time: the slope never divides by zero |
| FillForecast.ProjectTrend | src/app/services/fill_forecast_service.py:59-91 | The sums, sums of products and branches equal the specified trend |
| FillForecast.DotIsBounded | src/app/services/fill_forecast_service.py:73-81 | Cauchy-Schwarz for sums of products |
| FillForecast.RSquaredIsAShare | src/app/services/fill_forecast_service.py:81-81 | The unclamped share of explained variation is between 0 and 1, so clamping changes nothing |
| FillForecast.RisingVaries | src/app/services/fill_forecast_service.py:76-80 | A positive slope implies varying values: the test for no variation never decides and its division is safe |
| FillForecast.SlopeFitsBest | src/app/services/fill_forecast_service.py:70-76 | The slope, through the mean point, has the least squared misfit of all lines |
| FillForecast.TrendIsExact | src/app/services/fill_forecast_service.py:59-91 | A forecast is made exactly for three points or more, over a minute or more, whose best line rises, misses them by no more than a fifth of their variation and reaches the target from the current load within a day; otherwise the first of these that fails is named |
| FillForecast.ForecastIsFirstReach | src/app/services/fill_forecast_service.py:81-91 | With the load below target a forecast gives the least whole second, up to 1e-9, at which the fitted slope reaches the target, within a day, from a rising fit of at least 0.8 |
| EventPageStore.Store.Begin | src/app/services/event_page_store.py:60-63 | At most two builds run at once |
| EventPageStore.Store.Drop | src/app/services/event_page_store.py:68-69 | Dropping an entry keeps the byte counter equal to the sum of sizes |
| EventPageStore.Store.Prune | src/app/services/event_page_store.py:71-75 | Pruning keeps exactly the entries before their deadline, in order |
| EventPageStore.Store.Get | src/app/services/event_page_store.py:77-83 | A token gives a list exactly when it is stored, alive and the reader's own |
| EventPageStore.Store.Put | src/app/services/event_page_store.py:85-111 | A list is refused exactly when it exceeds the byte limit; otherwise it is stored last beside what eviction leaves, under the first drawn token that is not in use, and all limits hold |
| EventPageStore.Store.DrawToken | src/app/services/event_page_store.py:97-99 | Tokens are drawn until one is not in use |
| EventPageStore.Store.DropOwned | src/app/services/event_page_store.py:92-94 | The owner's oldest entries go, just as many as needed, and nobody else's |
| EventPageStore.Store.DropOldest | src/app/services/event_page_store.py:95-96 | The oldest entries go until the new list fits; nothing is ever dropped from an empty store |
| EventPageStore.NewestIsLongest | src/app/services/event_page_store.py:95-96 | What stays is the longest suffix beside which the new list fits |
| EventPageStore.PutKeepsBounds | src/app/services/event_page_store.py:85-111 | A put keeps the entry, byte and per-owner limits and distinct tokens |
| EventPageStore.EvictsOnlyIfNeeded | src/app/services/event_page_store.py:85-96 | A put evicts nothing exactly when the owner has a place left and the list fits beside all live ones |
| EventPageStore.OwnerKeepsItsShare | src/app/services/event_page_store.py:92-94 | The owner of a new list keeps its newest entries, one fewer than its share, in order, or all if they are fewer |
| EventPageStore.SizeAdds | src/app/services/event_page_store.py:86-89 | A list costs 1024 bytes, and each item its bytes and 64 more |
| EventPageStore.RunIsBounded | src/app/services/event_page_store.py:60-111 | In every run in which a token is not in use when it is given out, the limits hold and everything stored is a list that was frozen, unchanged, the last one under its token |
| EventPageStore.ReadersGetWhatWasFrozen | src/app/services/event_page_store.py:77-83 | In every such run a token gives its owner the very list last frozen under it, before its deadline, and nobody else anything |
| CameraLease.CameraStatus.InterpretAnswer | src/app/services/camera_status_service.py:187-224 | An answer is refused or accepted with its deadline, and only an accepted one is remembered |
| CameraLease.CameraStatus.CachedStatus | src/app/services/camera_status_service.py:81-106 | The cache shows something only before refresh time and deadline on the steady clock and inside the validity on the wall clock |
| CameraLease.CameraStatus.Refresh | src/app/services/camera_status_service.py:119-157 | A fetch saves what it made of the answer, or nothing when the binding changed meanwhile, and shows it only through the cache |
| CameraLease.AcceptedIff | src/app/services/camera_status_service.py:187-224 | An answer is accepted exactly when it is of the bound camera with trusted times, not older than the remembered one, and time is left on both clocks and of the deadline given to the same assessment; its deadline is exactly the least of the three |
| CameraLease.FetchedIsShownIff | src/app/services/camera_status_service.py:81-157 | After a fetch under an unchanged binding, for two seconds and unless the wall clock goes back, an accepted answer is shown while it lasts and otherwise that nothing is known; under any other circumstances nothing is shown |
| CameraLease.RunTightens | src/app/services/camera_status_service.py:202-213 | In every run of fetches and closings, for whatever bindings, as long as no other binding was accepted and the service was not closed in between: accepted assessments never go back and deadlines of one assessment never go forward; no deadline exceeds what the observation's own validity leaves on the steady clock or on the wall clock |
| CameraLease.ShownBeforeEveryDeadline | src/app/services/camera_status_service.py:81-224 | Evidence that is shown is the newest accepted for its binding, is shown before every deadline granted to it since another binding was last accepted or the service was closed, and before the observation's own validity ends on either clock, however the wall clock jumps and however often it is fetched again |
| CameraLease.ReturningForgets | src/app/services/camera_status_service.py:205-209 | After another binding was accepted in between, the same evidence can be granted a later deadline |

## Left out

- Floating point: heights, percentages, sums and positions are exact reals, so rounding, tolerance and the playback precision branch (which then never fires) are not modelled; `round(…, 6)` for display is an input.
- Digests and fresh identifiers: a digest stands for the value it is made of, identifiers of episodes and alerts are new by assumption, and drawn page tokens come up with an unused one in the end.
- SQL: tables are maps and sequences, a locked transaction is one step, `ORDER BY` is the order of the model's sequences. Evidence of alerts is read in the order it was written, which is the order of its times on a clock that does not go back.
- Concurrent changes between the two reads of one history request, and between a receiver commit and the worker's snapshot, except the second read of the filter, which `AlarmConfirmation.CriticalIsConfirmed` allows at any later time.
- Fields that the collection tracker always sets and clears together are grouped (plateau, quiet interval, reference); a stored record with only some of them is not modelled.
- Stored JSON of the wrong type, and encodings of sets and times as text, are rejected by the original in many places; the model's records are typed.
- The SQLite aggregate path of the history and the key of several devices in one minute table: the model is one device's table.
- MinuteStreams.AccumulateMinute: rows whose keys lie outside their own minute and repeat a second of another row are accumulated by the original in an order-dependent way; neither writer produces them, and the model does not promise anything about them.
- MinuteReader.HistoryGroups.AddSlot: the last sample keeps only the fields that published samples use.
- Korean time is the fixed offset of nine hours; the interval filters keep the order of the list, and the built-in sort is modelled as an insertion sort on the same key.
- ReplaySummaries.AddPlaybackSummaries: fetching pages of daily recordings, date groups, cursors, timeouts and request limits are inputs (a date has metadata, an error or neither).
- How a snapshot, a collection height, a profile or an effective device state is computed is an input of the machines that use it; scan geometry is not part of this model.
- FillFilter.FilterRow.ProjectInput: the recorded changes carry no message or observation identifiers and reason codes; its minute writer is `MinuteWriters.MinuteStore.Project`.
- FillOperations.Tables.ProcessSource: the start times of active health conditions are not written; an alert and its link are one record.
- AlertLifecycles.ReaderIsRight: alerts from before the link table existed, which stay unknown, are not in the model.
- StatusStore.StatusTables.Accept: only status reports; other message kinds, scans and configurations have the same shape and would add easy members. Retries after a lost insertion race are not modelled.
- The per-sensor height windows use the window of `ObservationWindow`; their positions, bases and spatial medians are not modelled.
- Connection state from receipt times, and the reset of the height windows by status reports.
- CameraLease.CameraStatus.Refresh: the HTTP request, its size limits and the total timeout are one answer or none; a busy lock shows nothing.
- FillForecast.ProjectTrend: the collection state and freshness tests before the trend, and the extra point for the current load, are choices of its caller.
- Routes, streams, authentication, exports, V1 services, administration, CSV, titles and transfer tools.
