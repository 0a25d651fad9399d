# Integration Lab: a verified model

The Integration Lab runs demos of TiDB with other systems. A demo's runner prints events; a relay checks them,
streams them to browsers and records them; a browser folds them into a live view, or folds a recording under a
scrubber. This project models that engine, three of the demos' data movements and the kernels they rely on, and
proves what holds over every input, every run and every interleaving.

`dafny verify dfyconfig.toml` checks everything.

| part | files |
|---|---|
| events, ids, numerals, sorting | `Contract`, `SseIds`, `Decimals`, `Sequences`, `Sorting`, `Options` |
| the fold and its meaning | `DemoStates`, `EdgeRates` |
| replay | `ReplayFolds`, `Players`, `Replays` |
| relay, recording, streaming | `RelayLines`, `Hubs`, `Traces`, `ReplayedViews`, `LiveStreams`, `LiveOrders` |
| Redis demo | `CacheModels`, `CacheFreshness`, `CacheDemos`, `CacheSamplers`, `CacheChecks` |
| Kafka demo | `Payments`, `PaymentPipelines`, `Dedupes` |
| AWS DMS demo | `CutoverMachines`, `Cutovers`, `CutoverDemos` |
| kernels | `Percentiles`, `SqlQuoting`, `Lanes` |

The main results:

- **Streaming.** In every run of publishing, connecting, delivering, losing connections, reloading pages and
  restarting the relay, a page shows the fold of an exact prefix of one run's history; a page with nothing under
  way shows all of it; and one reconnection always suffices to get there (`LiveStreams`). Short of a reload a view
  never goes back: it gains the next event of its run or begins a later run (`LiveOrders`). The relay's side is the
  class `Hubs.Relay`, whose invariant says what every open stream has been written.
- **Replay.** For a sorted trace, any series of scrub positions shows the fold from scratch at the last one, and
  sortedness is exactly what the cursor needs (`ReplayFolds`, `Replays`). A recording replayed to its end agrees
  with the live view in everything but the order of logs, and for logs, controls and the points of a metric it
  agrees exactly when they arrived in time order (`Traces`). Without any assumption on the clocks, each part of the
  view has its own exact condition for agreeing (`ReplayedViews`).
- **Cache.** A cached row is stale exactly when a newer change is still on its way or was skipped, or when a write
  overtook the fill that set the entry, in terms of the steps of the run alone; the last case survives draining
  (`CacheFreshness`). The class `CacheDemos.CacheDemo` takes those steps, and what its reads, writes and drains mean
  for freshness is in their contracts. Left alone, every row converges within a time to live counted from the end of
  the last fill begun before, and no shorter window will do (`CacheChecks`).
- **At-least-once.** Any covering delivery, repeated, reordered and cut into any batches, fills the table exactly,
  and comparing two counts decides it (`Payments`, `PaymentPipelines`).
- **Cutover.** Overlapping drain loops enter each state once and in order, and the cutover is verified exactly when
  some handler has been told zero latency, equal counts and equal checksums in one tick begun after the stop; inserts
  land after the stop exactly if they were under way at it; and from every reachable world every handler can still
  bring about the flip (`Cutovers`). The handlers that assign the demo's variables
  are proved to take those steps (`CutoverDemos`).

Where the code and its own words differ, the model follows the code:

- `integrations/demos/redis/manifest.json:44` and `:48` promise that the stale read rate reads exactly 0 in cdc mode
  once the lag window has passed. `CacheChecks.ZeroStaleCanFail` gives a run in which it does not, with every change
  drained; `CacheChecks.ZeroStaleExactlyWhen` says when the check fails.
- `integrations/demos/redis/manifest.json:49` promises that versions converge within one time to live of the press, or
  within one lag window in cdc mode. `CacheChecks.VersionsConvergeExactlyWhen` says exactly when the check fails, in
  both modes. It can fail in ttl mode because a fill that read the row before the burst's write sets it after the press
  (`CacheChecks.ConvergenceCanFail`), and with no such fill because an ordinary write tick writes a row that has just
  been cached (`CacheChecks.ConvergenceCanFailByAWriteTick`); and in cdc mode with nothing left to drain
  (`CacheChecks.ZeroStaleCanFail`). `CacheChecks.WindowIsExact` gives the window that does hold for a row left alone.
- `integrations/demos/redis/manifest.json:40` says that the Redis operations counted are GET and DEL; the code counts
  GET and SET.
- The store keeps a key at the very instant of its expiry and drops it after, which is the weaker assumption, so
  convergence is stated for times strictly after the last fill plus the time to live.

Times are exact reals (whole milliseconds in the Redis model), counts unbounded integers, and percentiles and rates
exact arithmetic. A page, a relay process, a broker and a store appear only through the steps they take.

## Model

| member | source | states |
|---|---|---|
| `LiveStreams.LiveViewIsAPrefix` | integrations/packages/ui/src/sources/live-state.ts:6-12 | in every reachable world each page shows the initial state or the fold of the first k > 0 events of one run's history, nothing of another run mixed in |
| `LiveStreams.CaughtUpViewIsComplete` | integrations/packages/relay/src/server.ts:33-42 | a connected page with nothing on the wire and nothing queued shows the fold of the running relay's whole history, under that run's id; while that history is empty it shows the initial state or the prefix of another run that it showed before |
| `LiveStreams.ReconnectingRecovers` | integrations/packages/relay/src/server.ts:33-42 | from every reachable world, dropping and reconnecting one page and delivering what it is sent leads to that complete view |
| `LiveStreams.ReplayContinues` | integrations/packages/relay/src/lines.ts:20-24 | what a reconnection is sent begins exactly after the last event id of the same run, or at the start, and ends at the end of the history |
| `LiveStreams.HandledShowsPrefix` | integrations/packages/ui/src/sources/live-state.ts:6-12 | handling the message that follows a shown prefix shows a prefix one event longer, or the first event of another run on a clean state |
| `LiveStreams.UnreadableMessages` | integrations/packages/ui/src/sources/live-state.ts:6-12 | data that is no event leaves the view as it is, and an event under a malformed id is reduced into it without a reset |
| `LiveStreams.StepKeepsWorld` | integrations/packages/ui/src/sources/live-state.ts:6-12 | every step keeps each page's last event id, queued messages and wire on one gapless path, and no history shrinks |
| `LiveStreams.ReusedRunIdMixesRuns` | integrations/packages/relay/src/lines.ts:20-24 | were a run id used twice, a reconnecting page would miss an event and show two runs as one |
| `LiveOrders.LiveViewMovesForward` | integrations/packages/ui/src/sources/live-state.ts:6-12 | in every reachable world a page shows the events of its run up to its position, and each step but a reload leaves that position, moves it by one event, or puts it after the first event of a run started later |
| `LiveOrders.OnlyAnEarlierRunIsShown` | integrations/packages/ui/src/sources/live-state.ts:6-12 | what a caught-up page shows while the running relay has published nothing is of a run started earlier |
| `LiveOrders.StepKeepsOrder` | integrations/packages/relay/src/server.ts:33-42 | whatever the network and the relays do, no message a page still has to handle is of an earlier run than what it handles before it |
| `LiveOrders.HistoriesAreWhatWasPublished` | integrations/packages/relay/src/hub.ts:13-16 | in every reachable world the history of each run is exactly what was published while its relay was the running one, in order |
| `LiveOrders.RestartedRelayIsShown` | integrations/packages/relay/src/server.ts:33-42 | from every reachable world a relay can start under a fresh id and publish an event, and every page can come to show just that event, whatever it showed before |
| `LiveOrders.ReloadStartsClean` | integrations/packages/ui/src/sources/live-state.ts:6-12 | a reloaded page shows the initial state and has seen nothing; no other page and no history changes |
| `Hubs.Hub.Publish` | integrations/packages/relay/src/hub.ts:13-16 | the event is appended and every listener gets it once, under the index it has in the history |
| `Hubs.Relay.StreamEvents` | integrations/packages/relay/src/server.ts:33-42 | the new stream holds the history from the resume index on and is subscribed; every stream stays in step with the history |
| `Hubs.Relay.OnPost` | integrations/packages/relay/src/server.ts:58-63 | a request is accepted exactly when its path is /control/ and an id of lowercase letters, digits and dashes that the manifest lists; then that control is sent to the runner and published, otherwise nothing changes; recorded controls are always those sent |
| `Hubs.Relay.OnStdoutLine` | integrations/packages/relay/src/run.ts:55-55 | an event whose subject the manifest lists is published unchanged; a line that is no event, a control and an event about something unlisted each become a warning at the relay's clock that says why; every open stream stays in step |
| `Hubs.Relay.OnStderrLine` | integrations/packages/relay/src/run.ts:56-56 | the line is published as a warning with that very text at the relay's clock, to every open stream |
| `Hubs.Relay.OnClose` | integrations/packages/relay/src/server.ts:40-41 | a closed stream gets nothing more; the others stay in step |
| `Hubs.Relay.Record` | integrations/packages/relay/src/run.ts:69-76 | what is recorded validates against its own manifest, without errors exactly when a phase was published |
| `SseIds.FormatRoundTrips` | integrations/packages/contract/src/sse.ts:3-11 | a formatted id parses back to both parts when the run id is lowercase letters and digits, and is malformed for any other run id |
| `SseIds.ParsesExactlyThePattern` | integrations/packages/contract/src/sse.ts:5-11 | a text parses to a run id and index exactly when the pattern matches it with those groups |
| `SseIds.ResumesAfterTheSameRun` | integrations/packages/relay/src/lines.ts:20-24 | whatever the header, the resume index is one past an index exactly when the pattern matches the header with this run id and that index, and zero exactly when it matches with none or there is no header |
| `ReplayFolds.ChainIsFromScratch` | integrations/packages/ui/src/state/replay-fold.ts:11-23 | for a sorted trace and any positions, forward or backward, the chained result is the fold from scratch at the last position, with the clock on it |
| `ReplayFolds.FoldToShows` | integrations/packages/ui/src/state/replay-fold.ts:11-23 | one incremental call turns a faithful cached fold into a faithful one |
| `ReplayFolds.FromScratchShowsTheEventsUpTo` | integrations/packages/ui/src/state/demo-state.ts:63-67 | the fold from scratch at a position is the fold of exactly the events up to it, with the clock on the later of the two |
| `ReplayFolds.CursorNeedsSortedTrace` | integrations/packages/ui/src/state/replay-fold.ts:6-9 | the part before the cursor is the part up to the position, for all positions, exactly when the trace is sorted |
| `ReplayFolds.ForwardAppliesEachOnce` | integrations/packages/ui/src/state/replay-fold.ts:17-22 | a forward series of calls reduces a contiguous stretch of the trace, each event once and in order |
| `ReplayFolds.RepeatedCallAppliesNothing` | integrations/packages/ui/src/state/replay-fold.ts:17-22 | a second call at the same position reduces nothing and returns the same fold |
| `Replays.Replay.Render` | integrations/packages/ui/src/sources/use-replay.ts:32-35 | whatever frames, seeks, toggles and speeds came before, the rendered view is the fold from scratch at the playhead |
| `Replays.Replay.OnFrame` | integrations/packages/ui/src/sources/use-replay.ts:22-27 | a playing playhead moves by the time since the last frame times the speed, or stops exactly at the end; a clock that went back counts as standing still, and a paused player stays |
| `Replays.Replay.SeekBar` | integrations/packages/ui/src/sources/use-replay.ts:41-41 | the playhead stands where the bar is moved, or at the nearest end, and nothing else changes; the next render shows that position |
| `Replays.Replay.ToggleButton` | integrations/packages/ui/src/sources/use-replay.ts:40-40 | at the end the button starts over and plays, anywhere else it only starts or stops |
| `Replays.Replay.constructor` | integrations/packages/ui/src/sources/use-replay.ts:16-16 | a replay begins paused at normal speed, at the initial position or the nearest end |
| `Players.PlayheadStaysInRange` | integrations/packages/ui/src/sources/player.ts:14-26 | over any moves the interface offers, the playhead stays within 0 and the duration |
| `Players.SeekStandsThere` | integrations/packages/ui/src/sources/player.ts:20-23 | a seek within the recording stands exactly there, one outside at the nearest end; the rest of the player is unchanged |
| `Players.AdvanceCovers` | integrations/packages/ui/src/sources/player.ts:14-18 | a playing player covers the time waited times its speed and stops exactly at the end; a paused one does not move |
| `Players.ToggleStartsOrStops` | integrations/packages/ui/src/sources/player.ts:25-26 | the toggle starts over at the end and elsewhere only starts or stops |
| `Players.PlayingIsSafeExactlyForwards` | integrations/packages/ui/src/sources/player.ts:14-18 | a playing playhead stays in range for every wait exactly when its speed is not negative |
| `Players.AdvanceAdds` | integrations/packages/ui/src/sources/player.ts:14-18 | two waits move the player as their sum does, also past the end |
| `DemoStates.FoldKeepsTheLastLogs` | integrations/packages/ui/src/state/demo-state.ts:56-57 | the folded logs are the last 200 log events |
| `DemoStates.FoldKeepsEveryControl` | integrations/packages/ui/src/state/demo-state.ts:58-59 | the folded controls are all control events, in order |
| `DemoStates.FoldKeepsEveryPoint` | integrations/packages/ui/src/state/demo-state.ts:42-43 | each metric's series is all its points in order, and there is none for a metric without events |
| `DemoStates.FoldKeepsTheLastSamples` | integrations/packages/ui/src/state/demo-state.ts:44-45 | each edge's flow is its last 30 samples |
| `DemoStates.FoldShowsTheLatestStatus` | integrations/packages/ui/src/state/demo-state.ts:46-51 | a node has the status of its latest node event |
| `DemoStates.FoldShowsNoStatus` | integrations/packages/ui/src/state/demo-state.ts:30-30 | a node without events is idle if the manifest lists it and absent otherwise |
| `DemoStates.FoldShowsTheLatestNote` | integrations/packages/ui/src/state/demo-state.ts:50-50 | a node has the note of its latest event that carried one |
| `DemoStates.FoldShowsTheLatestCheck` | integrations/packages/ui/src/state/demo-state.ts:54-55 | a check has the verdict and observation of its latest event |
| `DemoStates.FoldShowsNoCheck` | integrations/packages/ui/src/state/demo-state.ts:34-34 | a check without events is pending if the manifest lists it and absent otherwise |
| `DemoStates.FoldShowsTheLatestPhase` | integrations/packages/ui/src/state/demo-state.ts:52-53 | the phase is that of the latest phase event |
| `DemoStates.FoldTimeBounds` | integrations/packages/ui/src/state/demo-state.ts:40-40 | no event is later than the state's clock |
| `DemoStates.FoldTimeIsAttained` | integrations/packages/ui/src/state/demo-state.ts:40-40 | a clock other than 0 is the time of some event |
| `Sorting.StableSortIsTheStandards` | integrations/packages/relay/src/trace-builder.ts:27-27 | a sequence is ordered with ties as before, as the language standard requires of sort, exactly when it is the modelled result |
| `Traces.RecordingValidates` | integrations/packages/relay/src/validate.ts:9-26 | for any output lines and requests the recording has no warnings and no error but, exactly when no phase was published, the missing-phase one, and lasts until its last event |
| `Traces.AdjacentOrderIsOrder` | integrations/packages/relay/src/validate.ts:9-10 | comparing neighbours decides whether all events are in time order |
| `Traces.ValidExactlyWhen` | integrations/packages/relay/src/validate.ts:12-26 | any trace has no errors exactly when its manifest has the current id and lists everything its events are about, the events are in time order and one is a phase, and no warnings exactly when its manifest is the current one |
| `Traces.ReferenceErrorsNameTheUnknown` | integrations/packages/relay/src/validate.ts:15-17 | the reference errors name, under the index of the event and in order, exactly the events about something unlisted |
| `Traces.ReplayAgreesWithLive` | integrations/packages/relay/src/trace-builder.ts:26-27 | if neither clock went back, the recording at its end shows the live state in every field but the logs |
| `Traces.ScrubbedReplayAgreesWithLive` | integrations/packages/ui/src/state/replay-fold.ts:11-23 | the same for the incremental fold after any scrubbing that ends at the duration |
| `Traces.ReplayedLogs` | integrations/packages/relay/src/trace-builder.ts:27-27 | the replayed logs are the last 200 in time order; while none has scrolled off they are the live ones as a multiset, and the same sequence exactly when the logs arrived in time order |
| `Traces.ReplayedControls` | integrations/packages/relay/src/trace-builder.ts:27-27 | the replayed controls are the live ones exactly when they arrived in time order |
| `Traces.ReplayedSeries` | integrations/packages/relay/src/trace-builder.ts:27-27 | a metric's replayed series is the live one exactly when its points arrived in time order |
| `ReplayedViews.ReplayedStatus` | integrations/packages/relay/src/trace-builder.ts:27-27 | a node's replayed status is the live one exactly when there is no report or the last report to arrive and the last of the greatest time say the same |
| `ReplayedViews.ReplayedNote` | integrations/packages/relay/src/trace-builder.ts:27-27 | the same for a node's note, among the reports that carry one |
| `ReplayedViews.ReplayedCheck` | integrations/packages/relay/src/trace-builder.ts:27-27 | the same for a check's verdict and observation |
| `ReplayedViews.ReplayedPhase` | integrations/packages/relay/src/trace-builder.ts:27-27 | the same for the phase |
| `ReplayedViews.ReplayedFlow` | integrations/packages/relay/src/trace-builder.ts:27-27 | an edge's replayed samples are the live ones exactly when the last 30 arrived in time order and none before them is later than any of them |
| `ReplayedViews.ReplayedLogPanel` | integrations/packages/relay/src/trace-builder.ts:27-27 | the replayed log panel is the live one exactly when the same holds of the last 200 log entries, however many there were |
| `ReplayedViews.SortingPutsItLast` | integrations/packages/relay/src/trace-builder.ts:27-27 | after sorting, the last event of a kind is the one of the greatest time that arrived last |
| `Traces.RunnerClockMatters` | integrations/packages/relay/src/trace-builder.ts:27-27 | two reports with decreasing times end in different node states live and replayed |
| `RelayLines.HistoryHasNoReferenceErrors` | integrations/packages/relay/src/lines.ts:5-12 | whatever arrives, every published event is listed in the manifest in its own collection: metrics, edges, nodes, phases, checks and controls, and the nodes that logs are about |
| `RelayLines.LineIsPassedOnOrReported` | integrations/packages/relay/src/lines.ts:5-14 | what each kind of line becomes, in terms of the manifest's collections |
| `RelayLines.RouteNamesAControl` | integrations/packages/relay/src/server.ts:44-44 | a path gives a listed control id exactly when it is the route's prefix followed by that id |
| `Contract.ReferenceErrorsOfTheUnknown` | integrations/packages/contract/src/events.ts:59-76 | an event has one reference error, naming its subject, if its own collection of the manifest does not list it, and none otherwise |
| `RelayLines.ControlsAreInTimeOrder` | integrations/packages/relay/src/server.ts:58-63 | published controls stand in time order while the relay's clock does not go back |
| `RelayLines.SignalsAreTheRunners` | integrations/packages/relay/src/lines.ts:5-14 | every published event that is neither log nor control is one the runner sent, in its order |
| `EdgeRates.WindowedRate` | integrations/packages/ui/src/state/selectors.ts:8-16 | the windowed rate never exceeds the rate over all samples, and falls short exactly when the last second counts and holds a non-empty dropped sample |
| `EdgeRates.WindowIsEnough` | integrations/packages/ui/src/state/selectors.ts:8-16 | the two agree for time-ordered samples with at most 30 in the last second |
| `EdgeRates.EdgeRateIs` | integrations/packages/ui/src/state/selectors.ts:8-16 | the rate is 0 without samples or when the last is stale, a lone sample's count, the last count per second of a gap of at least half a second, and otherwise the sum of the kept counts of the last second |
| `Percentiles.PercentileIsExact` | integrations/packages/runner-kit/src/stats.ts:16-25 | the result is the one sample with at least p percent of the samples not above it and fewer than p percent below it, in whatever order they came |
| `Percentiles.PercentileOutsideItsRange` | integrations/packages/runner-kit/src/stats.ts:16-35 | a percentage of 0 or less gives the least sample, one of 100 or more the greatest, and no samples give nothing |
| `Percentiles.SummaryAscends` | integrations/packages/runner-kit/src/stats.ts:27-35 | p50, p95 and p99 are those percentiles and ascend to the maximum, which bounds every sample |
| `Percentiles.FormulasAgree` | integrations/packages/runner-kit-py/lab_runner/__init__.py:71-74 | the Python rank, by floor division of a negated product, picks the same sample |
| `Percentiles.SampleWindow.Drain` | integrations/packages/runner-kit/src/stats.ts:37-45 | all the drains together give every sample ever added, each once and in order |
| `CacheFreshness.StaleExactlyWhen` | integrations/demos/redis/runner/src/workload.ts:34-59 | in every run, whatever the modes, a cached row is behind exactly when a newer change for it is undrained or was skipped in ttl mode, or the last step that set it belongs to a fill that a write of the row overtook |
| `CacheFreshness.StaleInCdcMode` | integrations/demos/redis/runner/src/invalidator.ts:37-69 | in a run that stays in cdc mode a cached row is behind exactly when a newer change for it is undrained, or the entry was set by a fill whose database read, a write of the row and the cache set came in that order |
| `CacheFreshness.OvertakenFillStaysStale` | integrations/demos/redis/runner/src/workload.ts:48-53 | such a fill can leave a stale row with every change drained |
| `CacheFreshness.CacheConverges` | integrations/demos/redis/runner/src/redis-cache.ts:12-19 | in either mode, once a row is left alone and earlier fills have ended, a time to live later its cached version is the database's or there is none |
| `CacheModels.StepKeepsEntry` | integrations/demos/redis/runner/src/invalidator.ts:49-68 | after every step, each write an entry lacks since it was set is undrained or was skipped, and the entry expires within the time to live |
| `CacheModels.ChangesLeaveByDelete` | integrations/demos/redis/runner/src/invalidator.ts:49-64 | a change leaves the pipeline only by the delete of its key or by being skipped |
| `CacheModels.DeliveriesAreConserved` | integrations/demos/redis/runner/src/invalidator.ts:37-69 | as a multiset, the deliveries on their way gain exactly what is written or redelivered and lose exactly what is deleted for or skipped |
| `CacheDemos.CacheDemo.WriteRowById` | integrations/demos/redis/runner/src/tidb-repo.ts:37-42 | a write raises the row's version by one, puts exactly its change on its way and makes stale whatever is cached for the row and nothing else; a missing row changes nothing |
| `CacheDemos.CacheDemo.BeginReadTick` | integrations/demos/redis/runner/src/workload.ts:41-56 | a hit is never ahead of the database and is behind it exactly if a newer change is on its way or was skipped or the entry's fill was overtaken; a miss begins a fill for the row; each tick is one hit or one miss, and one Redis command |
| `CacheDemos.CacheDemo.ReadRowById` | integrations/demos/redis/runner/src/workload.ts:50-51 | the fill goes on exactly if the row exists, and what it holds has not been overtaken yet |
| `CacheDemos.CacheDemo.SetCachedPayload` | integrations/demos/redis/runner/src/workload.ts:52-53 | what the fill held is cached for a time to live, and stale from the start exactly if the row was written after the fill's read; no other row is touched |
| `CacheDemos.CacheDemo.EachMessage` | integrations/demos/redis/runner/src/invalidator.ts:39-44 | the message joins the end of the buffer, and nothing that is on its way is lost or doubled |
| `CacheDemos.CacheDemo.BeginDrain` | integrations/demos/redis/runner/src/invalidator.ts:50-50 | the drain takes the whole buffer in order and leaves it empty, and nothing that is on its way is lost or doubled |
| `CacheDemos.CacheDemo.DrainMessage` | integrations/demos/redis/runner/src/invalidator.ts:51-64 | in cdc mode the message stays on its way until its delete; in ttl mode exactly it leaves and is marked skipped |
| `CacheDemos.CacheDemo.DeleteCachedPayload` | integrations/demos/redis/runner/src/redis-cache.ts:21-23 | the delete takes exactly its change off its way and leaves the row uncached and not stale; other rows are cached and stale as before |
| `CacheDemos.CacheDemo.ReportCounters` | integrations/demos/redis/runner/main.ts:130-159 | a report gives exactly the hits, the misses and the Redis commands since the report before it |
| `CacheDemos.HeldIsBehindExactlyIfOvertaken` | integrations/demos/redis/runner/src/workload.ts:50-53 | what a fill holds is behind the database exactly if the row was written after the step in which the fill read it |
| `CacheSamplers.SampleStaleness` | integrations/demos/redis/runner/src/sampler.ts:18-38 | with any steps of the demo taken between its reads, the sampler counts exactly the rows whose cached version was behind what the stores answered |
| `CacheSamplers.SampleVersionsConverge` | integrations/demos/redis/runner/src/sampler.ts:45-67 | likewise it lists exactly the rows whose two versions differed, in order, and counts those that had both |
| `CacheChecks.SettledLookIsNoMismatch` | integrations/demos/redis/runner/src/sampler.ts:53-64 | a row that was left alone and is sampled more than a time to live after its last old fill ended is no mismatch, whatever happens between the two reads |
| `CacheChecks.SettledCheckNeverFails` | integrations/demos/redis/runner/src/checks.ts:49-69 | if every row the sampler looked at had so settled, the convergence check does not fail, in either mode and whatever its window |
| `CacheChecks.WindowIsExact` | integrations/demos/redis/runner/src/redis-cache.ts:12-19 | a row settled at some time can be sampled as a mismatch in some run exactly up to a time to live after that time |
| `CacheChecks.ConvergenceCanFail` | integrations/demos/redis/runner/src/checks.ts:49-69 | a run for each time up to a time to live after a fill that outlasts the press, with the burst committed at the press, in which the check fails in ttl mode; the exact condition is in VersionsConvergeExactlyWhen |
| `CacheChecks.ConvergenceCanFailByAWriteTick` | integrations/demos/redis/runner/main.ts:214-220 | a run for each time past the window, without an overtaken fill, in which a write tick after the row was cached makes the check fail in ttl mode |
| `CacheChecks.SampleIsStaleExactlyWhen` | integrations/demos/redis/runner/src/sampler.ts:26-35 | a sample is stale exactly when its row was cached and either behind already, by an overtaken fill or a newer change, or written between the two reads |
| `CacheChecks.ZeroStaleExactlyWhen` | integrations/demos/redis/runner/src/checks.ts:17-38 | the zero-stale check fails exactly when cdc mode is on, the burst and the lag are known, the lag window is past, and some row looked at was stale in that sense; it passes exactly when some row was looked at and none was, and is pending otherwise |
| `CacheChecks.VersionsConvergeExactlyWhen` | integrations/demos/redis/runner/src/checks.ts:49-69 | the convergence check fails exactly when a burst was pressed, a time to live since it (in ttl mode) or the known lag (in cdc mode) is past, and some row looked at was stale to the sampler, by an overtaken fill, a newer change or a write between the reads; it passes exactly when the window is past, some row was cached and none was stale, and is pending otherwise |
| `CacheChecks.MismatchIsStale` | integrations/demos/redis/runner/src/sampler.ts:53-64 | two sampled versions differ exactly when the cached one is behind |
| `CacheChecks.ZeroStaleCanFail` | integrations/demos/redis/runner/src/checks.ts:17-38 | for every lag and every later time there is a run from the program's start in which the burst's change was deleted after that lag, nothing is left to drain, and at that time both checks fail |
| `CacheChecks.FirstVerdictStays` | integrations/demos/redis/runner/src/checks.ts:88-97 | over any outcomes a check emits its first verdict, once, and keeps it |
| `Payments.CoveringDeliveriesFillTheTable` | integrations/demos/kafka/runner/src/upsertSql.ts:20-34 | any batches of deliveries that cover each produced payment leave exactly the produced payments in an empty table, one row each |
| `Payments.PaymentIdsAreDistinct` | integrations/demos/kafka/runner/src/paymentEvent.ts:16-31 | padded payment ids are equal exactly for equal sequence numbers, of any size |
| `Payments.PaymentIdIs` | integrations/demos/kafka/runner/src/paymentEvent.ts:16-28 | an id is its prefix and the sequence number, filled up with zeros to six digits and never cut |
| `Payments.AccountsTakeTurns` | integrations/demos/kafka/runner/src/paymentEvent.ts:23-23 | two payments have the same account exactly when their sequence numbers differ by a multiple of 500 |
| `Payments.FirstPayment` | integrations/demos/kafka/runner/src/paymentEvent.ts:25-31 | the first payment in full |
| `Payments.RowCountDecides` | integrations/demos/kafka/runner/main.ts:188-210 | the table never has more rows than payments were produced, and as many exactly when it holds each of them |
| `Payments.UpsertAddsDelivered` | integrations/demos/kafka/runner/src/upsertSql.ts:20-34 | upserting deliveries adds exactly the delivered payments and nothing else |
| `Payments.CutsDoNotMatter` | integrations/demos/kafka/runner/main.ts:135-154 | the table does not depend on how deliveries are cut into batches |
| `PaymentPipelines.PaymentPipeline.SendNext` | integrations/demos/kafka/runner/main.ts:123-129 | the next payment in sequence is produced; sequence and counts stay in step |
| `PaymentPipelines.PaymentPipeline.EndProducerTick` | integrations/demos/kafka/runner/main.ts:130-132 | at the end of a tick the produced count is the number of payments produced |
| `PaymentPipelines.PaymentPipeline.OnIngesterMessage` | integrations/demos/kafka/runner/main.ts:49-53 | a delivered payment is buffered, an empty value skipped; nothing delivered is ever in none of buffer, batch and table |
| `PaymentPipelines.PaymentPipeline.BeginIngesterTick` | integrations/demos/kafka/runner/main.ts:135-146 | the tick takes the whole buffer as its batch |
| `PaymentPipelines.PaymentPipeline.EndIngesterTick` | integrations/demos/kafka/runner/main.ts:146-154 | the batch is upserted, no row is lost, and the table still holds only produced payments, all of them delivered |
| `PaymentPipelines.PaymentPipeline.RunRowCountCheck` | integrations/demos/kafka/runner/main.ts:188-199 | on a count that an upsert may have overtaken, the check passes exactly when as many payments are missing from it as the running tick has sent; at a tick boundary a pass means the table holds every produced payment |
| `Dedupes.DedupeTracker.Observe` | integrations/demos/kafka/runner/src/dedupe.ts:10-18 | the reported count is the number of earlier observations of the key, and it is a duplicate exactly if there was one |
| `Dedupes.RiskConsumer.OnMessage` | integrations/demos/kafka/runner/main.ts:55-66 | duplicates plus distinct keys stay equal to the events observed |
| `Dedupes.KeyIsInjective` | integrations/demos/kafka/runner/main.ts:60-60 | two events have the same joined key exactly when they have the same payment id and commit timestamp |
| `Dedupes.KeysCountPairs` | integrations/demos/kafka/runner/main.ts:60-63 | there are as many distinct keys as distinct pairs of payment id and commit timestamp |
| `Dedupes.RiskConsumer.Accounts` | integrations/demos/kafka/runner/main.ts:55-66 | duplicates plus distinct pairs account for every event |
| `Dedupes.RiskConsumer.RunCdcFlowTick` | integrations/demos/kafka/runner/main.ts:171-176 | the flow ticks report every observed event exactly once |
| `Dedupes.RiskConsumer.RunDistinctCheck` | integrations/demos/kafka/runner/main.ts:200-204 | the distinct-key check compares distinct pairs with rows, and once every row's change has come through it passes exactly if no payment was changed twice |
| `Dedupes.PairsCountPayments` | integrations/demos/kafka/runner/main.ts:60-63 | there are never fewer distinct pairs than payments, and as many exactly when no payment has two commit timestamps |
| `Cutovers.CutoverIsSafe` | integrations/demos/aws-dms/runner/main.ts:99-137 | in every interleaving each state is entered at most once and in order, being flipped has a clean tick behind it, and after a press no load tick begins inserts |
| `Cutovers.VerifiedExactlyByACleanTick` | integrations/demos/aws-dms/runner/main.ts:110-125 | in every interleaving the cutover is verified or flipped exactly when some handler's own steps include a tick begun after a press that was told zero latency, two equal counts and two equal checksums |
| `Cutovers.StepKeepsEvidence` | integrations/demos/aws-dms/runner/main.ts:110-125 | every step keeps each handler that waits for a latency or a reading in agreement with what it has been told in its tick so far |
| `Cutovers.LeavingMeansAborted` | integrations/demos/aws-dms/runner/main.ts:107-129 | in every reachable world a handler out of its loop is aborted, an aborted one is past draining, and a finished one is past the flip |
| `Cutovers.AnyHandlerCanFlip` | integrations/demos/aws-dms/runner/main.ts:99-137 | from every reachable world, each handler there is can bring about the flip by its own steps alone |
| `Cutovers.FlipIsAlwaysReachable` | integrations/demos/aws-dms/runner/main.ts:99-137 | the cutover is never stuck: from every reachable world some continuation flips it |
| `Cutovers.InsertsLandExactlyIfUnderWay` | integrations/demos/aws-dms/runner/src/load-generator.ts:35-44 | once the writer is stopped, some continuation lands inserts exactly if inserts are under way |
| `Cutovers.LateInsertsWereUnderWay` | integrations/demos/aws-dms/runner/src/load-generator.ts:35-44 | inserts that land after a press were under way at it, and they are the only ones that do |
| `Cutovers.InsertsCanLandAfterTheFlip` | integrations/demos/aws-dms/runner/src/load-generator.ts:35-44 | a run is given in which they land after the flip |
| `CutoverDemos.CutoverDemo.StartCutover` | integrations/demos/aws-dms/runner/main.ts:99-107 | a press stops the writer, leaves no state but running behind, starts one more loop, and from then on inserts can land exactly if some are under way |
| `CutoverDemos.CutoverDemo.AtTopOfLoop` | integrations/demos/aws-dms/runner/main.ts:110-115 | a handler asks for the latency exactly if it is not aborted and the cutover is draining, leaves its loop exactly if it is aborted, and otherwise is aborted |
| `CutoverDemos.CutoverDemo.OnLatency` | integrations/demos/aws-dms/runner/main.ts:115-119 | zero starts the readings; any other latency, or none, leaves the handler unaborted at its loop |
| `CutoverDemos.CutoverDemo.OnReading` | integrations/demos/aws-dms/runner/main.ts:118-125 | after any reading the cutover is past draining exactly if there has been a clean tick; if this reading verified it, this handler's loop is aborted |
| `CutoverDemos.CutoverDemo.AfterItsLoop` | integrations/demos/aws-dms/runner/main.ts:129-130 | a handler that left its loop goes on to confirm if the cutover is verified, and finishes only once it is flipped |
| `CutoverDemos.CutoverDemo.OnConfirmed` | integrations/demos/aws-dms/runner/main.ts:129-131 | a confirmed handler flips only from verified, and being flipped has a clean tick behind it |
| `CutoverDemos.CutoverDemo.BeginLoadTick` | integrations/demos/aws-dms/runner/src/load-generator.ts:35-43 | a load tick begins its inserts exactly if no press has come before it |
| `CutoverMachines.CutoverStateMachine.Begin` | integrations/demos/aws-dms/runner/src/cutover-state.ts:32-36 | draining is entered only from running; otherwise the state stays and the refusal says why |
| `CutoverMachines.CutoverStateMachine.Verify` | integrations/demos/aws-dms/runner/src/cutover-state.ts:38-42 | verified is entered only from draining |
| `CutoverMachines.CutoverStateMachine.Flip` | integrations/demos/aws-dms/runner/src/cutover-state.ts:44-48 | flipped is entered only from verified |
| `SqlQuoting.QuotingRoundTrips` | integrations/packages/runner-kit/src/tidb.ts:27-27 | a quoted name reads back as itself and ends at its closing quote exactly when no further quote follows; the same for PostgreSQL's double quotes |
| `SqlQuoting.IdentifiersRoundTrip` | integrations/demos/aws-dms/runner/src/checksum.ts:22-22 | the same for the backticks and the double quotes the demos use |
| `SqlQuoting.LiteralRoundTrips` | integrations/demos/okta/runner/src/sqlIdentifiers.ts:18-21 | a literal is refused exactly for a NUL; otherwise its two replacements read back as the value and end at the closing quote |
| `SqlQuoting.AccountNameIsRead` | integrations/demos/okta/runner/src/sqlIdentifiers.ts:4-14 | a user name is refused exactly for its length or a character, and an account name is read as the user, an at sign and the any-host pattern |
| `Lanes.EdgesKeepTheirLanes` | integrations/packages/ui/src/diagram/geometry.ts:35-67 | each edge of a pair is drawn, forwards or backwards as it points, through the points of the curve bent by its own lane along the pair's normal, which is a unit one unless the nodes coincide |
| `Lanes.LanesAreApart` | integrations/packages/ui/src/diagram/geometry.ts:35-49 | curves bent by two lanes along a unit normal have control points 60 apart for every lane between them and middles 45 apart, so different lanes are drawn at different places |
| `Lanes.EdgesAreDrawnApart` | integrations/packages/ui/src/diagram/geometry.ts:35-67 | for any edge list with unique ids, two edges of a pair between different places are drawn with their middles 45 apart for every lane between them, so never at the same place |
| `Lanes.LabelIsOnTheCurve` | integrations/packages/ui/src/diagram/geometry.ts:43-46 | the label's place is the point half way along the drawn curve |
| `Lanes.LanesAreSymmetric` | integrations/packages/ui/src/diagram/geometry.ts:59-66 | opposite lanes lie symmetric about the unbent curve, control points and middles, and a lone edge is drawn on that curve |
| `Lanes.BentPoint` | integrations/packages/ui/src/diagram/geometry.ts:35-49 | every point of a bent curve is moved along the normal by 3t(1-t) times the bend |
| `Lanes.ReversedEdgeSameLane` | integrations/packages/ui/src/diagram/geometry.ts:35-49 | the opposite bend draws the edge the other way round on the same curve backwards |
| `Lanes.GroupIsInOrder` | integrations/packages/ui/src/diagram/geometry.ts:55-58 | the edges of a pair take their lanes in the order of the list |
| `Lanes.StringLeqIsLexicographic` | integrations/packages/ui/src/diagram/geometry.ts:52-52 | the direction of a pair is by the first differing character of its node ids, or by length |
| `Lanes.NormalIsAQuarterTurn` | integrations/packages/ui/src/diagram/geometry.ts:36-37 | the normal stands at a right angle to the edge, always to the same side of it |
| `Lanes.PathTurnsHalfWay` | integrations/packages/ui/src/diagram/geometry.ts:30-33 | a plain curve has both control points half way across, level with its ends |
| `Lanes.PairKeyIgnoresDirection` | integrations/packages/ui/src/diagram/geometry.ts:52-52 | two edges share a pair key exactly when they join the same two nodes, in either direction |

## Left out

- JSON text, zod validation and HTTP: a line is an accepted event or a reason for rejection, and a data line parses back to the event it was written from.
- The record keys of the folded state are maps: ids that name a property every object has, of which `constructor` is the only kebab-case one, are not treated specially.
- LiveStreams.Next: assumes a restarted relay's run id was never used before; the program takes it from the clock, so a clock set back could repeat one, and `ReusedRunIdMixesRuns` shows what would follow.
- A page's permanent closing of its event source, and two views on one page, are not modelled; a reload is.
- Cutovers.Next: every stretch between two awaits is one step; the phase, node and metric events of the cutover and the run-validation control are not modelled.
- CacheModels.Next: messages for rows the demo does not have, messages that do not parse, and changes lost because the consumer group joins after they were made are not modelled.
- CutoverMachines.AttemptTransition: the wording of a refusal is in the model, and nothing is stated about it.
- CacheSamplers.SampleStaleness: the rounded percentage is not modelled, nor the texts of the checks' observations.
- Traces.BuildTrace: the recording date and environment are not modelled.
- Percentiles.NearestRank: exact arithmetic; in floating point `p / 100 * n` can round up past a whole number, where Python's `p * n` does not.
- Payments.Upsert: the effect of the statement on the table; its text, and rows left in the table by an earlier run, are not modelled.
- Dedupes.RiskConsumer.RunDistinctCheck: whether a redelivered upsert makes the database emit another change is not part of this model; the check's contract says what follows if it does. The latency samples beside the counts are not modelled.
- SqlQuoting.LexLiteral: a server whose SQL mode turns backslash escapes off is not modelled.
- Lanes.EdgeCurve: the distance of the two nodes is given by the square it is the root of, so the computation of the root is not modelled; neither is the rest of the drawing.
- Process spawning, files, the clients of Kafka, MySQL, PostgreSQL, Redis and the clouds: foreign calls, present only as steps.
- The other demos, the benchmark scripts and the catalog pages: they would add only easy members.
