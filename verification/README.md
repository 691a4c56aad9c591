# A verified model of the capture runtime

This project models the parts of the runtime that decide what ends up in a recorded episode, and proves what they
promise. Its centre is the clock-gated capture engine of the data recorder: a single-threaded state machine that waits
for lockstep answers by exact frame id, checks other sources by time stamp, thins the clock on an anchored grid and hands
finished rows to a background worker, under any timing. Around it stand the file inbox, the parameter server, the
logger's frame ring and change detection, and the boot-time layout check.

`dafny verify dfyconfig.toml` verifies every module below.

| module | what it is |
|---|---|
| `Grid` | decimation on an anchored grid: one decision, whole streams |
| `CaptureEngine` | one episode as a value: refresh, queue, consume; the invariant `Sound` |
| `Newest` | what an episode holds for each source, and fills its rows with, is the newest it was offered |
| `Passes` | when a pass goes on, when and why it ends the episode, and what the fence does |
| `Schedule` | rows as a one-pass function of the clock stream |
| `Pairing` | the answer cache against the queues that feed it, over every interleaving |
| `Finalize` | what a finalize job makes of the rows, and the measured rate |
| `RecorderModel`, `RecorderRuns`, `RecorderTheorems` | the recorder's handlers as steps, the invariant of every run, what it means |
| `RecorderHistory` | every episode as the replay of what was polled since its START, and what ended it |
| `RecorderFeed` | those polls as readings of the queues, over every interleaving with publishers |
| `RecorderService` | the recorder as a class updated in place, proved to take exactly those steps |
| `Inbox` | publish-by-rename and drain, over every interleaving, with crashes and garbage |
| `FrameRing`, `ChangeLog` | the byte-capped frame ring; logging on changed frame ids |
| `ParamServer`, `ParamHistory` | live table, disk table and published cell; every history of ticks, raises and restarts |
| `Layouts`, `TypeCheck` | the layout line parser and printer; the boot-time check |
| `Names`, `Basics` | decimal file names and their sorting; shared vocabulary |

How it is built. Where the source updates fields in place there is a class with those fields (`RecorderService.DataRecorder`,
`ParamServer.Topic`, `FrameRing.FrameRing`, `ChangeLog.Logger`, `Inbox.Directory`) whose methods are proved equal to a
function on values; the theorems are about those functions, for all inputs, runs and interleavings. Row lists are heap
objects of their own, so that handing a list to a job and starting a new one is visible: a handler may modify only the
service and its live list, never a list a job holds. Wall clock, monotonic clock, minted identities, subscriber queues, file
contents and the worker's progress are inputs. Stamps are integer nanoseconds, rates are real numbers. Proofs use `hide` to
keep definitions they do not need out of the way.

Where the code and its own comments disagree, the model follows the code.

- The row cap is described as an auto-stop that never discards (data_recorder.py:48). The tick tests for a silent clock first
  (data_recorder.py:332-336), so an episode at the cap can be lost: `CapCanDiscard` gives the run, `EndingTold` the exact condition.
- A missing answer is described as "never an abort" (data_recorder.py:66-69). It is one (data_recorder.py:371-373) exactly
  when more than eight frames are left from the first unanswered one on, and the frames before that one pass:
  `NeverMatchedIff`, for any sources; `FencedFramesAbort` gives an input and `FencedFramesLoseEpisode` the run.
- Frames queued while idle are meant to be ignored (data_recorder.py:309, 387-388), but the wait for answers comes first
  (data_recorder.py:383-385): the frames of `FencedFramesAbort` that lack an answer are all from before START.
  `FenceIgnoredIff` and, before the pass, `FenceIgnoredBefore` give the exact condition under which dropping such frames
  leaves a pass what it is.
- Dividing by the time span (data_recorder.py:122) fails an episode whose rows all share one stamp, which native rate allows:
  `NativeTwinStampsFail` gives such an episode, `OutcomeIff` the exact condition, `DecimatedStampsRise` that it cannot happen
  under decimation.
- A rejected set is meant to be parked rather than dropped (param_server.py:84-87). One that is no object, whose key cannot
  be looked up, or whose number is too large for a double raises instead, when the files of its whole batch are already
  gone (inbox.py:60, param_server.py:75), and the process ends for all topics. `EndForgets` says what a restart leaves,
  `ForgottenSet` gives an accepted set that leaves no trace, `TablesAreFates` says which accepted sets are on disk, only in
  memory, or dropped, and `EachRequestOnce` that every request is one of these, quarantined, or lost with one that raised.

Beyond what the code promises: frame names sort in order up to nine digits only (ipc_logger.py:49), as `TenDigitsMisorder`
shows.

## Model

| member | source | states |
|---|---|---|
| Grid.Gate | koyu_runtime/services/data_recorder.py:81-96 | a kept frame is due and leaves the next due time strictly ahead by at most one period; it moves by one period unless a whole slot passed |
| Grid.RateCeiling | koyu_runtime/services/data_recorder.py:81-96 | whatever the stamps do, kept frames i < j are more than (j-i-1) periods apart |
| Grid.CursorAhead | koyu_runtime/services/data_recorder.py:81-96 | the due time is ahead of every kept frame by a period for each one kept since |
| Grid.SteadyStretch | koyu_runtime/services/data_recorder.py:81-96 | whatever came before, once the clock is steady the due time only moves by whole periods, and each later kept frame lies in its own slot, less than one clock gap late |
| Grid.StretchCount | koyu_runtime/services/data_recorder.py:81-96 | how many frames a steady stretch keeps follows from its last stamp: one per slot passed |
| Grid.OneFramePerSlot | koyu_runtime/services/data_recorder.py:81-96 | on a steady clock the due time never re-anchors, and each later kept frame lies in its own slot, less than one clock gap late |
| Grid.KeptCount | koyu_runtime/services/data_recorder.py:81-96 | on a steady clock the number of kept frames follows from the last stamp: one per slot passed |
| Grid.NativeKeepsAll | koyu_runtime/services/data_recorder.py:87-90 | a period of zero keeps every frame of every stream |
| Grid.RecordHz | koyu_runtime/services/data_recorder.py:338-348 | the rate is the requested one exactly if that is positive and below the clock's; otherwise native |
| Grid.PeriodNs | koyu_runtime/services/data_recorder.py:308 | the period is none at native rate, and otherwise the longest whole one of which the requested number fits into a second |
| Grid.PeriodAtLeastClock | koyu_runtime/services/data_recorder.py:307-308 | a decimating period is at least the clock's nominal period |
| CaptureEngine.NearMeans | koyu_runtime/services/data_recorder.py:72-76 | a sample is in tolerance exactly if it is within one declared period plus the jitter allowance |
| CaptureEngine.WindowIs | koyu_runtime/services/data_recorder.py:396-400 | the window test holds exactly if every window source holds a sample within one of its periods and 5 ms of the stamp |
| CaptureEngine.Trim | koyu_runtime/services/data_recorder.py:356-357 | eviction keeps at most the cache size, changes no kept answer, and drops only ids below every kept one |
| CaptureEngine.TrimSize | koyu_runtime/services/data_recorder.py:44-46 | no more is evicted than must be: 32 answers are kept |
| CaptureEngine.HoldSound | koyu_runtime/services/data_recorder.py:353-355 | every held answer sits under its own frame id and is a drained one or was held before |
| CaptureEngine.HoldIs | koyu_runtime/services/data_recorder.py:353-355 | under each id the latest answer drained for it is held, or else the one held before |
| CaptureEngine.RefreshSound | koyu_runtime/services/data_recorder.py:351-359 | refreshing a source keeps the episode sound: its cache keys, ledger and rows |
| Newest.RefreshNewest | koyu_runtime/services/data_recorder.py:351-359 | after a refresh each window source holds the newest sample it was offered, or the one before if there was none; and an answer that is held is the newest to its id |
| Newest.PumpFills | koyu_runtime/services/data_recorder.py:404-408 | every row a pass adds holds, for each feature, what the episode holds for the source claiming it |
| CaptureEngine.MoveHead | koyu_runtime/services/data_recorder.py:376-409 | consuming the head conserves the frames in order, and skipped then recorded frames remain exactly the grid's choice |
| CaptureEngine.ConsumeRows | koyu_runtime/services/data_recorder.py:380-409 | rows stay aligned with the recorded frames, in stamp order, at or after the fence |
| CaptureEngine.PumpShape | koyu_runtime/services/data_recorder.py:360-374 | a pass that goes on leaves at most eight deferred frames whose head lacks an answer, and at most one row per queued frame |
| CaptureEngine.CaptureSound | koyu_runtime/services/data_recorder.py:350-374 | one pass keeps a sound episode sound, drains every frame once and only appends rows |
| CaptureEngine.RowValues | koyu_runtime/services/data_recorder.py:380-408 | each row has exactly the configured features; each value is the clock frame, or a sample delivered since START to the last source claiming the feature, with the frame's id if paired and in tolerance if not |
| CaptureEngine.NoHoles | koyu_runtime/services/data_recorder.py:386-409 | the rows are a contiguous end of the grid's choice of the frames not before the fence; with only paired sources they are all of it |
| Passes.PumpAppend | koyu_runtime/services/data_recorder.py:360-374 | passes compose: what comes behind an answered queue meets the episode that queue leaves; an answered queue never aborts for a missing answer |
| Passes.PassSplits | koyu_runtime/services/data_recorder.py:360-374 | any pass is its answerable head, then an abort exactly if more than eight frames are left waiting |
| Passes.NeverMatchedIff | koyu_runtime/services/data_recorder.py:370-374 | for any sources, the "never matched" abort and the id it names, exactly |
| Passes.AnswerableMeans | koyu_runtime/services/data_recorder.py:383-385 | the answerable head ends at the first frame for which some paired source holds no answer |
| Passes.HeadGoesOn | koyu_runtime/services/data_recorder.py:386-403 | answered frames pass exactly if their stamps do not step back past the fence and, once there is a row, no source is stale at a frame the grid keeps |
| Passes.HeadEnds | koyu_runtime/services/data_recorder.py:387-403 | answered frames that do not pass end the episode for the first that steps back, or finds a source stale |
| Passes.PassGoesOnIff | koyu_runtime/services/data_recorder.py:350-409 | a pass goes on exactly if its answerable head passes and at most eight frames are left waiting, and then consumes exactly that head; otherwise which of its reasons ends it, exactly |
| Passes.AnsweredFencedVanish | koyu_runtime/services/data_recorder.py:387-388 | among answered frames, those before the fence make no difference |
| Passes.FenceIgnoredIff | koyu_runtime/services/data_recorder.py:383-388 | exactly when dropping all frames before the fence leaves a pass what it is |
| Passes.FenceIgnoredBefore | koyu_runtime/services/data_recorder.py:383-388 | for a sound episode that condition, said of the queue before the pass |
| Passes.FencedFramesAbort | koyu_runtime/services/data_recorder.py:383-388 | a queue of unanswered frames from before START waits through one pass and ends the recording at the next, whose own frame is answered; without them it goes on |
| Schedule.RowsAreOnePass | koyu_runtime/services/data_recorder.py:350-409 | with paired sources the rows equal a one-pass function of the consumed frames |
| Schedule.TickScheduleIndependence | koyu_runtime/services/data_recorder.py:350-409 | two recordings of one clock stream, split over passes in any way, have row lists one of which is a prefix of the other |
| Finalize.OutcomeIff | koyu_runtime/services/data_recorder.py:117-146 | a job without rows is discarded, one that cannot be written or puts two or more rows on one stamp fails, any other is captured; these ring 2, 3 and 1 |
| Finalize.DecimatedSpaced | koyu_runtime/services/data_recorder.py:386-395 | rows i < j of a decimated episode are more than (j-i-1) periods apart |
| Finalize.DecimatedStampsRise | koyu_runtime/services/data_recorder.py:386-395 | decimated row stamps strictly rise, so the rate division never fails |
| Finalize.MeasuredRateCeiling | koyu_runtime/services/data_recorder.py:122 | the measured rate of n >= 3 decimated rows is below (n-1)/(n-2) times the grid's |
| Finalize.SteadyEpisode | koyu_runtime/services/data_recorder.py:84-86 | from where the clock is steady on, each row is in its own slot, less than one gap late, and their number follows from the last stamp |
| Finalize.NativeTwinStampsFail | koyu_runtime/services/data_recorder.py:122 | two frames with one stamp at native rate become two rows of an episode that fails |
| Pairing.AboveIsSmall | koyu_runtime/services/data_recorder.py:44-46 | fewer than sixteen answers are ever held above an open frame's id: half the cache would do |
| Pairing.EvictionSparesOpen | koyu_runtime/services/data_recorder.py:351-357 | evicting smallest ids keeps the answer to every frame still deferred or queued |
| Pairing.RunInv | koyu_runtime/services/data_recorder.py:262-292 | over every interleaving of publishers and drains, every delivered answer to an open frame is still held |
| Pairing.NoNeededAnswerEvicted | koyu_runtime/services/data_recorder.py:44-46 | in every run, an evicted answer belongs to no deferred or queued frame |
| Pairing.NeverMatchedIsTrue | koyu_runtime/services/data_recorder.py:370-374 | the abort happens, and names the frame, exactly if some paired source delivered no answer to it since START, the frames before it pass and more than eight are left from it on |
| Pairing.PassIsCapture | koyu_runtime/services/data_recorder.py:350-374 | a pass interleaved with publishers in any way is one capture with some readings, whether it goes on or aborts |
| RecorderModel.FirstNaming | koyu_runtime/services/data_recorder.py:428-441 | the first request naming the capture, or none |
| RecorderModel.DrainExact | koyu_runtime/services/data_recorder.py:428-441 | the first request with the capture's identity is chosen and all others are parked in order; with none, or without a capture, all are |
| RecorderRuns.UnchosenParts | koyu_runtime/services/data_recorder.py:428-441 | a drain splits the inbox into the chosen request and the quarantined rest, losing none |
| RecorderRuns.CollectedParts | koyu_runtime/services/data_recorder.py:457-473 | collecting splits the pending jobs into reported and still pending |
| RecorderRuns.CollectedAt | koyu_runtime/services/data_recorder.py:457-473 | a pending job is reported, with the outcome of its own bundle, exactly if it is finished; otherwise it stays pending; both keep their order |
| RecorderRuns.NextKeeps | koyu_runtime/services/data_recorder.py:298-336 | every handler keeps mode, episode, accounting, verdict and telemetry invariants |
| RecorderRuns.RunSound | koyu_runtime/services/data_recorder.py:222-226 | they hold after every handler of every run |
| RecorderTheorems.EpisodesCounted | koyu_runtime/services/data_recorder.py:298-336 | accepted starts = discards + aborts + submitted + one if recording; submitted = collected + pending; one ring per abort and collected job |
| RecorderTheorems.OneFateEach | koyu_runtime/services/data_recorder.py:298-336 | every started identity is discarded, lost, submitted or current exactly once in all, any other never |
| RecorderTheorems.VerdictsPartitioned | koyu_runtime/services/data_recorder.py:428-441 | every verdict is in the inbox, quarantined, or merged into the one job it names; no two jobs share an identity |
| RecorderTheorems.EverySubmissionExact | koyu_runtime/services/data_recorder.py:419-426 | every submitted episode's rows are exact, without holes, in order, bounded in number, and spaced if decimated |
| RecorderTheorems.EveryOutcomeExplained | koyu_runtime/services/data_recorder.py:457-473 | a collected job reports captured, discarded or failed by its rows and by whether they could be written |
| RecorderTheorems.EveryRingExplained | koyu_runtime/services/data_recorder.py:411-417 | every report rings once, in order: 3 for a lost episode, and 1, 2 or 3 for a collected job by its rows and writing |
| RecorderTheorems.SteadySubmission | koyu_runtime/services/data_recorder.py:307-308 | once the clock is steady a submitted episode's rows are in slots of the period of its requested rate, each in its own |
| RecorderTheorems.EverySidecarTrue | koyu_runtime/services/data_recorder.py:117-146 | a captured sidecar has the context, length, identity, nominal rate, and exactly the reward and events of the verdict naming it, of a submitted exact episode; its rate counts the steps from first to last row and is under the ceiling of the requested rate |
| RecorderTheorems.RunsAgree | koyu_runtime/services/data_recorder.py:350-409 | tick-schedule independence between any two runs of the whole recorder |
| RecorderTheorems.TelemetryTrue | koyu_runtime/services/data_recorder.py:443-455 | after every handler the last cell is the state, ids rise, successive cells differ, and idle means nothing is left |
| RecorderTheorems.TelemetryTailable | koyu_runtime/services/data_recorder.py:443-446 | a poller skipping on equal frame ids logs exactly the cells that were current when it polled |
| RecorderTheorems.RecordingBounded | koyu_runtime/services/data_recorder.py:44-48 | between handlers rows are below the cap, the queue is bounded with an unanswered head, and caches are bounded |
| RecorderTheorems.CapCanDiscard | koyu_runtime/services/data_recorder.py:48 | an admissible run in which the 1800th row arrives and all rows are lost |
| RecorderTheorems.FencedFramesLoseEpisode | koyu_runtime/services/data_recorder.py:383-388 | an admissible run of START and two ticks whose episode is lost for frames from before START |
| RecorderHistory.ReplaySound | koyu_runtime/services/data_recorder.py:350-374 | a replay of polls is a sound episode holding exactly their clock frames, in order, and only samples one of them handed over |
| RecorderHistory.ReplayHolds | koyu_runtime/services/data_recorder.py:351-359 | after any polls since START a window source holds its newest sample, and none exactly if there was none; a held answer is the newest to its id |
| RecorderHistory.RowIsNewest | koyu_runtime/services/data_recorder.py:404-408 | each row is filled with the newest samples at the poll that recorded it |
| RecorderHistory.EndingTold | koyu_runtime/services/data_recorder.py:298-336 | which events hand the recording over, lose it, drop it or go on: a tick loses it exactly if its pass aborts or the clock is overdue, and only otherwise stops it, exactly at the row cap |
| RecorderHistory.IdleTold | koyu_runtime/services/data_recorder.py:301-313 | an idle recorder starts recording exactly at a START, with that START's identity, context, rate and fence |
| RecorderHistory.ReportsTold | koyu_runtime/services/data_recorder.py:457-473 | what every event adds to the reports and to the pending jobs |
| RecorderHistory.InboxTold | koyu_runtime/services/data_recorder.py:428-441 | what every event does to the verdicts: a handover gives the first naming it to the job and parks the others, a loss or discard parks all, nothing else touches them |
| RecorderHistory.InboxIsWhatCame | koyu_runtime/services/inbox.py:51-61 | the recorder's inbox holds, in order, what was submitted since it was last emptied |
| RecorderHistory.RecordingSince | koyu_runtime/services/data_recorder.py:301-313 | while recording, the state is the replay of the polls since one accepted START, under its identity, context, rate and fence |
| RecorderHistory.SubmissionHistory | koyu_runtime/services/data_recorder.py:419-426 | every submitted episode is the replay of all polls from its own START to the STOP or cap that ended it; its verdict is the first with its identity then in the inbox, and the others were parked |
| RecorderHistory.LossHistory | koyu_runtime/services/data_recorder.py:411-417 | every lost episode was lost for a reason: the replay of its polls aborts for it, or goes on with a clock silent too long |
| RecorderHistory.FramesConserved | koyu_runtime/services/data_recorder.py:360-374 | while a recording lasts, the clock frames polled since its START are the consumed ones then the deferred ones, in order, and rows only grow |
| RecorderHistory.EveryValueArrived | koyu_runtime/services/data_recorder.py:380-408 | every value of every submitted row was polled since its START: the row's clock frame, or a sample of the last source claiming the feature, with its id or in tolerance, and the newest when the row was recorded |
| RecorderHistory.SubmittedIsOnePass | koyu_runtime/services/data_recorder.py:350-409 | with paired sources and one answer per id since START, a submitted episode's rows are the one-pass rows of the clock frames polled since, up to at most eight still waiting |
| RecorderFeed.WorldFollows | koyu_runtime/services/data_recorder.py:350-374 | over every interleaving with publishers, the episode is the replay of what its passes read |
| RecorderFeed.NeverMatchedLossIsTrue | koyu_runtime/services/data_recorder.py:370-374 | an episode that a run loses as "never matched" missed an answer: some paired source was handed none for that polled frame by any poll since START |
| RecorderFeed.ReplayGetsTo | koyu_runtime/services/data_recorder.py:350-374 | a recording that goes on has consumed exactly the polled clock frames in front of the first that some paired source was handed no answer to |
| RecorderFeed.SubmissionGetsTo | koyu_runtime/services/data_recorder.py:350-409 | with paired sources and one answer per id, a submitted episode's rows are the one-pass rows of exactly those frames |
| RecorderFeed.SameInputsSameRows | koyu_runtime/services/data_recorder.py:350-409 | two submitted episodes with the same rate, fence, polled clock frames and answers have equal rows, however ticks and publishers interleaved |
| RecorderService.DataRecorder.Reset | koyu_runtime/services/data_recorder.py:244-256 | clears the episode onto a fresh row list and leaves the old list alone |
| RecorderService.DataRecorder.Telemetry | koyu_runtime/services/data_recorder.py:443-455 | publishes the state with the next id exactly if it changed |
| RecorderService.DataRecorder.DrainVerdicts | koyu_runtime/services/data_recorder.py:428-441 | returns the first request with the capture's identity and quarantines all others in order |
| RecorderService.DataRecorder.Abort | koyu_runtime/services/data_recorder.py:411-417 | the whole state after an abort: verdicts parked, episode cleared, told, rung failed |
| RecorderService.DataRecorder.SubmitFinalize | koyu_runtime/services/data_recorder.py:419-426 | the job holds the very row list that was live, and the service a fresh one |
| RecorderService.DataRecorder.HoldAnswers | koyu_runtime/services/data_recorder.py:352-357 | the drain and evict loops compute the specified held answers |
| RecorderService.DataRecorder.EvictSmallest | koyu_runtime/services/data_recorder.py:356-357 | the eviction loop computes the trimmed answers |
| RecorderService.DataRecorder.RefreshSources | koyu_runtime/services/data_recorder.py:351-359 | all sources are refreshed, in order, and nothing else changes |
| RecorderService.DataRecorder.PairedAnswered | koyu_runtime/services/data_recorder.py:383-385 | true exactly if every paired source holds the frame's answer |
| RecorderService.DataRecorder.SourcesInWindow | koyu_runtime/services/data_recorder.py:396-400 | true exactly if every window source has a sample in tolerance |
| RecorderService.DataRecorder.BuildRow | koyu_runtime/services/data_recorder.py:404-408 | the row of the frame, later sources winning a shared feature name |
| RecorderService.DataRecorder.Frame | koyu_runtime/services/data_recorder.py:376-409 | waits without changing anything, aborts, or consumes the frame with the specified fate |
| RecorderService.DataRecorder.Capture | koyu_runtime/services/data_recorder.py:350-374 | the loop ends, never pops a reset queue, and takes exactly the specified pass; lists held by jobs are untouched |
| RecorderService.DataRecorder.Collect | koyu_runtime/services/data_recorder.py:457-473 | rings each finished job's outcome and keeps the others |
| RecorderService.DataRecorder.OnEvent | koyu_runtime/services/data_recorder.py:298-322 | exactly the specified step for every channel and id; lists held by jobs are untouched |
| RecorderService.DataRecorder.OnTick | koyu_runtime/services/data_recorder.py:324-336 | exactly the specified step; lists held by jobs are untouched |
| Inbox.NamesSort | koyu_runtime/services/inbox.py:46 | stamps of equal width sort as file names in stamp order |
| Inbox.NextInv | koyu_runtime/services/inbox.py:45-61 | every writer, crash, litter, list, read and delete step keeps the protocol invariant |
| Inbox.OnlyCompleteRead | koyu_runtime/services/inbox.py:45-61 | the owner reads complete requests or foreign garbage, never a request being written |
| Inbox.ExactlyOnce | koyu_runtime/services/inbox.py:51-61 | in every state a published request is on disk and not returned, or was returned exactly once with its content; nothing else is returned |
| Inbox.DrainReturnsAll | koyu_runtime/services/inbox.py:51-61 | a finished drain has returned every request published before it listed the directory, whatever writers did meanwhile |
| Inbox.ReturnedInOrder | koyu_runtime/services/inbox.py:51-61 | a writer's requests are returned in submission order, across any number of drains |
| Inbox.Directory.Drain | koyu_runtime/services/inbox.py:51-61 | returns the complete requests in name order and empties the directory |
| Inbox.ParsedExact | koyu_runtime/services/inbox.py:51-61 | every complete request is returned in its place among the complete ones, and nothing else is |
| FrameRing.FrameNamesSort | koyu_runtime/services/ipc_logger.py:49 | nine-digit names sort and differ as their numbers do |
| FrameRing.KeptFrom | koyu_runtime/services/ipc_logger.py:39 | the start of the longest suffix that fits the cap |
| FrameRing.EvictedExact | koyu_runtime/services/ipc_logger.py:50-56 | deleting first names until the rest fits leaves the longest suffix of all frames ever saved |
| FrameRing.FrameRing.Save | koyu_runtime/services/ipc_logger.py:47-56 | the directory always fits the cap, and stays the longest fitting suffix of all frames saved below 10^9 |
| FrameRing.TenDigitsMisorder | koyu_runtime/services/ipc_logger.py:49 | the 10^9-th frame's name sorts before its predecessor's |
| ChangeLog.Logger.OnTick | koyu_runtime/services/ipc_logger.py:115-127 | each topic logs its value exactly if the frame id differs from the last one seen there |
| ChangeLog.LogsOnChange | koyu_runtime/services/ipc_logger.py:115-127 | whatever the ids do, a poll is logged exactly if its id differs from that of the value found last |
| ChangeLog.LogsEveryChange | koyu_runtime/services/ipc_logger.py:120-123 | with rising ids the log is exactly the cells current at some poll, each once, in order |
| ChangeLog.LogsWholeHistory | koyu_runtime/services/ipc_logger.py:120-123 | polled after each publication the log is the whole history |
| ParamServer.Topic.Apply | koyu_runtime/services/param_server.py:84-102 | applied exactly if the key is known, the value a number and in any full range; raises exactly if it is no object, its key cannot be looked up, or a known key gets too large a number; quarantined otherwise |
| ParamServer.Topic.OnTick | koyu_runtime/services/param_server.py:72-82 | folds the batch, publishes the live table once if anything was accepted, saves the whole table once if an accepted request asked; a request that raises stops it there, nothing published or saved |
| ParamServer.Topic.Restart | koyu_runtime/services/param_server.py:54-70 | a new process has the table that is on disk, published under frame id 1, and the same quarantine |
| ParamServer.Server.OnTick | koyu_runtime/services/param_server.py:72-82 | every topic takes its own batch, up to the first whose batch raises; those behind it are untouched |
| ParamServer.Server.Serve | koyu_runtime/services/param_server.py:72-82 | one tick of all topics and, if a batch raised, the next process: exactly the specified round |
| ParamHistory.RoundsAreTurns | koyu_runtime/services/param_server.py:72-82 | over every history of the server each topic is what its own batches and the restarts, also those another topic caused, make of its file |
| ParamHistory.TableIsFold | koyu_runtime/services/param_server.py:72-82 | the live table is the in-order fold of every request since the running process booted, however batched, over the disk it found, and the frame id counts the accepting ticks |
| ParamServer.LastSetWins | koyu_runtime/services/param_server.py:84-102 | a parameter has the value of the last accepted set naming it, or its boot value |
| ParamHistory.PublishedValue | koyu_runtime/services/param_server.py:104-109 | what is published under a parameter is the value of the last valid set of it since the process booted, or what the disk held then |
| ParamHistory.SavesIff | koyu_runtime/services/param_server.py:76-82 | a batch saves exactly if no request raises and some valid set asks for it |
| ParamHistory.RangesKeep | koyu_runtime/services/param_server.py:96-100 | a range that holds at boot holds in memory and on disk after every turn, whatever raises or restarts |
| ParamHistory.DiskIsLastSaved | koyu_runtime/services/param_server.py:117-120 | the disk holds the whole live table as of the end of the last tick that saved, or the boot file, across restarts |
| ParamHistory.ParkedIsRejected | koyu_runtime/services/param_server.py:84-100 | the quarantine is exactly the rejected requests among those handled, in order |
| ParamHistory.TablesAreFates | koyu_runtime/services/param_server.py:72-120 | the disk is the file with exactly the sets applied whose process saved afterwards, the live table that with the unsaved ones on top; sets whose process ended first are in neither |
| ParamHistory.EachRequestOnce | koyu_runtime/services/param_server.py:72-82 | over any history each request is, exactly once, accepted and saved, unsaved or dropped; rejected and quarantined; or lost with and behind one that raised |
| ParamHistory.EndForgets | koyu_runtime/services/param_server.py:72-82 | a turn that ends the process leaves the disk as it was and the table as on disk; only what it had rejected is quarantined |
| ParamHistory.ForgottenSet | koyu_runtime/services/param_server.py:84-102 | an accepted set in front of one that raises leaves no trace; alone it is saved |
| ParamHistory.FrameCountsChanges | koyu_runtime/services/param_server.py:104-109 | at a tick that does not raise the frame id rises by one exactly if something was accepted; otherwise only the quarantine changes |
| Layouts.ParseLayout | koyu_runtime/ipc/checks.py:88-102 | the parser loop computes the specified table, or raises on a number that does not parse |
| Layouts.LinesOfUnlines | koyu_runtime/ipc/checks.py:95 | splitting lines undoes joining them |
| Layouts.WordsOfSpaced | koyu_runtime/ipc/checks.py:96 | splitting words undoes spacing them |
| Layouts.IntegerOfPrint | koyu_runtime/ipc/checks.py:99-101 | reading an integer undoes printing it |
| Layouts.WordsOfSplit | koyu_runtime/ipc/checks.py:96 | any white space separates words |
| Layouts.LinesOfSplit | koyu_runtime/ipc/checks.py:95 | any line break, and a carriage return with a line feed as one, ends a line |
| Layouts.NaturalReads | koyu_runtime/ipc/checks.py:99-101 | digits, with single underscores between them, are read by decimal place; nothing else is a number |
| Layouts.NextLine | koyu_runtime/ipc/checks.py:95-102 | what one more line does to the table, by its words |
| Layouts.RoundTrip | koyu_runtime/ipc/checks.py:88-102 | parsing undoes printing, also with unrelated lines in between |
| Layouts.ByNameExact | koyu_runtime/ipc/checks.py:93-102 | with distinct names the parsed table is exactly the printed layouts |
| TypeCheck.TypedTopics | koyu_runtime/ipc/checks.py:35-63 | the loops compute the specified topics |
| TypeCheck.TopicsExact | koyu_runtime/ipc/checks.py:35-63 | a topic is found exactly if a typed entry of a direction declares it, with the type of its last declaration in reading order |
| TypeCheck.CheckService | koyu_runtime/ipc/checks.py:122-161 | a service passes exactly if every type resolves, by class or else qualified name, and for a typed native one the layout reported under its first reported name equals the Python one |
| TypeCheck.TypeCheck | koyu_runtime/ipc/checks.py:119-161 | the boot is allowed exactly if every service passes |
| TypeCheck.PrintedAcceptedIff | koyu_runtime/ipc/checks.py:105-161 | a binary printing its layouts among other lines passes exactly if each is the Python one under its first printed name |
| Names.DecimalOrder | koyu_runtime/services/inbox.py:46 | equally long decimals sort and differ as their numbers do |
| Names.PaddedOrder | koyu_runtime/services/ipc_logger.py:49 | zero-padded decimals sort and differ as their numbers do |
| Names.ListingIs | koyu_runtime/services/inbox.py:53 | a sorted listing of a directory is unique |

## Left out

- Parquet, video and JSON encoding and the on-disk bundle: library calls; whether a bundle could be written is an input.
- `extract` callbacks: a row holds the samples themselves.
- Choosing the clock and validating the sources: the slowest video source and the others are given, with positive rates; each source has its own subscription.
- Samples without a frame id: every message type starts with a time stamp and a frame id.
- iceoryx2 ports and the wait set: only "drain returns what is buffered, oldest first" and handlers that run one at a time.
- Rounding of floating-point stamps, rates and parameters: stamps are integers, rates and values are reals.
- Verdict files that are not JSON objects: at STOP one raises and ends the recorder's process. Runs here are those of one process that does not end; parameter requests of that kind are modelled. Also the wording of quarantine reasons.
- Two requests of one process with the same stamp: the second rename would replace the first file; stamps of a process are assumed to rise.
- Name collisions in quarantine and among topic slugs, and a frame ring that finds files of an earlier run.
- Image decoding and log rotation in the logger.
- Integer and text parameter fields, keys in a parameter file that no struct field has, and refusing to boot when a value is missing.
- What supervision does with a parameter server that raised, other than starting a new process on the same files; and files whose reading fails in another way than by not being JSON.
- Telling native commands from Python ones and running the binary: both are inputs of the type check. ctypes layouts are given.
- Non-ASCII digits in printed numbers.
- Supervision, configuration generation, the bridge and the command line.
- FrameRing.FrameRing.Save: beyond 10^9 saves only the byte cap is promised, because names no longer sort in order.
