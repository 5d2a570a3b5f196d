# Durable delivery and run lifecycle, in Dafny

A Dafny 4.11 model of the parts of the meeting-bot service that decide what is delivered, in which order, and what
survives a run. `dafny verify dfyconfig.toml` checks the whole project.

| file | what it models |
|---|---|
| `Delivery.dfy` | the webhook outbox table, the transactions on it, retry arithmetic, the operator's replay and skip |
| `Window.dfy` | the query window of the sender and the choice of stream heads |
| `Protocol.dfy` | emitters, any number of senders that may crash, operators and the purge, interleaved transaction by transaction |
| `Fencing.dfy`, `Ordering.dfy`, `FirstDelivery.dfy`, `Overtaking.dfy`, `Skipping.dfy`, `Numbering.dfy`, `Leasing.dfy` | theorems about every run of that protocol |
| `Lifecycle.dfy`, `Service.dfy` | the status graph; runs and the service that moves them and stores an event in the same transaction |
| `EndToEnd.dfy` | runs, subscriptions and outbox together: what a subscriber is told of a run |
| `Capacity.dfy`, `Ownership.dfy` | reservations and the counter that mirrors them; who releases whose reservation |
| `Transcript.dfy` | coverage sweep, batch merge, deduplication, speaker annotation |
| `Checkpoints.dfy`, `Recorder.dfy` | checkpointed recording under failing puts, and restoring it |
| `Greedy.dfy`, `Batching.dfy` | note batching |
| `Pacing.dfy`, `PacingTraces.dfy` | guest join pacing; when a released slot leaves no trace |

The pattern is the same throughout. What one transaction or one loop does to the data is a function; the methods,
which assign fields and loop as the source does, are proved equal to it; and what the source promises is proved of the
function, over all inputs or over every run. Decisions are also tied to their consequences in plain values, without the
predicates that make them: which attempts exclude each other, how long a row waits, which transitions are granted, when
the recorder's flag is set, whose reservation a sweep takes.

Some results say exactly where the code keeps a promise and where it does not:

- A replay keeps later events from overtaking earlier ones exactly when the row replayed is not sent or skipped
  (`Overtaking.ReplayIsSafeExactly`). The replay route checks nothing; ADR 0006 speaks of dead events only. The guard
  that decides it is the status a caller can read before the call. `Overtaking.ReplayOvertakesExactly` says for each
  reachable state which replays can be overtaken: those of settled rows with a later row that some sender may still
  post.
- First deliveries come in creation order, without gaps, whatever is replayed or purged, as long as no row that is
  pending and was never posted is skipped (`FirstDelivery.FirstPostsInCreationOrder`). A skip is safe in this respect
  exactly when the row's status is not pending (`Overtaking.SkipIsSafeExactly`): a pending row skipped between its
  lease and its POST is still posted, possibly after its successor (`Overtaking.SkipReordersFirstPosts`). Skipping a
  dead or retried row, which the route is for, disturbs nothing.
- Beyond the gap it leaves by design, skipping a pending row that was never posted can bring a later row ahead of it,
  though it is not replayed, exactly when some sender holds an attempt on it that is about to post
  (`Skipping.SkipDisordersExactly`). Any number of other skips keeps first POSTs in order
  (`Skipping.FirstPostsKeepOrder`).
- A stream gives a sequence number twice exactly when some event bears a row on it while the row it bore last is no
  longer in the table (`Numbering.NumbersRepeatExactly`; a run that does: `Overtaking.SequenceIsReused`). Only a purge
  makes it so (`Numbering.OnlyPurgesForget`, `Numbering.PurgeForgetsExactly`). The theorems on order are not affected:
  they state order by creation.
- Merging a batch does not keep one row per time range, as ADR 0013 puts it: a row covered for less than a quarter is
  added beside the rows it overlaps (`Transcript.OverlapIsKept`). It does so exactly when every batch row to be added
  touches no row that was there and no other row to be added (`Transcript.OneRowPerRangeExactly`,
  `Transcript.AddedRowsApartExactly`).
- Releasing the newest guest slot held leaves no trace on later ones exactly under the condition of
  `PacingTraces.Traceless` (`PacingTraces.ReleasedSlotLeavesNoTrace`). If the pacer takes the slot back: the slot is not
  ahead of the clock, or the slot right before it was not released while it was the newest
  (`PacingTraces.ReleasedOldestFirst` shows the failure). If the pacer does not take it back, since its next slot is not
  right behind it: by now that next slot is not ahead of the clock, or some reserve in between found it so
  (`PacingTraces.ReleasedMiddleFirst` shows the failure). `PacingTraces.TakesBackExactly` says which of the two it is.
  The second condition needs a clock that does not go back; `src/twin/worker.py:83` reads a monotonic one.
- An owner's release frees its own capacity reservation exactly while it still has it. Otherwise it frees the reservation
  of whoever runs the bot by then (`Ownership.ReleaseTakesOwnExactly`). That can come to pass, without further sweeps,
  exactly when some running owner has lost its reservation (`Ownership.ForeignReleaseAheadExactly`), and never before a
  sweep took the reservation of a running owner (`Ownership.SparedOwnersReleaseTheirOwn`).
- What can be restored of a recording, failed checkpoints or not, is the first windows handed over with none left out
  exactly when no window was accepted after a rejected one (`Recorder.RestoredLeavesHoleExactly`); a hole is not marked
  partial (`Recorder.HoleIsNotMarked`).

Other differences between code and documents, where the model follows the code: ADR 0005 says rows older than thirty
days are purged, the code purges only those that are sent, dead or skipped; and a delivery dies before its tenth attempt
when the answer is not retryable.

## Assumptions

- Each `session_scope` is one atomic step, rolled back as a whole on an exception.
- Ids and lease tokens are fresh. Row ids are modelled by creation number, which no decision of the model depends on;
  ties of the sender's query may fall either way.
- Clocks are exact and may go anywhere unless a statement says otherwise; each step that reads the clock reads it once.
- Blob puts replace an object whole. Chunk keys are modelled by the chunk number they are printed from.
- SHA-256 is any function from bytes to strings, collision-free where the statement requires it.

## Model

| member | source | states |
|---|---|---|
| Delivery.StoreAppends | src/twin/webhooks/dispatch.py:93-124 | storing an event leaves every existing row alone, bears only pending, unattempted, unleased rows, and keeps sequence numbers of each stream increasing in creation order |
| Delivery.StoreBirths | src/twin/webhooks/dispatch.py:98-111 | an event bears exactly one row per subscription, in their order |
| Delivery.LastSequenceIsMaximum | src/twin/webhooks/dispatch.py:100-110 | the number a new row follows is the greatest one on its stream, or zero on an empty stream |
| Delivery.RetryDelayBounds | src/twin/webhooks/dispatch.py:257-262 | a retry waits between 2 and max(300, Retry-After) + 1 seconds and at least Retry-After; the wait before Retry-After and jitter never shrinks with attempts |
| Delivery.Outbox.StoreEvent | src/twin/webhooks/dispatch.py:93-124 | the loop over subscriptions leaves the table as storing the event does |
| Delivery.Outbox.TakeLease | src/twin/webhooks/dispatch.py:169-191 | takes the row's lease exactly when the row is pending or retry and no unexpired lease stands; otherwise changes nothing |
| Delivery.Outbox.RecordSent | src/twin/webhooks/dispatch.py:217-225 | marks the row sent and unleased if the token still holds it, else changes nothing |
| Delivery.Outbox.RecordFailure | src/twin/webhooks/dispatch.py:231-267 | counts the failure and makes the row retry or dead if the token still holds it, else changes nothing; reports death exactly when it recorded one |
| Delivery.Outbox.PurgeRows | src/twin/webhooks/dispatch.py:269-283 | deletes exactly the old sent, dead and skipped rows and counts them |
| Delivery.Outbox.ReplayRow | src/twin/api/routes/deliveries.py:28-39 | makes any existing row pending and unleased, keeping its attempts; reports a missing row |
| Delivery.Outbox.SkipRow | src/twin/api/routes/deliveries.py:43-53 | makes any existing row skipped and unleased; reports a missing row |
| Window.WindowShowsHeads | src/twin/webhooks/dispatch.py:141-150 | for any batch size, a ready row is pending or to be retried, its time has come, every other row of its stream in the whole table is sent, skipped or later, and no other of its stream is ready; a row whose time has come is missed only when the window is full or an earlier row of its stream is neither sent nor skipped |
| Window.GroupByStream | src/twin/webhooks/dispatch.py:291-301 | exactly the streams of the listed rows, each once, with exactly its rows in sequence |
| Window.ReadyDeliveries | src/twin/webhooks/dispatch.py:304-312 | exactly the due pending or retry heads of the listed streams, each once |
| Protocol.InvAlways | src/twin/webhooks/dispatch.py:138-283 | over every interleaving: sequences follow creation, leases are held only by rows still to be sent, tokens are never shared between attempts or rows, attempt counters agree with the outcomes recorded, and a row is marked sent only after a receiver answered a POST of it with success |
| Protocol.StatusSteps | src/twin/webhooks/dispatch.py:169-283 | a row's status changes only by an outcome recorded under its lease, a replay or a skip; only finished rows vanish |
| Leasing.AttemptIsGrantedExactly | src/twin/webhooks/dispatch.py:169-191 | over any run, a sender whose turn has come to a row starts an attempt if and only if the row is there, pending or to be retried, and every attempt on it started less than 120 seconds ago has been recorded, or the row replayed or skipped since |
| Leasing.AttemptsExclude | src/twin/webhooks/dispatch.py:186-190 | of two attempts started on one row with nothing recorded, replayed or skipped on it in between, the second comes at least 120 seconds after the first |
| Leasing.OutcomeTells | src/twin/webhooks/dispatch.py:207-267 | over any run, what a recorded outcome makes of its row by the code of the reply: sent below 300 without counting an attempt; otherwise one more attempt, dead if the code is neither 408, 429 nor a 5xx or at the tenth attempt, and else to be retried |
| Leasing.BackoffIsKept | src/twin/webhooks/dispatch.py:257-262 | after a recorded outcome leaves a row to be retried, until another outcome, replay or skip of it, no poll yields it before the backoff and the Retry-After are over, and any poll a tenth of that, at most a second, later does, unless its window is full or an earlier row is outstanding |
| Leasing.BackoffDoubles | src/twin/webhooks/dispatch.py:257-258 | waits start at two seconds, double with every attempt, and stop growing at five minutes |
| Leasing.BornDue | src/twin/webhooks/dispatch.py:98-124 | an event bears one row per subscription, in order, pending, due at once, unattempted and unleased |
| Leasing.DueAgain | src/twin/api/routes/deliveries.py:28-53 | a replay makes any row pending, due and unleased without touching its attempts; a skip takes its lease and puts it off for thirty days |
| Leasing.PurgeTells | src/twin/webhooks/dispatch.py:269-283 | a purge takes exactly the rows more than thirty days old that are sent, dead or skipped |
| Fencing.FencedForever | src/twin/webhooks/dispatch.py:169-191 | a token that is not the row's lease never becomes it again, whatever happens |
| Fencing.ChangeFences | src/twin/webhooks/dispatch.py:219-264 | any step that changes a leased row (take-over, outcome, skip, replay) fences the token it had |
| Fencing.FencedAttemptIsInert | src/twin/webhooks/dispatch.py:237-240 | an attempt fenced at any point of a run writes nothing at any later point |
| Fencing.OneWriterPerRow | src/twin/webhooks/dispatch.py:169-267 | of two attempts in flight on a row, at least one can never write its outcome |
| Fencing.RetriesAreBounded | src/twin/webhooks/dispatch.py:241-264 | attempts stay within ten plus the row's replays; retry means one to nine attempts; an unreplayed row has at most ten outcomes and is no longer sendable after the tenth; a lease implies pending or retry |
| Ordering.OrderedDelivery | src/twin/webhooks/dispatch.py:138-229 | over every interleaving in which settled rows of the stream are not replayed, a POST starts only when every earlier row of its stream still in the table is skipped, or sent and acknowledged by its receiver |
| Overtaking.ReplayOvertakesExactly | src/twin/api/routes/deliveries.py:28-39 | from any state a careful run reaches, some continuation without replays posts a later row of the stream ahead of the replayed one, if and only if that one is sent or skipped and some sender holds an unposted attempt on a later row, or lists a later row that may still be sent |
| Overtaking.ReplayIsSafeExactly | src/twin/api/routes/deliveries.py:34-38 | no run in which a row of a given status is replayed lets a later event overtake, if and only if that status is neither sent nor skipped |
| Overtaking.SkipIsSafeExactly | src/twin/api/routes/deliveries.py:43-53 | no run in which a row of a given status is skipped, every other skip being harmless, has the first POSTs of its stream out of creation order or with a gap, if and only if that status is not pending |
| Overtaking.SkipReordersFirstPosts | src/twin/api/routes/deliveries.py:43-53 | a run with one skip, of a pending leased row, whose first POSTs come in the reverse of creation order |
| Overtaking.SequenceIsReused | src/twin/webhooks/dispatch.py:100-110 | a run in which the highest row of a stream is purged and the next row stored gets its number |
| Skipping.FirstPostsKeepOrder | src/twin/webhooks/dispatch.py:138-229 | through any number of skips, replays and purges the first POSTs of a stream keep creation order, as long as no row is skipped while its first POST is about to start and none skipped before its first POST is replayed |
| Skipping.SkipDisordersExactly | src/twin/api/routes/deliveries.py:43-53 | after any faithful run, skipping a pending row that was never posted can be followed, faithfully and without replaying it, by first POSTs out of order, if and only if some sender holds an attempt on it that is about to post |
| Numbering.NumbersRepeatExactly | src/twin/webhooks/dispatch.py:98-111 | over any run rows bear the numbers they were given, and a stream gives a number twice if and only if some event bears a row on it while the row it bore last is gone; otherwise its numbers rise with creation |
| Numbering.PurgeForgetsExactly | src/twin/webhooks/dispatch.py:269-283 | a purge changes the last number of a stream known to the table if and only if it deletes the youngest row of the stream |
| Numbering.OnlyPurgesForget | src/twin/webhooks/dispatch.py:269-283 | no step but a purge, of a sent, dead or skipped row past its age, removes the row a stream bore last |
| FirstDelivery.GaplessAlways | src/twin/webhooks/dispatch.py:138-229 | in any run that skips no row of the stream that is pending and was never posted, with any replays and purges: rows not posted yet wait pending in the table, and before any POST every earlier event of the stream was posted |
| FirstDelivery.FirstPostsInCreationOrder | src/twin/webhooks/dispatch.py:138-229 | under the same condition the first POSTs of a stream are a prefix of the rows ever stored for it |
| Lifecycle.HistoryShape | src/twin/bots/state.py:21-42 | a history along the allowed transitions has at most six statuses, repeats none, joins only right after the queue and ends at its first terminal status |
| Lifecycle.HistoriesExactly | src/twin/bots/state.py:21-35 | a history is valid if and only if it is part or all of the way queued, joining, joined, recording, processing, completed, or part of it and then failed; one that ends completed is the whole way |
| Service.AdvanceGrantsExactly | src/twin/bots/service.py:388-410 | advancing an unfinished run is granted, with one event, the new status and its times, if and only if the target is the next status on that way or failed; a finished run accepts only its own status, without an event |
| Service.FailTells | src/twin/bots/runtime.py:718-730 | failing an unfinished run sets code, reason, time and status with one event; a finished one is left alone |
| Service.CreateTells | src/twin/bots/service.py:236-275 | a new queued run is made if and only if no unfinished run is at the meeting and no run has the key; the run with the key is answered if and only if the key is not empty and it is for the same meeting; everything else is refused |
| Service.FailEachTells | src/twin/bots/runner.py:202-231 | failing several unfinished runs ends each of them once and leaves the others alone |
| Service.BotService.AdvanceRun | src/twin/bots/service.py:388-410 | a granted transition stamps the run and stores its event in one commit; refusals, and a repeated terminal status, change nothing |
| Service.BotService.FailRun | src/twin/bots/runtime.py:718-730 | a run that is not over gets the code and reason and fails with one event; a finished or missing run is left alone |
| Service.BotService.CreateOrGet | src/twin/bots/service.py:236-275 | creates a queued run and its event, or answers the run with the same key and meeting, or refuses a reused key or an active meeting |
| Service.BotService.SweepOrphans | src/twin/bots/runner.py:202-231 | fails exactly the runs joining, joined, recording or processing without heartbeat that were not updated for long, each once |
| EndToEnd.ActsAreTransactions | src/twin/bots/service.py:388-410 | the runs and outbox of the composed world change by exactly the service's transactions, and by the steps of the outbox protocol |
| EndToEnd.RunsComplete | src/twin/bots/service.py:388-410 | five advances, at any times, take any queued run to completion by way of every status, and no completed run got there otherwise |
| EndToEnd.SubscribersSeeHistory | src/twin/bots/service.py:388-410 | for a subscription older than the run, on a stream where no row that is pending and was never posted is skipped, with any replays and purges, the statuses in first-POST order are a prefix of the run's history, which is a valid one; while still subscribed, the stream has been stored the whole history |
| EndToEnd.SingleJoiner | src/twin/bots/runtime.py:239-245 | over any mix of callers at most one move of a bot to joining is granted; histories are short, without repeats, and end at a terminal status |
| EndToEnd.RunsAreConsistent | src/twin/bots/service.py:236-275 | in every reachable world joined_at is set iff the run passed joined, left_at iff it is over, a failed run has a stop reason, and no two unfinished runs share a meeting nor two runs an idempotency key |
| Capacity.CountersMirrorReservations | src/twin/bots/runner.py:106-199 | after any run of reserves with any limits, releases and sweeps, each counter is its tenant's number of unreleased reservations and no bot holds two |
| Capacity.ReleaseKeepsBalance | src/twin/bots/runner.py:164-170 | a release lowers the counter by exactly one, so the clamp at zero never acts |
| Capacity.LimitIsKept | src/twin/bots/runner.py:130-141 | a tenant never holds more reservations than the largest limit it was given |
| Capacity.ReserveSettlesOwnership | src/twin/bots/runner.py:121-141 | after a granted reserve exactly its owner is granted again, without a new reservation, and everyone else is refused |
| Capacity.ReserveGrantsExactly | src/twin/bots/runner.py:121-141 | a reserve is granted if and only if the caller has the bot's reservation, or nobody has one and the tenant holds fewer than its limit; only the latter makes a reservation |
| Capacity.SweepReleasesForfeits | src/twin/bots/runner.py:181-198 | a sweep releases exactly the reservations whose run is gone or over, or queued more than 300 seconds after the reservation was made |
| Capacity.SweepSparesLiveRuns | src/twin/bots/runner.py:173-199 | a sweep takes nothing from live runs nor from queued ones reserved at most 300 seconds ago, and what is held afterwards belongs to one of these |
| Capacity.FreshReservationStays | src/twin/bots/runner.py:173-199 | a granted reservation is still there after any further attempts, releases of other bots and sweeps, as long as each sweep finds its run live, or queued and the reservation at most 300 seconds old |
| Ownership.ReleaseTakesOwnExactly | src/twin/bots/runner.py:43-66 | in any run of attempts, releases and sweeps, an owner's release takes its own reservation if and only if it still has it, and takes another owner's if and only if it has lost its own and another owner on the bot keeps one |
| Ownership.ForeignReleaseAheadExactly | src/twin/bots/runner.py:61-66 | attempts and releases alone can come to a release that takes another owner's reservation if and only if some running owner has lost its own |
| Ownership.SparedOwnersReleaseTheirOwn | src/twin/bots/runner.py:61-66 | until a sweep takes the reservation of a running owner, reservations held and running owners are one to one and every owner releases its own |
| Capacity.CapacityLedger.TryReserve | src/twin/bots/runner.py:106-141 | grants to the owner of the bot's reservation, or makes one while there is room; otherwise only updates the limit |
| Capacity.CapacityLedger.HasOtherReservation | src/twin/bots/runner.py:144-153 | true exactly when another owner holds the bot's reservation |
| Capacity.CapacityLedger.ReleaseBot | src/twin/bots/runner.py:156-170 | releases the bot's reservation and its place in the counter, if there is one |
| Capacity.CapacityLedger.SweepReservations | src/twin/bots/runner.py:173-199 | the loop sweeps every reservation once and answers how many it released |
| Transcript.CoveredByLive | src/twin/bots/runtime.py:557-577 | the sort, clip and merge sweep answers exactly whether at least a quarter of the candidate's milliseconds lie in some live segment, for live segments in any order, overlapping or malformed |
| Transcript.QuarterIsEnough | src/twin/bots/runtime.py:577 | a segment four times as long as what live rows have of it is covered, and one any longer is not |
| Transcript.IngestAddsExactly | src/twin/bots/service.py:297-315 | a segment is added as it is if and only if no row has its start, end and text |
| Transcript.NamesWhatItOverlaps | src/twin/bots/service.py:147-161 | of rows and segments that last, a labelled segment names exactly those it shares a millisecond with |
| Transcript.MeasureUnion | src/twin/bots/runtime.py:565-576 | the merging loop adds up exactly the number of integer points of the union of the ranges |
| Transcript.CoverageLaws | src/twin/bots/runtime.py:557-577 | coverage depends only on which live segments there are, is bounded by the duration, grows with them, and is whole for a segment among them |
| Transcript.UncoveredBatch | src/twin/bots/runtime.py:551-554 | keeps, in order, exactly the batch segments that are not covered, and all of them when nothing is live |
| Transcript.MergeKeepsAndStores | src/twin/bots/runtime.py:425-439 | the merge keeps every row as it was, adds only batch rows, leaves each batch row stored or a quarter covered by the original rows, and stores no utterance twice |
| Transcript.MergeIsIdempotent | src/twin/bots/runtime.py:425-439 | a second merge of the same batch adds nothing |
| Transcript.AddedRowsApartExactly | adr/0013-transcript-coverage-merge.md:7-9 | what the merge adds overlaps no row that was there, if and only if every batch row is stored already, covered, or touches none |
| Transcript.OneRowPerRangeExactly | adr/0013-transcript-coverage-merge.md:13-14 | the merged rows share no millisecond, if and only if the old ones do not, every batch row to be added touches none of them, and those to be added touch no other of them with a different utterance |
| Transcript.OverlapIsKept | src/twin/bots/runtime.py:551-554 | a live row and a batch row reaching a little into it, which the merge both keeps |
| Transcript.TranscriptsStayDistinct | src/twin/bots/service.py:297-325 | over any run of stores, merges and annotations no two rows share start, end and text, and no row is lost, moved or altered but to be given a speaker |
| Transcript.TranscriptRows.IngestSegment | src/twin/bots/service.py:297-315 | answers a stored row with the segment's start, end and text, adding one only when there was none |
| Transcript.TranscriptRows.MergeBatch | src/twin/bots/runtime.py:425-439 | the branch for a live stream that delivered leaves the rows merged |
| Transcript.TranscriptRows.AnnotateSpeakers | src/twin/bots/service.py:317-325 | the nested loops leave the rows annotated and answer exactly the number of rows changed |
| Transcript.TranscriptRows.NameOverlapping | src/twin/bots/service.py:147-161 | names exactly the unlabelled rows that overlap and answers how many |
| Transcript.AnnotateIsFirstMatch | src/twin/bots/service.py:317-325 | each unlabelled row gets the speaker of the first labelled segment overlapping it, labelled rows stay |
| Transcript.AnnotateIsIdempotent | src/twin/bots/service.py:317-325 | annotating again changes nothing |
| Checkpoints.RestoreIsDurable | src/twin/storage/checkpoints.py:32-65 | at every point of every run with failing puts, restoring yields exactly the windows accepted before the manifest was last stored, whole and in order, or nothing when it never was |
| Checkpoints.NamedChunksStay | src/twin/storage/checkpoints.py:35-39 | no later append, failed or not, changes a chunk named by the stored manifest |
| Checkpoints.RestoreIsLongestPrefix | src/twin/storage/checkpoints.py:55-65 | however stored chunks are damaged, restoring yields exactly the windows before the first damaged one, partial iff there is one, and raises iff that one is missing |
| Checkpoints.PublishedExactly | src/twin/storage/checkpoints.py:32-52 | the writer can tell a manifest's place if and only if some append with data went through |
| Checkpoints.CheckpointWriter.AppendWindow | src/twin/storage/checkpoints.py:32-52 | puts chunk and manifest in this order and remembers the chunk once its put returned; succeeds exactly when both puts did or there was no data |
| Checkpoints.CheckpointWriter.RestorePrefix | src/twin/storage/checkpoints.py:55-65 | the reading loop restores what the manifest and the chunks determine |
| Recorder.RecorderConserves | src/twin/meet/recorder.py:309-336 | over any drains and failures the windows handed over and the buffer concatenate to the spool, and each window is made of one to five nonempty chunks |
| Recorder.KillLosesOnlyTheBuffer | adr/0007-audio-checkpoint-finalization.md:13 | while no checkpoint failed, what can be restored followed by the buffer is all audio taken so far |
| Recorder.FlagTellsAlways | src/twin/meet/recorder.py:325-336 | at any time and after stop, checkpoint_failed is set if and only if a put of some call made so far did not return, or the manifest was not noted |
| Recorder.FairWeatherKeepsAll | src/twin/meet/recorder.py:278-336 | when storage never fails, the flag stays false, everything but the buffer can be restored at any time, and after stop the whole recording |
| Recorder.WindowsOfFive | src/twin/meet/recorder.py:309-323 | over any drains of nonempty chunks, a window of exactly five is handed over at every fifth chunk |
| Recorder.RestoredLeavesHoleExactly | src/twin/storage/checkpoints.py:32-65 | at any time, failed checkpoints or not, restoring yields the windows accepted until the manifest was last stored, never marked partial; they are the first ones handed over with none left out if and only if none was accepted after a rejected one, and then restoring yields the beginning of the audio |
| Recorder.HoleIsNotMarked | src/twin/meet/recorder.py:325-336 | two windows, the first lost and the second accepted: the second alone is restored, not marked partial |
| Recorder.StoppedRecordingIsRestored | src/twin/meet/recorder.py:278-298 | if no checkpoint failed by the end of stop, restoring the manifest gives the nonempty recording byte for byte, final drain included |
| Recorder.MeetingRecorder.FlushCheckpoint | src/twin/meet/recorder.py:325-336 | hands the buffer over once, empties it, and notes a failure |
| Recorder.MeetingRecorder.DrainPage | src/twin/meet/recorder.py:309-323 | takes every chunk in order, flushing at every fifth; a failed evaluation changes nothing |
| Recorder.MeetingRecorder.StopRecording | src/twin/meet/recorder.py:278-298 | drains and flushes a last time and returns the spool |
| Batching.PromptShows | src/twin/notes/summarizer.py:52-59 | the prompt of a batch has the line of each of its segments |
| Batching.LineShows | src/twin/notes/summarizer.py:52-54 | a line shows the segment's stamp, its speaker and, to the end, its text |
| Batching.StampRoundTrip | src/twin/notes/summarizer.py:47-49 | a stamp read back gives the whole seconds of the time |
| Batching.SizeIsPromptLength | src/twin/notes/summarizer.py:57-67 | the size the splitter keeps is the length of the prompt plus one |
| Batching.SplitIsOptimal | src/twin/notes/summarizer.py:62-76 | the batches are nonempty, concatenate to the transcript and are single segments or prompts under the limit, and no such partition has fewer |
| Batching.SplitSegments | src/twin/notes/summarizer.py:62-76 | the splitter's answer is that optimal partition |
| Greedy.GreedyStaysAhead | src/twin/notes/summarizer.py:66-74 | at any point the splitter needs no more batches for what is left than any other fitting batches that end with it |
| Greedy.Split | src/twin/notes/summarizer.py:62-76 | the loop over items with a running size yields the greedy split |
| Pacing.SlotsComeEarliest | src/twin/worker.py:38-41 | without releases each slot is the time asked for, or a gap after the last slot if that is later |
| Pacing.HeldSlotsArePaced | src/twin/worker.py:33-45 | over any run of reserves and releases of held slots, held slots are pairwise at least the gap apart and not before their request |
| PacingTraces.ReleasedSlotLeavesNoTrace | src/twin/worker.py:38-45 | whatever is reserved and released between a slot's reserve and its release as the newest slot held, all later reserves under a clock that does not go back get what they would have got had it never been taken, if and only if the release is traceless: with a gap, the pacer takes the slot back and it is not ahead of the clock or its direct predecessor was not released while it was the newest; or the pacer does not take it back and its next slot is not ahead of the clock or some reserve found it so |
| PacingTraces.TakesBackExactly | src/twin/worker.py:43-45 | the newest slot held is taken back if and only if, since its reserve, no reserve came after the pacer's next slot and later slots were released newest first |
| PacingTraces.ReleasedOldestFirst | src/twin/worker.py:43-45 | two slots released oldest first: the next reserve gets slot 1, and slot 0 had the second never been taken |
| PacingTraces.ReleasedMiddleFirst | src/twin/worker.py:43-45 | three slots, the middle released first: releasing the only slot left changes nothing, the next reserve gets slot 2, and slot 1 had it never been taken |
| Pacing.GuestPacer.ReserveSlot | src/twin/worker.py:38-41 | answers a slot not before now with the wait until it |
| Pacing.GuestPacer.ReleaseSlot | src/twin/worker.py:43-45 | whoever holds the slot gives it up: with a positive gap the next slot offered changes only when the slot was the newest one held, exactly when the next one was right behind it, and the slots still held stay a gap apart from each other and from it |

## Left out

- Sender progress: dead heads and heads not yet due stay in the 50-row window, so only safety is stated.
- Delivery of a queued run to a worker: a claim is acknowledged even when the worker returns on shutdown.
- That every live run holds a reservation: it does not, reservations are released before a failing run is marked.
- Interleavings inside one transaction: release and sweep read reservations before they lock the counter.
- The Redis leases of senders and profiles: senders in the model may pass over or work on any stream at any time.
- The map from failure codes to stop reasons: whoever fails a run names both.
- Payload signing, response bodies, last_error, last_status_code, sent_at and dead_at of a delivery.
- Counting of sent, failed and dead in run_once, which reports sent even when a fenced attempt recorded nothing.
- Merging after a failed live stream, which stores the whole batch without the coverage filter.
- The confidence gate before annotation, the transcription queue and the artifact statuses.
- Cancelling the poll task in the middle of a drain, which can drop chunks already taken from the page.
- The recorder without a checkpoint sink, where nothing is flushed.
- JSON of the manifest and the text of blob keys; retention and the finalizer that copies restored recordings.
- Floating point: times are reals, and the quarter threshold is the exact comparison it stands for.
- Combining partial notes, listing runs, URL rules, error texts, job outcomes, secrets and metrics: easy members.
- Browser, Meet pages, ffmpeg, speech and language providers, Kubernetes and HTTP routing: input and output.
