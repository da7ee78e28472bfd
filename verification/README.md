# Verified models of the lcnc-suite gateway and web UI

lcnc-suite puts a web front end on LinuxCNC: a Python gateway talks to the controller and
to browsers, two small userspace processes own the HAL pins, and a TypeScript client shows
status and a 3D preview of the loaded program. This project models the parts of it where
correctness is not visible from any one function, and proves what they are for.

| file | component |
|---|---|
| `geometry.dfy`, `rdp.dfy`, `decimation.dfy`, `decimation_sound.dfy` | polyline decimation in the parse worker, what it keeps and drops, the bounding box of the result, the source-line map rebuilt in the browser |
| `watchdog.dfy`, `watchdog_calm.dfy`, `watchdog_reset.dfy`, `watchdog_outputs.dfy`, `framing.dfy`, `framing_text.dfy` | the HAL watchdog process, the oneshot and trip latch behind it, when they never trip by themselves, when a reset closes them again, what the other outputs show, and its line framing with the UTF-8 under it |
| `status_delta.dfy`, `status_delta_exact.dfy` | status snapshots sent as deltas and merged in the browser, and exactly when a delivered frame is right |
| `preview.dfy`, `preview_gets.dfy`, `preview_lasting.dfy`, `preview_client.dfy`, `preview_end_to_end.dfy` | publication of parsed previews under concurrent edits and GETs, how long an unload or an old preview lasts, the browser's loader, and newest-wins across server and browser |
| `camera.dfy`, `camera_grace.dfy` | the camera broker: one producer, grace timers, viewers that leave, teardown |
| `reader_rpc.dfy` | request/reply routing to the HAL reader process |
| `trip_latch.dfy`, `arming.dfy`, `arming_clients.dfy`, `armed_resume.dfy` | the operator's trip banner, armed-resume holds and the arming gate, and exactly who can come back armed |
| `math_eval.dfy`, `math_grammar.dfy`, `math_print.dfy`, `math_text.dfy` | the expression evaluator, its grammar, printing, and exactly which strings evaluate |
| `wrappers.dfy`, `text.dfy`, `stable_sort.dfy` | options and results; Python string, number and sorting behaviour the parsers rely on |
| `tool_table.dfy`, `tool_table_round_trip.dfy`, `tool_table_theorem.dfy`, `tool_table_by_hand.dfy` | writing and parsing tool tables, the gateway's own and others' |
| `var_file.dfy`, `var_file_unterminated.dfy`, `var_file_sorted.dfy` | rewriting and reading LinuxCNC parameter files, with and without a newline at their end |
| `program_timer.dfy`, `phase_ring.dfy` | the program timer and the phase ring buffer |
| `mdi_chunks.dfy` | packing parameter assignments into MDI lines |

Code that changes state is a class or a loop with the source's own fields, each method
proved against a function of the old state; the theorems are about those functions, over
all inputs or all runs. Protocols are state machines whose steps are the sections of code
between two awaits, with any number of clients, timers, requests and messages.

## Where the code does not do what it promises

Each item is a theorem here, with the exact condition under which the promise holds.

- Watchdog: an opening of the safety chain through the `connected` pin is not held until an
  operator reset. It closes again by itself exactly when the latch never opened, that is when
  the gap between heartbeat edges stayed within the oneshot width
  (`Watchdog.RecloseExactlyWhenLatchHolds`, `Watchdog.OpensAndClosesUnreset`). No input that
  keeps the gateway fresh trips the chain if and only if heartbeat period plus loop gap is
  within the oneshot width (`WatchdogCalm.NeverTripsExactlyWhen`); at the lowest accepted
  rate, 2 Hz, every heartbeat edge trips (`WatchdogCalm.SlowestRateAlwaysTrips`). A reset
  closes an open latch exactly when the pulse of every earlier reset has been dropped and a
  heartbeat edge lies less than the oneshot width back (`WatchdogReset.ResetClosesExactlyWhen`),
  so one before the first edge makes the one behind it be ignored
  (`WatchdogReset.EarlyResetSpoilsTheNext`).
- Framing: a read that ends inside a multi-byte character, or a line that is JSON but no
  object, drops the client and all pins (`Framing.SurvivesExactlyWhen`,
  `Framing.SkippedExactlyWhen`, `Framing.SplitCharacterDrops`). Neither can come from
  the gateway, which sends ASCII only and always an object.
- Status deltas: a field that disappears is never removed in the browser
  (`StatusDelta.MergeDiffExactlyWhenKeysStay`). With stable fields a lost frame does no harm,
  because the connection ends with it and the next one starts with a full frame
  (`StatusDelta.EveryDeliveryAgrees`). A frame the browser cannot decode is skipped and the
  deltas after it are still merged: from then on a delivered frame is guaranteed to be right
  exactly when it is full or follows a full one decoded since
  (`StatusDeltaExact.GuaranteedExactlyWhenInStep`), at the latest with the 101st frame
  decoded in a row (`StatusDelta.HealsAfter101`).
- Preview: an unload lasts exactly when the controller names no file and no refresh is in
  flight; otherwise the next poll or that refresh fills the cache again
  (`PreviewLasting.UnloadLastsExactlyWhen`). A file replaced under its old mtime keeps its old
  preview for as long as it is left alone, for browsers that join later too
  (`PreviewLasting.EditShownExactlyWhenMtimeMoves`). An
  emptied viewer shows the old program again exactly when the version last asked for can still
  be answered (`PreviewClient.EmptiedStaysEmptyExactlyWhen`).
- Camera: a device open that raises, or a stream abandoned before its first frame, loses a
  slot, and the camera stays on (`Camera.StopsExactlyWhenNothingLost`); a shutdown or a grace
  stop can release the device exactly when there is no producer task, or it is alive, or it
  ended by being cancelled, as the gateway's shutdown does first; after a producer failed
  neither releases it (`Camera.ReleasableExactlyWhenNotFailed`,
  `Camera.ShutdownReleasesExactlyWhenNotFailed`, `Camera.FailedProducerIsReached`).
- Arming: a tab that stalled can come back armed without a new hold exactly when its hold was
  live at the stall (`ArmedResume.ResumeAfterStallExactlyWhenHoldLive`). Two ways lead there:
  a second connection of the session while the clean-up is stopping the jog
  (`ArmedResume.ResumeDuringCleanUp`), and the stalled client dropping in that wait, which
  cancels the clean-up before it drops the hold (`ArmedResume.DropDuringCleanUp`,
  `ArmedResume.MissedHoldResumes`, `ArmedResume.CleanUpPreventsExactlyWhenConnected`).
- Program timer: a run first seen while paused counts that pause as running time
  (`ProgramTimer.LeadingPauseIsCounted`); the report is accurate however a run goes on exactly
  when its first poll does not see it paused (`ProgramTimer.FirstPollDecidesAccuracy`).
- Tool table: a remark that runs over a line break does not come back
  (`ToolTableTheorem.RoundTripExactlyWhenClean`).
- Parameter files: an update key that is not a word is lost
  (`VarFile.OverlayExactlyWhenKeysAreWords`), and a line put behind a last line that has no
  newline is joined to it. Patching then keeps its promise exactly when nothing is inserted,
  the last line is itself replaced, or it is blank
  (`VarFileUnterminated.PatchIsOverlayExactlyWhen`), with one odd exception, an update whose
  value is its own key behind a line of that bare key and a blank. For the sorting writer the
  condition is that the line sorts last, or that joining it to the line that sorts next does
  no harm (`VarFileSorted.WriteIsOverlayExactlyWhen`); between ordinary lines the join always
  does harm (`VarFileSorted.OrdinaryWriteExactlyWhenSortsLast`).
- Expressions: "null on any invalid input" is false of a number with a second point, which is
  cut there; that is the only exception (`MathText.OrdinaryExactlyWhenNoSecondPoint`,
  `MathText.SecondPointIsCut`).

`Camera.GraceHeldExactlyWhenAlone` states a condition and claims no failure: the two-second grace
holds exactly when no stop of an earlier grace is still about, and whether one can be depends on
the order in which the lock wakes its waiters, which is left open here.

The README of the repository (lines 733-820) gives the watchdog a `trip-latch` pin that it
drops itself. In the code the latch is a HAL `estop_latch` in the servo thread
(`lcnc-gateway/hal_watchdog.py:62-68`, `examples/sim_config/hallib/lcnc_webui.hal:40-75`),
which boots latched and opens on any FALSE sample of the oneshot; the model follows the code.

## Model

| member | source | states |
|---|---|---|
| Geometry.FootIsNearest | lcnc-gateway/gcode_parse_worker.py:92-103 | the clamped projection used as chord distance is the nearest point of the whole segment, degenerate segments included |
| Geometry.NearChordNearBox | lcnc-gateway/gcode_parse_worker.py:297-311 | a point within eps of a chord is within eps of the interval of the chord's ends on every axis |
| Rdp.RdpGap | lcnc-gateway/gcode_parse_worker.py:80-109 | the stack loop over one anchor gap terminates and marks exactly the points recursive farthest-point splitting keeps, leaving all other marks alone |
| Rdp.RdpKeep | lcnc-gateway/gcode_parse_worker.py:61-110 | for all points, anchors and tolerances the in-place algorithm returns the kept indices of the recursive definition on each anchor gap |
| Rdp.FlatNonZero | lcnc-gateway/gcode_parse_worker.py:110 | lists the set positions of a boolean array in order |
| Rdp.PendingIsOrderFree | lcnc-gateway/gcode_parse_worker.py:85-109 | what a stack of spans still adds does not depend on the order of the stack |
| Rdp.KeptOrdered | lcnc-gateway/gcode_parse_worker.py:68 | the kept indices are strictly increasing positions of the polyline |
| Rdp.EndsKept | lcnc-gateway/gcode_parse_worker.py:73-75 | the first and last point survive, as first and last kept index |
| Rdp.AnchorKept | lcnc-gateway/gcode_parse_worker.py:65-78 | every anchor that names a point survives, whatever else the anchor list holds |
| Rdp.KeptInGap | lcnc-gateway/gcode_parse_worker.py:79-109 | inside a gap an index is kept exactly when recursive decimation of that gap keeps it |
| Rdp.DroppedWithinTolerance | lcnc-gateway/gcode_parse_worker.py:61-110 | every dropped point lies within the tolerance of the chord between its two neighbouring kept points |
| Rdp.KeptForAReason | lcnc-gateway/gcode_parse_worker.py:104-109 | every kept index that is no end and no anchor lies between two kept ones of which it is the leftmost farthest and farther than the tolerance |
| Rdp.GapEmptiedExactlyWhenFlat | lcnc-gateway/gcode_parse_worker.py:79-105 | between two neighbouring anchors no point is kept if and only if all of them are within tolerance of the anchors' own chord |
| Decimation.DroppedNearItsChord | lcnc-gateway/gcode_parse_worker.py:61-110 | the true distance from each dropped point to its neighbouring chord, over all points of the chord, is within eps |
| DecimationSound.AnchorExactlyWhenChange | lcnc-gateway/gcode_parse_worker.py:280-283 | an index is an anchor exactly when it is 0 or the source line changes there |
| DecimationSound.DecimationThins | lcnc-gateway/gcode_parse_worker.py:276-291 | the feed sent is the original at one list of indices and its line numbers at the same list, which keeps both ends and every change of line; every other kept point is farther than eps from all points of the chord of two kept ones, and every dropped one within eps of its chord; the rapids likewise, keeping the ends |
| DecimationSound.StraightRunCollapses | lcnc-gateway/gcode_parse_worker.py:55-58 | between two points that must stay nothing survives if and only if every point between is within eps of some point of their chord |
| Decimation.CollectAnchors | lcnc-gateway/gcode_parse_worker.py:277-283 | the anchors are index 0 and every change of source line |
| Decimation.Decimate | lcnc-gateway/gcode_parse_worker.py:276-291 | both polylines and the line numbers of the feed are thinned by one kept set each, with the length guards |
| Decimation.RenderedBounds | lcnc-gateway/gcode_parse_worker.py:300-313 | the min/max loops give the least box of all rendered points, and none when there are none |
| Decimation.BoxAfterDecimation | lcnc-gateway/gcode_parse_worker.py:268-313 | the box of the kept points lies inside the box of all points, and widened by eps it holds every original point |
| Decimation.BuildFeedLineMap | lcnc-webui/src/previewWorker.ts:114-124 | the loop computes, per line number, the first and the last index that carries it |
| Decimation.FeedLineMapMeaning | lcnc-webui/src/previewWorker.ts:114-124 | a line is in the map exactly when it occurs, start and end carry it, and all its occurrences lie between them |
| Decimation.LineMapSurvives | lcnc-gateway/gcode_parse_worker.py:276-287 | after decimation the browser's map has the same lines, each starting at the very same original point and enclosing all its occurrences, even when line numbers recur |
| Watchdog.Process.Freshness | lcnc-gateway/hal_watchdog.py:223-250 | the top of the loop: freshness test, connected pin, local heartbeat toggle or drop |
| Watchdog.Process.DropPulse | lcnc-gateway/hal_watchdog.py:282-286 | the reset pulse is dropped once its time has passed |
| Watchdog.Process.Accepted | lcnc-gateway/hal_watchdog.py:289-309 | a new client replaces the old one with every output low and nothing fresh |
| Watchdog.Process.Disconnected | lcnc-gateway/hal_watchdog.py:313-327 | a lost client forces every output low |
| Watchdog.Process.Received | lcnc-gateway/hal_watchdog.py:344-425 | one decoded message: refresh, requested state, outputs, reset pulse; a bad compensation method forces everything low |
| Watchdog.RunKeepsInv | lcnc-gateway/hal_watchdog.py:221-425 | over every timed run the pins follow the client state, and while connected the last heartbeat edge is at most the timeout after the last refresh |
| Watchdog.LiveWhileHigh | lcnc-gateway/hal_watchdog.py:224-250 | heartbeat high implies connected high implies a present client that asked for it and refreshed; without a client every output is low |
| WatchdogOutputs.OutputsShowLastSaid | lcnc-gateway/hal_watchdog.py:393-396 | over every timed run tool-changed and compensation-enable each show the last value a handled message carried for that very field since the last accept, loss or raising message, and are low if none did |
| WatchdogOutputs.MethodShowsLastSet | lcnc-gateway/hal_watchdog.py:397-398 | compensation-method shows the last number a handled message carried, through every accept, loss and error, and 2 before the first |
| Watchdog.RisingEdgesAreFresh | lcnc-gateway/hal_watchdog.py:224-236 | every rising heartbeat edge lies within the freshness timeout of an earlier refresh message |
| Watchdog.TopsCheckFreshness | lcnc-gateway/hal_watchdog.py:223-250 | while connected is high, every loop turn so far lies within the timeout of the last refresh |
| Watchdog.EnabledOnlyAfterRefresh | examples/sim_config/hallib/lcnc_webui.hal:26-75 | the machine is enabled only within timeout plus oneshot width of a refresh, and within timeout plus loop gap of it once the loop turns |
| Watchdog.OpensInTime | examples/sim_config/hallib/lcnc_webui.hal:54-75 | with no later refresh the chain is open from timeout plus width, and after the first loop turn past the timeout |
| Watchdog.LatchIsSticky | examples/sim_config/hallib/lcnc_webui.hal:40-48 | an open latch stays open through every run without an operator reset |
| Watchdog.TripHoldsUntilReset | examples/sim_config/hallib/lcnc_webui.hal:40-73 | once the oneshot has expired no run closes the chain without an operator reset, even if edges resume at once |
| Watchdog.ResetPulseLength | lcnc-gateway/hal_watchdog.py:282-286 | the reset pin is high only for an operator reset, at least for the pulse length, and falls exactly at the first wake after it |
| WatchdogReset.PinLowExactlyWhenPulsesOver | lcnc-gateway/hal_watchdog.py:282-286 | over every timed run the reset pin is low exactly when the pulse of every reset taken has been dropped by a later turn |
| WatchdogReset.OneshotRunsExactlyWhenEdgeWithin | examples/sim_config/hallib/lcnc_webui.hal:26-39 | over every timed run the oneshot is on at a time exactly when some heartbeat edge lies less than its width before |
| WatchdogReset.ResetClosesExactlyWhen | lcnc-gateway/hal_watchdog.py:399-404 | from every run's state with the latch open the next event closes it if and only if it is a reset from a client, every earlier pulse has been dropped, and a heartbeat edge before or by it lies less than the oneshot width back |
| WatchdogReset.FirstEnableNeedsReset | examples/sim_config/hallib/lcnc_webui.hal:40-48 | over every timed run the latch boots open and is closed only after a reset that a client sent |
| WatchdogReset.EarlyResetSpoilsTheNext | lcnc-gateway/hal_watchdog.py:99 | a reset behind the first heartbeat edge closes the latch, and after a reset sent before that edge it does so exactly when the pulse is no longer than the heartbeat period |
| Watchdog.RecloseExactlyWhenLatchHolds | README.md:785-790 | from any reachable state the chain can close again with no reset exactly when the latch is closed and the oneshot running |
| Watchdog.OpensAndClosesUnreset | README.md:733-746 | every closed chain can open by losing its client and close again with no reset |
| WatchdogCalm.AskingRun | lcnc-gateway/hal_watchdog.py:376-395 | while the client stays and keeps asking, the freshness time is at least as late as every refresh message of the run |
| WatchdogCalm.NoFalseTrip | lcnc-gateway/hal_watchdog.py:256-260 | for every input with a refresh inside the timeout before each loop turn, and period plus loop gap within the oneshot width, the machine stays enabled through every step and up to the next turn |
| WatchdogCalm.NeverTripsExactlyWhen | lcnc-gateway/hal_watchdog.py:256-260 | from every reachable healthy state no such input ever disables the machine if and only if period plus loop gap is within the oneshot width |
| WatchdogCalm.ResetStartsHealthy | lcnc-gateway/hal_watchdog.py:399-404 | a fresh toggling loop turn followed by an operator reset reaches the condition from which no run trips |
| WatchdogCalm.SlowestRateAlwaysTrips | lcnc-gateway/hal_watchdog.py:184-185 | a period no shorter than the oneshot width, as the lowest accepted rate gives, trips at every heartbeat edge |
| Framing.Receiver.Receive | lcnc-gateway/hal_watchdog.py:311-425 | one read: decode, buffer, handle every complete line in order, stop and drop the client at the first that raises |
| Framing.DecodeAppend | lcnc-gateway/hal_watchdog.py:328 | decoding respects concatenation after any chunk that decodes |
| Framing.CutDecodesExactlyAtCharacters | lcnc-gateway/hal_watchdog.py:328 | a prefix of a valid stream decodes exactly when it ends at a character boundary |
| Framing.LinesAppend | lcnc-gateway/hal_watchdog.py:328-330 | complete lines and unterminated rest of a concatenation are those of the rest joined to what follows |
| Framing.ChunkingIsIrrelevant | lcnc-gateway/hal_watchdog.py:328-343 | for every split into chunks that decode, the lines handled are the newline split of the whole stream and the buffer holds exactly the unterminated rest |
| Framing.SurvivesExactlyWhen | lcnc-gateway/hal_watchdog.py:311-425 | on a valid stream the client survives exactly when no read splits a character and every line is blank, no JSON, or an object whose compensation method is a number |
| Framing.SplitCharacterDrops | lcnc-gateway/hal_watchdog.py:328 | a character split over two reads drops the client, the same bytes in one read do not |
| Framing.SkippedExactlyWhen | lcnc-gateway/hal_watchdog.py:331-343 | a line changes nothing wherever it stands exactly when it is blank or malformed; JSON that is no object raises |
| FramingText.DecodesExactlyEncodings | lcnc-gateway/hal_watchdog.py:328 | bytes decode to a text if and only if they are its UTF-8 encoding (RFC 3629, section 3) |
| FramingText.StreamHandled | lcnc-gateway/hal_watchdog.py:328-425 | on a stream cut between characters every object line is handled once and in order, up to the first line that raises, which is then the last thing that happens |
| FramingText.UndecodableReadDrops | lcnc-gateway/hal_watchdog.py:311-328 | a read that is empty or does not decode drops the client with nothing of it, or of what follows, handled |
| FramingText.LinesRejoin | lcnc-gateway/hal_watchdog.py:329-330 | the lines, ended by a newline each, with the unterminated rest behind, are the text |
| StatusDelta.DiffStatusData | lcnc-gateway/ws_fanout.py:125-138 | the diff holds exactly the added and changed fields |
| StatusDelta.MergeDiffExactlyWhenKeysStay | lcnc-gateway/ws_fanout.py:125-138 | merging a diff into its base gives the new snapshot exactly when no field was dropped |
| StatusDelta.DiffIsLeast | lcnc-gateway/ws_fanout.py:125-138 | every delta that merges to the new snapshot contains the whole diff |
| StatusDelta.StatusLoop.Tick | lcnc-gateway/gateway.py:5091-5098 | one tick sends a full frame when due and a delta otherwise, and remembers the snapshot; hidden or busy clients are skipped |
| StatusDelta.StatusStore.OnFrame | lcnc-webui/src/lcncWs.ts:975-979 | a delta is merged onto the buffered data, else the flushed data |
| StatusDelta.StatusStore.OnAnimationFrame | lcnc-webui/src/lcncWs.ts:1080-1092 | an animation frame moves the buffered frame to the screen |
| StatusDelta.RunKeepsInv | lcnc-gateway/gateway.py:4982-4986 | over every run of ticks, skips, losses, undecodable frames, flushes and reconnects with stable keys, the frames in flight lead from what the browser should hold to what the gateway diffs from |
| StatusDelta.DeliveredEqualsSnapshot | lcnc-webui/src/lcncWs.ts:975-979 | each delivered frame that is full, or follows an unbroken line of decoded frames since a full one, leaves the browser equal to the snapshot it was diffed to |
| StatusDelta.EveryDeliveryAgrees | lcnc-gateway/ws_fanout.py:307-336 | in every run with stable keys, with any sends given up and connections closed, each delivered frame leaves the browser equal to its snapshot, if the browser decodes them all |
| StatusDelta.HealsAfter101 | lcnc-gateway/ws_fanout.py:58 | after frames the browser could not decode the two agree again at the latest with the 101st frame decoded in a row |
| StatusDelta.FullExactlyEvery101st | lcnc-gateway/gateway.py:5091-5098 | over every run the frames of a connection are full exactly at its first tick and every 101st after it, and deltas in between |
| StatusDelta.ScreenShowsSnapshot | lcnc-webui/src/lcncWs.ts:1080-1092 | over every run an animation frame after a frame delivered in step leaves exactly its snapshot on the screen and nothing buffered |
| StatusDelta.FrameChangesNoData | lcnc-webui/src/lcncWs.ts:1082-1092 | an animation frame changes no data the browser holds and leaves nothing buffered |
| StatusDelta.ReconnectResyncs | lcnc-gateway/gateway.py:4982-4986 | from any state a new connection's first tick, delivered, shows the current snapshot, whatever fields came or went |
| StatusDeltaExact.GuaranteedExactlyWhenInStep | lcnc-webui/src/lcncWs.ts:935-948 | a delivered frame is right whatever snapshots the gateway took if and only if it is full or every frame since the last full one was decoded |
| Preview.BulkPipeline.ClearPreview | lcnc-gateway/bulk_pipeline.py:110-118 | an unload empties the payload, bumps the version once and forgets file and mtime |
| Preview.BulkPipeline.Poll | lcnc-gateway/gateway.py:1439-1460 | a refresh is scheduled exactly on a change of path or mtime with none running; an unloaded file clears |
| Preview.BulkPipeline.FinishRefresh | lcnc-gateway/bulk_pipeline.py:248-276 | payload and metadata, then the version, then file and pre-parse mtime; a failure only clears the flag |
| Preview.WritesPublish | lcnc-gateway/bulk_pipeline.py:253-264 | the single writes, uninterrupted, amount to the whole publication |
| Preview.OneRefresh | lcnc-gateway/bulk_pipeline.py:167-179 | over every run at most one refresh is in flight and the flag says whether there is one |
| Preview.StampedStep | lcnc-gateway/bulk_pipeline.py:253-264 | the stored payload always belongs to the current version or the one being published; versions grow by at most one a step |
| Preview.VersionsGrow | lcnc-gateway/bulk_pipeline.py:253-264 | versions never go back over a run |
| Preview.GetIsNeverStale | lcnc-gateway/gateway.py:4393-4434 | a GET issued after the client saw version n never returns an older payload, however the loop writes under it |
| PreviewGets.GetReadsTheCache | lcnc-gateway/gateway.py:4393-4434 | over every run a GET that meets no writes answers with the very payload of the cache, for clients that take gzip and those that do not |
| PreviewGets.GzipOnlyWhenAccepted | lcnc-gateway/gateway.py:4393-4434 | the compressed bytes are picked only for a request that accepts them |
| PreviewGets.GzipWhenAccepted | lcnc-gateway/gateway.py:4393-4434 | a request that accepts gzip gets the compressed bytes when they are there |
| PreviewGets.RecordsAgree | lcnc-gateway/bulk_pipeline.py:253-264 | over every run, at rest, the file named for clients is the one the poller compares, and a payload is there, in one encoding, exactly when one is named |
| PreviewGets.LoadingShows | lcnc-gateway/gateway.py:1439-1453 | once the controller names another file that is there, one poll and one undisturbed refresh show it |
| Preview.PreviewIsCoherent | lcnc-gateway/bulk_pipeline.py:178-276 | under any interleaving of fresh edits, deletions, loads, unloads and failures, when the recorded file and mtime are current the payload parses the current content |
| Preview.ReloadConverges | lcnc-gateway/gateway.py:1439-1453 | a poll that sees a change and one undisturbed refresh bring the cache up to date, and the next poll does nothing |
| Preview.PollEmptiesWithoutFile | lcnc-gateway/gateway.py:1454-1460 | with no active file one poll and its writes empty a cache that held one and bump the version once, and do nothing otherwise |
| PreviewLasting.EditShownExactlyWhenMtimeMoves | lcnc-gateway/gateway.py:1448-1450 | after an edit that changes the preview of an up-to-date file the new one comes in some run that leaves the file alone if and only if the mtime moved; otherwise no such run changes the cache |
| PreviewLasting.JoiningLoads | lcnc-gateway/gateway.py:4872-4890 | from every run's state at rest a browser that joins finds the active file in the cache, or its joining starts the refresh that leaves the cache up to date with it |
| PreviewLasting.UnloadLastsExactlyWhen | lcnc-gateway/gateway.py:5677-5687 | from every run's state an unloaded cache stays empty through every run without a new load if and only if the controller names no file and no refresh is in flight |
| PreviewClient.PreviewLoader.FetchPreview | lcnc-webui/src/lcncWs.ts:744-748 | a version already asked for is not asked for again |
| PreviewClient.PreviewLoader.OnWorkerReply | lcnc-webui/src/lcncWs.ts:720-735 | a reply for another version is dropped, an error allows a retry |
| PreviewClient.PreviewLoader.OnEmptied | lcnc-webui/src/lcncWs.ts:1106-1110 | an unload empties the viewer and leaves the request as it is |
| PreviewClient.PreviewLoader.OnWorkerError | lcnc-webui/src/lcncWs.ts:736-740 | a crashed worker allows a retry |
| PreviewClient.OnlyLatestIsShown | lcnc-webui/src/lcncWs.ts:720-748 | in every run a payload comes on the screen only as the reply to a request for the latest version pinged |
| PreviewClient.PingAsksOnce | lcnc-webui/src/lcncWs.ts:744-748 | a ping asks for its version once: repeated it changes nothing, and unless a reply for it is on its way already it can be answered |
| PreviewClient.FailureAllowsRetry | lcnc-webui/src/lcncWs.ts:720-740 | after a crash, or an error for the version asked for, the next ping asks again, for whatever version |
| PreviewClient.PostsOnce | lcnc-webui/src/previewWorker.ts:19-59 | a load under way is answered by exactly one reply, and a second answer changes nothing |
| PreviewClient.ErrorIsLastOutcome | lcnc-webui/src/lcncWs.ts:720-740 | over every run an error is shown exactly when the last crash or awaited reply was one |
| PreviewClient.EmptiedStaysEmptyExactlyWhen | lcnc-webui/src/previewWorker.ts:20-28 | an emptied viewer stays empty until the next ping if and only if the version last asked for can no longer be answered: its first reply on the way is an error, or none is and the worker has given its request up |
| PreviewEndToEnd.AlwaysInv | lcnc-webui/src/previewWorker.ts:22-61 | over every run of server, network, worker and page each reply on its way is at least as new as the version it is for, and pings lead up to the server's version |
| PreviewEndToEnd.NewestWins | lcnc-webui/src/lcncWs.ts:720-748 | once the browser has handled a ping for version n, its viewer shows only what it showed then, nothing, or a payload published as version n or later, whatever the server does meanwhile |
| PreviewEndToEnd.NewestComes | lcnc-gateway/gateway.py:4393-4434 | from every run's state with nothing on its way, a payload of a version not yet asked for reaches the screen by one ping, one GET and one reply, in either encoding |
| PreviewEndToEnd.FailedLoadAllowsRetry | lcnc-webui/src/previewWorker.ts:28-61 | a load that fails on its way shows an error, keeps what is shown, and lets the next ping ask again |
| Camera.CameraBroker.Subscribe | lcnc-gateway/camera_broker.py:47-60 | under the lock: cancel the stop timer, take a slot, open the device when no producer runs |
| Camera.CameraBroker.Initialised | lcnc-gateway/camera_broker.py:54-60 | the end of the open: start the one producer, give the slot back, or lose it when the open raised |
| Camera.CameraBroker.Unsubscribe | lcnc-gateway/camera_broker.py:62-70 | the last viewer schedules one stop timer |
| Camera.CameraBroker.GraceStop | lcnc-gateway/camera_broker.py:72-77 | a stop task tears down only without subscribers |
| Camera.CameraBroker.Aclose | lcnc-gateway/camera_broker.py:79-86 | a shutdown drops every slot and tears down |
| Camera.CameraBroker.BeginTeardown | lcnc-gateway/camera_broker.py:88-98 | a live producer is cancelled and awaited first; none, or one that was cancelled, goes straight to the release; one that failed raises |
| Camera.OneProducer | lcnc-gateway/camera_broker.py:40-60 | over every interleaving at most one producer runs, and it is the broker's |
| Camera.SubscribeStopsTheTimer | lcnc-gateway/camera_broker.py:49-60 | from every reachable state a new viewer takes a slot and leaves no timer that the handle names, and the device is opened exactly when no producer runs |
| Camera.ReleaseIsExclusive | lcnc-gateway/camera_broker.py:88-98 | while the device is released nothing runs or opens it, until the release ends |
| Camera.TeardownOnlyWhenEmpty | lcnc-gateway/camera_broker.py:72-77 | from start to end a grace teardown sees no subscriber and no viewer |
| Camera.EmptyMeansStopping | lcnc-gateway/camera_broker.py:62-77 | zero subscribers with a running producer means a stop is pending, and the pending steps alone end the producer |
| Camera.StopsExactlyWhenNothingLost | lcnc-gateway/camera_broker.py:53-58 | once the last viewer has left, the device can be released without a shutdown exactly when no slot was lost to a raised open or a stream that never began |
| Camera.ReleasableExactlyWhenNotFailed | lcnc-gateway/camera_broker.py:88-98 | from every reachable unlocked state a shutdown or grace stop can lead to a release, before a new viewer, if and only if there is no producer task, or it is alive, or it ended by being cancelled |
| Camera.ShutdownReleasesExactlyWhenNotFailed | lcnc-gateway/gateway.py:3855-3903 | from every reachable unlocked state cancelling the background tasks and closing the broker is at the release, with nothing running, if and only if the producer had not failed |
| Camera.FailedProducerIsReached | lcnc-gateway/camera_broker.py:91-98 | a viewer and a failure of its producer reach a state from which no shutdown or grace stop releases the device |
| Camera.GraceHeldExactlyWhenAlone | lcnc-gateway/camera_broker.py:62-77 | when the last viewer leaves, a teardown can begin before its grace timer fires if and only if a stop task or timer of an earlier grace is still about |
| CameraGrace.StopRunsOnce | lcnc-gateway/camera_broker.py:62-77 | a grace timer is scheduled or fired, never both, and once its stop task has had the lock it never comes back in any run |
| CameraGrace.LastLeaverStartsTheGrace | lcnc-gateway/camera_broker.py:62-70 | from every reachable state the last viewer to leave a task starts a new timer unless one is recorded, and any other starts none |
| CameraGrace.AllLeavingStopsExactlyWhenNothingLost | lcnc-gateway/camera_broker.py:62-77 | once all viewers have unsubscribed a running camera can be released without a shutdown if and only if no slot was lost |
| CameraGrace.AbandonedStreamKeepsTheCameraOn | lcnc-gateway/gateway.py:5866-5885 | after a stream abandoned before it began no run releases the device without a shutdown |
| CameraGrace.LockComesFree | lcnc-gateway/camera_broker.py:45-98 | from every reachable state the lock comes free by at most two of the completions its holder awaits |
| ReaderRpc.HalBridge.Register | lcnc-gateway/hal_bridge.py:258-269 | a request gets a new id and an unfinished future in the table, or is refused when disconnected |
| ReaderRpc.HalBridge.PopPending | lcnc-gateway/hal_bridge.py:274-281 | a failed write or a timeout takes the request out of the table and touches nothing else |
| ReaderRpc.HalBridge.OnMessage | lcnc-gateway/hal_bridge.py:227-232 | a snapshot replaces the state; a reply takes its id out of the table and finishes its future unless done |
| ReaderRpc.HalBridge.OnDisconnect | lcnc-gateway/hal_bridge.py:243-248 | every pending unfinished future fails, others keep their outcome, the table is emptied |
| ReaderRpc.AlwaysInv | lcnc-gateway/hal_bridge.py:186-284 | over every interleaving each open request is in the table or has its outcome, and outcomes carry the request's own id |
| ReaderRpc.CompletedOnce | lcnc-gateway/hal_bridge.py:229-232 | a finished future never changes again |
| ReaderRpc.IdsAreFresh | lcnc-gateway/hal_bridge.py:264-269 | ids are never reused, across reconnects too |
| ReaderRpc.ReplyIsOwn | lcnc-gateway/hal_bridge.py:277-284 | a request only ever returns the reply that bears its own id |
| ReaderRpc.DisconnectFailsAll | lcnc-gateway/hal_bridge.py:244-248 | a disconnect leaves the table empty and no caller waiting |
| ReaderRpc.ReplyReaches | lcnc-gateway/hal_bridge.py:229-232 | while a request waits, a reply with its id finishes it |
| ReaderRpc.StateIsLastSnapshot | lcnc-gateway/hal_bridge.py:227-228 | over every run the state is the last snapshot received, across disconnects too |
| ReaderRpc.TableHoldsOpenRequests | lcnc-gateway/hal_bridge.py:274-281 | nothing leaks: over every run each table entry belongs to a request that is still open or in its timeout |
| ReaderRpc.ExchangeReturns | lcnc-gateway/hal_bridge.py:258-284 | over every run a request that is written and answered returns its reply |
| ReaderRpc.FailedWriteRaises | lcnc-gateway/hal_bridge.py:270-276 | over every run a request that cannot be written raises and leaves the table |
| ReaderRpc.TimeoutRaises | lcnc-gateway/hal_bridge.py:277-281 | a request whose time runs out raises, leaves the table, and its future is finished |
| ReaderRpc.LostConnectionRaises | lcnc-gateway/hal_bridge.py:243-248 | a waiting request raises once the connection has been cleaned up |
| ReaderRpc.Reconnects | lcnc-gateway/hal_bridge.py:186-250 | from every state the end of the socket, its clean-up and a connect lead to a fresh connection |
| TripLatch.FlaggedExactlyAtTransitions | lcnc-gateway/gateway_util.py:163-216 | a trip is flagged exactly at a clear-to-latched transition with missing readings erased, a boot fault exactly when the first level is latched |
| TripLatch.TripsAreRises | lcnc-gateway/gateway_util.py:163-216 | over any readings there are as many trips as clear-to-latched transitions |
| TripLatch.MissingReadingsAreErased | lcnc-gateway/gateway_util.py:198-199 | missing readings never change anything |
| Arming.HoldTable.Register | lcnc-gateway/gateway.py:333-344 | a hold is added with ten seconds to live, after expired ones are dropped |
| Arming.HoldTable.PeekHold | lcnc-gateway/gateway.py:347-361 | granted, expired or absent, without consuming |
| Arming.HoldTable.Consume | lcnc-gateway/gateway.py:364-370 | the hold of one session is removed |
| Arming.HoldTable.Prune | lcnc-gateway/gateway.py:373-379 | exactly the expired holds are removed |
| Arming.RunKeepsInv | lcnc-gateway/gateway.py:5374-5490 | over every timed run the trace is well backed, every hold has an unused registration, and the gate is closed exactly while a trip is unacknowledged |
| Arming.ResumesAreBacked | lcnc-gateway/gateway.py:5394-5434 | each resume comes within ten seconds of a registration nothing had used, and neither a resume nor an arming happens while a trip is unacknowledged |
| Arming.NoResumeAfterStall | lcnc-gateway/gateway.py:5263-5277 | after a completed stall clean-up no resume of that session precedes a new registration |
| Arming.GrantsNeverExceedRegistrations | lcnc-gateway/gateway.py:5426-5434 | per session, resumes plus a hold still there never outnumber registrations |
| Arming.GateClosesExactlyAtTrips | lcnc-gateway/gateway.py:1471-1486 | a poll closes the arming gate exactly at a clear-to-latched transition of the run's readings |
| ArmingClients.ArmedIsTheLastWord | lcnc-gateway/gateway.py:5394-5451 | over every run a client is armed if and only if the last event to bear on it armed it: an arming through an open gate or a granted resume, against a disarm, a heartbeat over three seconds old at a stall check, a lost controller or a disconnect |
| ArmingClients.InFlightIsTheLastWord | lcnc-gateway/gateway.py:5263-5277 | over every run a disarm, a stall clean-up and an armed leaving are in flight for a client exactly from the event that starts each to the one that ends it |
| ArmingClients.SessionIsTheLastName | lcnc-gateway/gateway.py:5374-5393 | a client's session is the last name its hellos gave, an empty one naming none |
| ArmingClients.LiveExactlyWhenEarned | lcnc-gateway/gateway.py:333-379 | over every timed run a session's hold is live at a time if and only if the session earned one at most ten seconds before that nothing has spent since, whatever other sessions did |
| ArmingClients.ExpiredHoldIsDropped | lcnc-gateway/gateway.py:5394-5434 | a hello that asks for an expired hold takes it out of the table and arms nobody |
| ArmedResume.ResumableExactlyWhenHoldLive | lcnc-gateway/gateway.py:5394-5434 | from any state and time some continuation without a new registration grants a session a resume if and only if its hold is in the table and not expired |
| ArmedResume.ResumeAfterStallExactlyWhenHoldLive | lcnc-gateway/gateway.py:5263-5277 | over every run: after the stall disarm of a client some continuation in which its session registers no hold grants it a resume if and only if its hold is live at the disarm |
| ArmedResume.ResumeDuringCleanUp | lcnc-gateway/gateway.py:5265-5277 | with a live hold, a second connection of the session comes back armed during the clean-up's wait, the stalled client being connected throughout |
| ArmedResume.CleanUpPreventsExactlyWhenConnected | lcnc-gateway/gateway.py:5275-5277 | the end of a clean-up rules out every later resume without a new registration exactly when the stalled client is still connected under the session |
| ArmedResume.DropDuringCleanUp | lcnc-gateway/gateway.py:5744-5745 | a stalled client that drops during its clean-up takes it along and leaves every hold, so its session can resume without a new one exactly when its hold is live |
| ArmedResume.MissedHoldResumes | lcnc-gateway/gateway.py:5263-5277 | a run in which a stalled tab comes back armed with no arming and no new hold after the stall |
| ArmedResume.LastBeatIsKnown | lcnc-gateway/gateway.py:5368 | over every run the last-heartbeat time of a client is that of its last connection, heartbeat, arming, disarming or granted resume |
| ArmedResume.LeavingResumesExactlyWhenBeating | lcnc-gateway/gateway.py:5719-5743 | over every run: a client that left armed lets a session with no other live hold resume at a time u if and only if it had that session, its last sign of life lay at most two seconds before the end of its clean-up, and u is within ten seconds of that end |
| ArmedResume.LiveHoldStays | lcnc-gateway/gateway.py:333-379 | over every timed run up to its expiry a hold stays as it is unless its own session resumes, registers anew or is dropped by a stall, whatever other sessions do |
| ArmedResume.LeavingLasts | lcnc-gateway/gateway.py:5719-5743 | a session whose tab left armed with a recent beat can resume throughout its ten seconds, whatever other sessions register, drop or resume meanwhile |
| MathEval.Parser.ParseExpr | lcnc-webui/src/mathEval.ts:33-43 | the cursor loop over + and - gives the left-associative value or the error, and stops where the specification stops |
| MathEval.Parser.ParseTerm | lcnc-webui/src/mathEval.ts:45-60 | the same for * and /, with division by zero as an error |
| MathEval.Parser.ParseFactor | lcnc-webui/src/mathEval.ts:62-76 | signs, parentheses and numbers, terminating on the remaining tokens |
| MathEval.Tokenize | lcnc-webui/src/mathEval.ts:7-29 | the scanner returns the token list, or null at the first character that fits nothing |
| MathEval.EvaluateText | lcnc-webui/src/mathEval.ts:78-91 | trimming, scanning and parsing, null for empty text, trailing tokens or an error |
| MathGrammar.EvaluatesDerivation | lcnc-webui/src/mathEval.ts:33-76 | on the yield of any derivation the parser gives the derivation's value, and an error exactly when a divisor in it is zero |
| MathGrammar.EvaluatorMatchesGrammar | lcnc-webui/src/mathEval.ts:78-91 | the evaluator returns v exactly when the tokens derive from the precedence grammar, no divisor is zero and v is the left-associative value |
| MathGrammar.Unambiguous | lcnc-webui/src/mathEval.ts:33-76 | two derivations of the same tokens have the same value |
| MathPrint.TokenizeRendered | lcnc-webui/src/mathEval.ts:7-29 | the scanner reads any spacing of printed lexemes back as their tokens |
| MathPrint.PrintedTreeEvaluates | lcnc-webui/src/mathEval.ts:78-91 | printing any expression tree, with signs, chosen and needed parentheses and any spacing, and evaluating the text gives the tree's value, null exactly on a zero divisor |
| MathPrint.TrimsExactlyWhiteSpace | lcnc-webui/src/mathEval.ts:79 | trimming takes off exactly the 25 code points of white space and line terminators (ECMA-262, sections 12.2 and 12.3) |
| MathText.EvaluatesExactlyWhenSpelt | lcnc-webui/src/mathEval.ts:7-91 | a string evaluates to v if and only if, trimmed, it spells with any blanks the tokens of a derivation with no zero divisor and value v |
| MathText.OrdinaryExactlyWhenNoSecondPoint | lcnc-webui/src/mathEval.ts:13-19 | a string that evaluates is ordinary arithmetic of that value, every number with at most one point, if and only if no two points in it have only digits and points between them |
| MathText.SecondPointIsCut | lcnc-webui/src/mathEval.ts:13-19 | a number is cut at its second point, whatever digits and points follow |
| Text.Fixed6RoundTrip | lcnc-gateway/tool_table.py:73 | a number printed with six decimals reads back as itself for every sign option and width |
| Text.WordsCons | lcnc-gateway/status_runtime.py:66 | splitting on whitespace yields a leading word and the split of the rest |
| Text.SpacesAreExactly | lcnc-gateway/status_runtime.py:66 | splitting and stripping treat exactly the 29 code points of Python's white space as such |
| StableSort.SortIsStable | lcnc-gateway/status_runtime.py:92 | sorting is ordered and keeps the order of elements of one key |
| ToolTable.WriteToolTable | lcnc-gateway/tool_table.py:64-77 | the file is the heading and one row per tool in stable order of tool number |
| ToolTable.ParseToolTable | lcnc-gateway/tool_table.py:28-61 | the line loop skips blanks, comments and rows without a tool number, and fails where a number does |
| ToolTableTheorem.RoundTrip | lcnc-gateway/tool_table.py:28-77 | for clean remarks, reading what was written gives the tools in stable order with the same T, P, Z, D, stripped remark and X = Y = 0, without those of negative number |
| ToolTableTheorem.WrittenInOrder | lcnc-gateway/tool_table.py:67 | for every table with clean remarks what is read back never decreases in tool number and holds, for each number, that number's tools in the order they were given |
| ToolTableTheorem.RoundTripExactlyWhenClean | lcnc-gateway/tool_table.py:28-77 | for non-negative numbers the round trip holds exactly when no remark hides a line break |
| ToolTableTheorem.BrokenRemarkIsLost | lcnc-gateway/tool_table.py:74-76 | a remark over a line break is not read back |
| ToolTableByHand.LineParses | lcnc-gateway/tool_table.py:34-60 | a tool line with any blanks, fields in any order and number, other text and a remark gives each letter its last number, 0 if it has none, and the stripped remark; it fails exactly when some number is none |
| ToolTableByHand.ColumnOrderIsIrrelevant | lcnc-gateway/tool_table.py:31-33 | swapping two neighbouring fields of different letters leaves the tool as it is |
| VarFile.ReadVarFile | lcnc-gateway/status_runtime.py:60-68 | a read gives the last value of every wanted key and fails exactly when a wanted line holds no number |
| VarFile.LineGivesSecondWord | lcnc-gateway/status_runtime.py:64-67 | a line gives its first word the value of its second, and nothing with fewer than two words |
| VarFile.ReplaceMatching | lcnc-gateway/status_runtime.py:79-84 | every matching line is replaced and the matched keys are collected |
| VarFile.WriteVarFileUpdates | lcnc-gateway/status_runtime.py:71-93 | replace, append what is missing, and sort only then |
| VarFile.ApplyVarPatches | lcnc-gateway/gcode_canon.py:140-166 | replace and append without sorting |
| VarFile.PatchIsOverlay | lcnc-gateway/gcode_canon.py:149-164 | after patching, updated keys read the new value and every other key its old last value |
| VarFile.PatchedLineByLine | lcnc-gateway/gcode_canon.py:152-161 | patching changes only the lines of updated keys and adds one line for each key that had none; every other line stays as it is, where it is |
| VarFile.WrittenSameLines | lcnc-gateway/status_runtime.py:71-93 | the sorting writer writes the very lines patching would, in another order at most, and in the same one when nothing is inserted |
| VarFile.SortKeepsLastValue | lcnc-gateway/status_runtime.py:89-92 | sorting by key number never changes which line of a key is last |
| VarFile.InsertedFileIsSorted | lcnc-gateway/status_runtime.py:89-92 | after an insertion the numbers of the written lines never decrease, a line without a number counting as 999999 |
| VarFile.OverlayExactlyWhenKeysAreWords | lcnc-gateway/status_runtime.py:71-93 | for every file whose last line is ended, by a newline or a carriage return, writing and patching are overlays on all keys exactly when every updated key is a word |
| VarFile.WrittenValueReadsBack | lcnc-gateway/status_runtime.py:82-88 | each value written with six decimals is the value read |
| VarFileUnterminated.PatchIsOverlayExactlyWhen | lcnc-gateway/gcode_canon.py:149-164 | for every file with an unterminated last line, patching is an overlay if and only if no key is missing, the last line is itself replaced, or it is blank or the one odd case |
| StableSort.SortAroundOne | lcnc-gateway/status_runtime.py:92 | a stable sort puts an element behind the earlier ones no greater and the later ones smaller, and in front of all others |
| VarFileSorted.WriteIsOverlayExactlyWhen | lcnc-gateway/status_runtime.py:71-93 | for every file with an unterminated last line, the sorting writer's output is an overlay if and only if nothing is inserted, or the last line is replaced or sorts last, or its join with the line that sorts next does no harm, told from the words of the two lines |
| VarFileSorted.OrdinaryWriteExactlyWhenSortsLast | lcnc-gateway/status_runtime.py:71-93 | when every line starts with a word and the last holds a key and a value, writing is an overlay if and only if nothing is inserted, or the last line is replaced or sorts last |
| VarFileSorted.WriteIsOverlayWithoutInsert | lcnc-gateway/status_runtime.py:79-93 | when the last line is replaced or nothing is inserted, writing is an overlay |
| VarFileSorted.InsertBehindExactlyWhenBlank | lcnc-gateway/status_runtime.py:86-93 | when an inserted line sorts right behind the unterminated one, writing is an overlay if and only if that line is blank or the one odd case |
| ProgramTimer.StatusRuntime.UpdateProgramTimer | lcnc-gateway/status_runtime.py:420-462 | one poll updates the five timer fields and reports the elapsed milliseconds |
| ProgramTimer.ReportAccuracy | lcnc-gateway/status_runtime.py:420-462 | over every poll sequence the report exceeds running time plus the leading pause by more than -1 and at most k ms, k being the resumed pauses |
| ProgramTimer.AccurateWhenRunsStartUnpaused | lcnc-gateway/status_runtime.py:420-462 | when runs start unpaused the same bound holds for running time alone |
| ProgramTimer.NeverNegative | lcnc-gateway/status_runtime.py:462 | the clamp at zero never changes the report |
| ProgramTimer.ReportMonotone | lcnc-gateway/status_runtime.py:441-462 | within a run the report never goes back and stands still while paused or idle |
| ProgramTimer.LeadingPauseIsCounted | lcnc-gateway/status_runtime.py:435-443 | a run first seen paused reports its pause as running time |
| ProgramTimer.LeadBreaksAccuracy | lcnc-gateway/status_runtime.py:435-443 | while a run has only been seen paused the bound holds exactly as long as that stretch is under one millisecond |
| ProgramTimer.FirstPollDecidesAccuracy | lcnc-gateway/status_runtime.py:435-443 | at the poll that starts a run: the report stays within (-1, k] ms of the running time through every continuation of that run if and only if that poll does not see it paused |
| PhaseRing.PhaseLog.SetPhase | lcnc-gateway/gateway.py:625-636 | a marker is appended while the ring fills and overwrites the oldest slot afterwards |
| PhaseRing.PhaseLog.RingSnapshot | lcnc-gateway/gateway.py:639-644 | the slots in chronological order, from the oldest |
| PhaseRing.SnapshotIsLast | lcnc-gateway/gateway.py:618-644 | after any number of markers the snapshot is exactly the last 256 in order |
| PhaseRing.PhaseWindow | lcnc-gateway/gateway.py:692-712 | the loop clips to the window exactly the phases that overlap it |
| PhaseRing.WindowTiles | lcnc-gateway/gateway.py:692-712 | when the oldest marker is no later than the start, the clipped phases tile the window in order and their durations sum to its length |
| PhaseRing.WindowCoveredExactlyWhen | lcnc-gateway/gateway.py:692-712 | the durations sum to the window's length exactly when the window is empty or the oldest marker is no later than its start |
| PhaseRing.RingCoversExactlyWhen | lcnc-gateway/gateway.py:618-712 | the same for the ring's own snapshot, whose oldest marker is the 256th last |
| PhaseRing.EntriesNameThePhase | lcnc-gateway/gateway.py:692-712 | at every time of the window that an entry covers, it names the phase the loop was in then |
| PhaseRing.OverlappingPhaseIsShown | lcnc-gateway/gateway.py:692-712 | every phase that ends after the window's start and begins before its end has an entry, its part inside the window |
| PhaseRing.EntryShows | lcnc-gateway/gateway.py:692-712 | every entry is the part inside the window of a phase that overlaps it, in milliseconds |
| PhaseRing.DominantPhase | lcnc-gateway/gateway.py:715-722 | the name returned has the largest total duration, none for an empty window |
| PhaseRing.DominatesMeans | lcnc-gateway/gateway.py:715-722 | the dominant name occurs in the window, and its entries' durations add up to at least those of any other name there |
| MdiChunks.FormattedIsItem | lcnc-gateway/gateway.py:3343 | a formatted assignment is a non-empty item without surrounding blanks |
| MdiChunks.FormattedReadsBack | lcnc-gateway/gateway.py:3343 | a formatted assignment is #, the key, = and a number that reads back as the value |
| MdiChunks.PackChunks | lcnc-gateway/gateway.py:3344-3352 | the greedy loop returns the lines of the greedy packing |
| MdiChunks.ChunksRejoin | lcnc-gateway/gateway.py:3344-3352 | the lines rejoined with spaces are the items in order, none lost or repeated |
| MdiChunks.ControllerReadsItems | lcnc-gateway/gateway.py:3344-3352 | split at blanks the lines give back the assignments, each one and in order |
| MdiChunks.ChunksFitExactlyWhenItemsDo | lcnc-gateway/gateway.py:3346 | every line is at most 250 characters exactly when every item is |
| MdiChunks.PackIsOptimal | lcnc-gateway/gateway.py:3344-3352 | no order-preserving packing within the limit uses fewer lines |

## Left out

- FastAPI routes, WebSocket accept and authentication, settings, dialogs and UI state: plumbing that would add only easy members.
- `command_policy.py` and `permissions.ts`: finite tables.
- Statistics, arc tessellation and rotation in the parse worker: trigonometry, no property across functions.
- The oneshot and the latch are sampled continuously; the one-millisecond period of the servo thread is not modelled, nor is the operator's own E-stop input, which can only open the chain.
- Watchdog.Process.Received: one instant per message, although the code reads the clock several times while it handles one; stripping and JSON decoding of a line are a parameter of the framing model; log and trace output is left out.
- Watchdog.Process.Accepted: the accept itself cannot fail, and a read from a replaced socket is never handled, as in the code.
- Numbers are exact: reals where the code has floats, millionths where it prints six decimals. Rounding of durations and of values with more decimals, infinities and NaN are not modelled.
- MathEval.EvaluateText: does not model the final `isFinite` test, because exact arithmetic never overflows.
- PhaseRing.PhaseWindow: does not round the reported milliseconds to two decimals.
- Text.Fixed6RoundTrip: digits are the ASCII digits, where Python's `\d` and `float()` accept others too.
- StatusDelta.DiffStatusData: values are compared as Python compares booleans and numbers, by a datatype of nulls, numbers, strings and lists; nested dictionaries do not occur in the payload.
- StatusDelta.StatusLoop.Tick: `errors`, `clients`, `timing` and the one-shot tool metadata that travel beside `data` are not part of this model.
- Preview.PreviewIsCoherent: the parse depends on the file alone; the INI file, parameter patches and work offset passed to the worker are not tracked, since the payload is offset-free by design.
- Preview.GetIsNeverStale: the availability check in front of a GET and the `X-Preview-Version` header are not part of this model; the header is read after the body and may name a later version, and no client uses it.
- PreviewClient.OnlyLatestIsShown: decoding in the worker and the HTTP cache are not part of this model; surface points and the compensation grid use the same version guard.
- Camera.EmptyMeansStopping: in runs, viewers unsubscribe at most once, after a successful subscribe; a stream abandoned before it begins never does (`lcnc-gateway/gateway.py:5866-5885`). A stop task that is cancelled while it releases the device is taken to finish the release, as its thread does. Cancellation of a waiting subscribe, grabs that outlive a cancelled producer and subscribing after a shutdown are assumed absent. The length of the grace, frame delivery and the `/camera/status` route, which opens the device beside the broker, are left out.
- ReaderRpc.AlwaysInv: cancellation of a caller by its own task is assumed absent; a timeout may lose a reply that arrived at the same moment, as newer Python versions allow.
- Arming.RunKeepsInv: the wall clock of heartbeats and the monotonic clock of holds are one clock; shutdown and a missing command channel, which skip the jog stop and the hold, are assumed absent; session ids are strings, the empty one being none; the two theorems on leaving and stalling speak of a named session.
- ToolTable.WriteToolTable: atomic replacement of the file and the JSON sidecar are not part of this model.
- VarFile.ApplyVarPatches: a file that cannot be read or written is left as it is and the exception swallowed; the model takes the lines as read.
- VarFile.WriteVarFileUpdates: file access and its errors are left out; `int()` and `float()` of a word are parameters.
- MdiChunks.PackChunks: sending the lines and waiting for each is left out.
