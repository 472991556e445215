# Verified models of the home bridge's algorithms and protocols

Dafny models of the parts of this repository whose correctness cannot be read off one function: the
incremental session index and the chat bridge of `ia-bridge`, the seccomp filter of `restore`, the
lossless TAP packer of `scripts/local-ai`, the crash-safe proxy repair, the archive extraction of the
recovery guest, and the loops behind retrieval metrics, chunking, history backfill and event
deduplication. Check everything with `dafny verify dfyconfig.toml`.

| files | source |
|---|---|
| `SessionLines`, `UsageFold`, `UsageAccounting`, `UsageLatest`, `UsageIndex`, `UsageReader`, `UsageMerge` | `ia-bridge/usage.js` |
| `SeccompFilter` | `restore/process-boundary.c` |
| `Utf8`, `JsonText`, `TapRecord`, `TapScan`, `TapPacker`, `TapCompact`, `TapText` | `scripts/local-ai/compact_output.py`, `scripts/local-ai/run.py` |
| `ProxyRepair` | `ia-bridge/local-ai-proxy-repair.js` |
| `SessionBridge`, `SessionMutex`, `SessionClear`, `SessionRecord` | `ia-bridge/server.js` |
| `TurnLog` | `ia-bridge/history.js` |
| `RetrievalMetrics`, `SpanChunker` | `local-ai-research/pivot_benchmark.py` |
| `ErrorClusters` | `local-ai-research/high_potential_benchmark.py` |
| `ArchivePaths`, `GuestArchive`, `GuestAcceptance`, `GuestRequired` | `restore/guest_archive.py` |
| `ObserverState` | `scripts/host-observation/observer.py` |
| `RecorderBackfill` | `homeassistant/tools/backfill_public_binding_history.py` |
| `Common`, `Folds` | shared definitions |

What is foreign to an algorithm is a parameter: `JSON.parse` (a function from a line to what it holds),
SHA-256 and the edge anchors (an arbitrary digest), file contents and `stat` results, regular
expressions for symbols, discounts, and the outcome of remote commands. Assumptions about a parameter
are named predicates in the lemma that needs them.

## What the proofs found

- A line holding JSON `null` makes `consumeCodexUsageLine` throw (`ia-bridge/usage.js:1440`), and no
  later growth of the file makes it readable again (`NullLineIsPermanent`, an instance of
  `ThrowingLineIsPermanent`). All other results on the index say what happens in that case too.
- The session prefix test covers other ids that extend the cleared one after a colon
  (`ClaudeKeysCovered`, `CodexKeysCovered`): clearing "a" is refused while "a:b" runs and deletes its
  sessions. For ids without a colon the test is exact (`ColonFreeIdsExact`).
- `appendTurn` behind an unfinished last line loses the turn it appends
  (`AppendAddsTurnExactlyAtLineStart` gives the exact condition).
- A file that is judged both critical and supporting puts an nDCG of 1 out of reach as soon as the
  part of the ideal ranking that is read lists it twice
  (`IdealAttainedExactlyWithoutRepeats`).
- A backfill from a source without any timestamp copies everything again on every run
  (`SecondRunCopiesNothing`).
- A crash or the 25-second time-out of a remote command ends the call but not the command. Removing the
  actuator's lock is safe exactly when no call is suspended and no remote command is at work
  (`ReconcileSafeExactlyWhenIdle`): a command left behind is then joined by a second one
  (`EarlyReconcileBreaksSingleFlight`), and so is one started next if a call still waits for the bridge's
  own probe, because that call removes the other one's lock when it ends
  (`SuspendedCallFreesForeignLock`).
- `readTurns` honours its limit exactly when it is positive or the history is empty
  (`LimitHonouredExactlyWhenPositive`): `slice(-0)` is everything. No caller here passes 0; the server
  clamps to 1..500 (`ia-bridge/server.js:470`), and `listConversations` asks for `MAX_SAFE_INTEGER`.

## Model

| member | source | states |
|---|---|---|
| SessionLines.SegmentsJoin | ia-bridge/usage.js:1524-1532 | splitting a log at newlines loses nothing: the segments join back to the content |
| SessionLines.SplitUnique | ia-bridge/usage.js:1524-1532 | a list of newline-free segments is what its join splits into, so the split is the only one |
| SessionLines.AppendPlain | ia-bridge/usage.js:1532 | bytes without a newline only lengthen the unfinished tail |
| UsageFold.Delta | ia-bridge/usage.js:1441-1446 | every counter's increment is its growth since the last report, or all of it after a reset, negatives clamped |
| UsageFold.ViewIsNaiveReading | ia-bridge/usage.js:1467-1475 | the committed fold plus the provisional tail is the plain "split on newline and fold" of the whole content, failures included |
| UsageFold.TailCountedOnce | ia-bridge/usage.js:1467-1473 | a tail that a newline completes later is committed as exactly what the provisional view had counted |
| UsageFold.ThrowingLineIsPermanent | ia-bridge/usage.js:1440 | once a complete line throws, every extension of the file is unreadable |
| UsageAccounting.FoldIsApplyAll | ia-bridge/usage.js:1433-1465 | a scan succeeds exactly when no line throws, and is then the fold of its token events in order |
| UsageAccounting.TotalsAreClimbTotals | ia-bridge/usage.js:1441-1447 | each total is the sum of the last values of the maximal non-decreasing runs of that counter |
| UsageAccounting.ScannedDaysAddUp | ia-bridge/usage.js:1447-1453 | in every state a scan reaches, the per-day records of each counter sum to its total |
| UsageAccounting.DaysChargedByEvents | ia-bridge/usage.js:1449-1452 | a day's record of each counter is what the events of that day added to its climb total, and a day has a record exactly if it has an event |
| UsageAccounting.CountsNonNegative | ia-bridge/usage.js:33-38 | no total or day record of a scanned state is ever negative |
| UsageAccounting.PublishedCounters | ia-bridge/usage.js:1433-1475 | the published total of every counter is the climb total over all segments, tail included, and the days add up to it |
| UsageAccounting.PublishedDays | ia-bridge/usage.js:1465-1473 | the same of the day records that are published of a file, tail included |
| UsageLatest.LatestRemembered | ia-bridge/usage.js:1454-1462 | after any events each of the four latest snapshots is None exactly if no event carries it, else that of the first of the latest events that do, and the events are counted |
| UsageLatest.RatesInOrder | ia-bridge/usage.js:1460 | the rate samples are those of the primary events, each once and in order |
| UsageLatest.PublishedLatest | ia-bridge/usage.js:1465-1473 | the published snapshots and counts are those of the file's token events, tail included |
| UsageAccounting.NullLineIsPermanent | ia-bridge/usage.js:1440 | under any reader that throws on `null`, one complete `null` line anywhere makes the file and all its later versions unreadable |
| UsageIndex.TokenRecord.Add | ia-bridge/usage.js:33-38 | every counter of the target grows by the usage where that is positive, in place |
| UsageIndex.UsageState.Empty | ia-bridge/usage.js:1418-1424 | a new state is empty and owns its containers |
| UsageIndex.UsageState.Copy | ia-bridge/usage.js:1426-1431 | a copy has the same value in new containers while it shares the day records |
| UsageIndex.UsageState.Consume | ia-bridge/usage.js:1433-1465 | one line changes the state as the fold says; only the state's own containers are written, never a day record another state shares |
| UsageIndex.Summarize | ia-bridge/usage.js:1467-1475 | publishes the view of state and tail and modifies nothing that existed before |
| UsageIndex.ChunkNewline | ia-bridge/usage.js:1527 | a newline found from an offset in a chunk is the next one in the file |
| UsageIndex.LineCommits | ia-bridge/usage.js:1527-1530 | the carried parts and the bytes up to the newline are exactly the line the fold commits next, and the file is unreadable for good if it throws |
| UsageIndex.RestCarries | ia-bridge/usage.js:1532 | what was carried and the rest of a chunk are the unfinished tail, and nothing more is committed |
| UsageIndex.ScanChunk | ia-bridge/usage.js:1526-1532 | the loop over one chunk moves the state from the fold of the prefix before it to the fold of the prefix after it |
| UsageIndex.Scan | ia-bridge/usage.js:1520-1533 | from any scanned prefix and for every chunk size the loop ends in the fold of the whole content with its tail pending, and fails exactly when a line throws |
| UsageReader.GrowthResumes | ia-bridge/usage.js:1516-1518 | a grown file with the same identity and the old bytes as prefix is resumed, not rescanned |
| UsageReader.RewrittenIsRescanned | ia-bridge/usage.js:1516-1522 | a cached entry is not resumed when the first or last 512 bytes of its extent were rewritten |
| UsageReader.GrownIsStable | ia-bridge/usage.js:1537-1540 | a file that only grew while it was read is no change |
| UsageReader.ChangeIsNoticed | ia-bridge/usage.js:1537-1540 | a file cut short, replaced or touched at the same size is a change |
| UsageReader.RewriteIsNoticed | ia-bridge/usage.js:1537-1540 | so is a rewrite of the first or last 512 bytes of what was there |
| UsageReader.TryOnce | ia-bridge/usage.js:1509-1545 | one attempt, resumed or not, yields an entry that is a full scan of the bytes it opened, or the verdict that the stats before, after and of the name and the two anchor readings call for |
| UsageReader.UpdateFile | ia-bridge/usage.js:1506-1554 | with one retry on an unstable snapshot, the entry is a full scan of the deciding attempt's bytes, whatever entry it resumed from |
| UsageReader.RefreshFile | ia-bridge/usage.js:1728-1744 | a file is left alone, indexed or dropped as its fingerprint and attempts say; the index stays sound |
| UsageReader.RefreshListed | ia-bridge/usage.js:1724-1744 | after the loop every listed file is settled, or the loop stopped at the first file that cannot be, with its verdict, the files before it settled, all others untouched and a sound index |
| UsageReader.CodexUsageReader.RefreshSessionIndex | ia-bridge/usage.js:1723-1749 | succeeds exactly if every listed file can be settled; then the index holds exactly the listed files still present, each summary equal to a fresh scan; otherwise the error is that of the first file that cannot, and every entry is still a complete snapshot |
| UsageReader.CodexUsageReader.ReadCollection | ia-bridge/usage.js:1751-1759 | before the refresh interval is over nothing changes; a due collection succeeds exactly if the refresh does and then publishes the summaries of the refreshed index with the current time, and a failed one leaves what was published |
| UsageMerge.AddDays | ia-bridge/usage.js:1597-1601 | merging a file's days adds what is positive of its records, day by day |
| UsageMerge.Build | ia-bridge/usage.js:1576-1602 | the report loop is the merge of the summaries that are present |
| UsageMerge.DayTotalMerge | ia-bridge/usage.js:1597-1601 | the day sums of a merge are the sum of the day sums |
| UsageMerge.MergedDaysAddUp | ia-bridge/usage.js:1576-1602 | if what is taken of every file's days sums to what is taken of its totals, the report's days sum to the report's totals |
| UsageMerge.ScannedIsTaken | ia-bridge/usage.js:33-38 | of a summary that a scan produced, `addTokens` skips nothing |
| UsageMerge.ReportOfScans | ia-bridge/usage.js:1433-1602 | over the scans of any files, each of the report's totals is the sum of the climbs that the files report for that counter, and its days add up to it |
| UsageMerge.ReportCounts | ia-bridge/usage.js:1576-1602 | events and sessions add up, and the samples follow one another in the order of the files |
| UsageLatest.MergeKeepsLatest | ia-bridge/usage.js:1587-1598 | the report takes each latest snapshot whole from the first of the files whose snapshot is latest |
| UsageMerge.OrderIrrelevant | ia-bridge/usage.js:1576-1602 | totals, day sums, session and event counts, rate samples and latest timestamps do not depend on the order of the files |
| SeccompFilter.RunBehindPrefix | restore/process-boundary.c:60-102 | relative jumps make a block run the same behind any prefix |
| SeccompFilter.DenyBlocksMeetList | restore/process-boundary.c:70-86 | for an arbitrary list of denials the compiled blocks return the first denial of the number, or fall through |
| SeccompFilter.MasksDecideThreadOnly | restore/process-boundary.c:38-42 | the mask tests on the two argument words accept exactly the 64-bit arguments with a zero high word, every required flag and no flag outside the allowed set |
| SeccompFilter.FilterMeetsPolicy | restore/process-boundary.c:59-102 | for every ABI and every architecture word, number and argument, running the array ends in a RET with exactly the policy's verdict |
| SeccompFilter.ProcessCreationDenied | restore/process-boundary.c:70-96 | on x86-64 fork, vfork, clone3 and io_uring_setup are denied with their error numbers, and `clone` is allowed exactly for threads |
| SeccompFilter.AnswersOnX86 | restore/process-boundary.c:59-102 | every answer of the x86-64 filter, as numbers, with the thread masks 0x10900 and 0x17d0f00 |
| SeccompFilter.ProcessCreationDeniedOnArm | restore/process-boundary.c:78-96 | the same on AArch64, which has no fork or vfork number |
| SeccompFilter.AnswersOnArm | restore/process-boundary.c:59-102 | every answer of the AArch64 filter, as numbers |
| Utf8.DecodeEncode | scripts/local-ai/compact_output.py:95-99 | strict decoding undoes encoding |
| Utf8.EncodeDecode | scripts/local-ai/compact_output.py:59 | bytes that decode are the encoding of what they decode to |
| JsonText.BodyRoundTrip | scripts/local-ai/compact_output.py:18-19 | reading a written JSON string body gives the string back (section 7 of RFC 8259) |
| JsonText.ArrayRoundTrip | scripts/local-ai/compact_output.py:32 | a written payload array parses to the same items |
| JsonText.NatRoundTrip | scripts/local-ai/compact_output.py:93-94 | a written count reads back |
| TapRecord.MatchSound | scripts/local-ai/compact_output.py:8-11 | whatever the recogniser takes is the text of a valid record followed by the rest |
| TapRecord.MatchComplete | scripts/local-ai/compact_output.py:8-11 | every valid record followed by anything is recognised as itself |
| TapRecord.MatchExact | scripts/local-ai/compact_output.py:8-11 | a record is found exactly where the text starts with one |
| TapText.RecordLines | scripts/local-ai/compact_output.py:8-11 | the lines of a record, letter by letter |
| TapText.DurationText | scripts/local-ai/compact_output.py:10 | a duration is digits, or digits, a dot and digits |
| TapScan.RecordKeepsYaml | scripts/local-ai/compact_output.py:81-87 | a record opens and closes its own YAML block, so packing it hides no line from the tracking |
| TapScan.ScanIsSource | scripts/local-ai/compact_output.py:69-89 | the pieces of a scan, unpacked, are the source |
| TapScan.ScanResumes | scripts/local-ai/compact_output.py:69-89 | a scan can be cut between any two pieces: scanning the rest of the source, in the YAML state after all lines before it, packed ones included, gives the rest of the pieces |
| TapScan.PackedExactlyOutsideYaml | scripts/local-ai/compact_output.py:69-89 | a piece is packed exactly when no YAML block is open before it and a record starts there; every other piece is the line itself |
| TapText.BlockOpens | scripts/local-ai/compact_output.py:81-87 | a YAML block opens exactly at a line of spaces and three dashes, with that many spaces |
| TapText.BlockCloses | scripts/local-ai/compact_output.py:78-80 | it closes exactly at those spaces and three dots |
| TapPacker.PayloadRoundTrip | scripts/local-ai/compact_output.py:29-41 | a packed payload passes every check of the expander and gives its record back |
| TapText.PayloadText | scripts/local-ai/compact_output.py:18-19 | a payload is the JSON array of the three strings and the type or null, without spaces |
| TapPacker.ClearKeepsFirstLine | scripts/local-ai/compact_output.py:62-63 | in a source that passes the collision search the expander leaves every verbatim line alone |
| TapText.CollidesText | scripts/local-ai/compact_output.py:62-63 | the collision search finds exactly lines of spaces and the mark |
| TapPacker.ExpandUndoesScan | scripts/local-ai/compact_output.py:43-47 | expanding a scanned body gives the source and the record count, for every source that passes the collision search |
| TapCompact.HeaderRoundTrip | scripts/local-ai/compact_output.py:93-95 | the metadata line reads back |
| TapText.HeaderText | scripts/local-ai/compact_output.py:93-95 | the metadata line, letter by letter |
| TapText.EnvelopeIntegrity | scripts/local-ai/compact_output.py:43-47 | an envelope gives up a text exactly if its record count, length and digest are those of the metadata |
| TapCompact.ExpandUndoesPack | scripts/local-ai/compact_output.py:22-101 | expanding the packed envelope gives the source exactly |
| TapCompact.ScanSource | scripts/local-ai/compact_output.py:64-90 | the scanning loop writes the body and count that the scan describes |
| TapCompact.CompactOutput | scripts/local-ai/compact_output.py:50-101 | the branches of `compact_output`, in order |
| TapCompact.PackingIsLossless | scripts/local-ai/compact_output.py:50-101 | for every input and limit the fallback `roundtrip_failed` is unreachable and packed output restores the input |
| TapCompact.PackedExactlyWhenWorthwhile | scripts/local-ai/compact_output.py:54-101 | UTF-8 input is packed exactly when its size, the collision search, a record and the reduction allow it; the re-expansion check decides nothing |
| TapText.CompactReasons | scripts/local-ai/compact_output.py:50-61 | which inputs are too small, too large or no UTF-8, and the sizes reported |
| TapText.TextReasons | scripts/local-ai/compact_output.py:62-101 | which texts collide or hold no record, and the count reported |
| TapCompact.EmittedRestores | scripts/local-ai/compact_output.py:50-101 | UTF-8 input that does not start with the marker is restored from whatever was emitted for it |
| TapCompact.CompactIdempotent | scripts/local-ai/compact_output.py:62-63 | compacting an emitted output changes nothing |
| TapCompact.Run | scripts/local-ai/run.py:34-53 | for every chunking of the child's output the printed bytes are the raw stream beyond the limit and the compacted output otherwise |
| TapCompact.PrintedRestores | scripts/local-ai/run.py:34-53 | what is printed restores the child's bytes unless they start with the marker themselves |
| TapText.PrintedText | scripts/local-ai/run.py:34-53 | beyond 8 MiB the raw bytes, else what the packer gives for 4800 bytes, 8 MiB and 15 percent |
| ProxyRepair.Actuator.Begin | ia-bridge/local-ai-proxy-repair.js:59-74 | the span up to the first suspension: refusals, the stored receipt, the lock, and the started receipt |
| ProxyRepair.Actuator.Resume | ia-bridge/local-ai-proxy-repair.js:74-91 | what the remote report does to receipt and lock |
| ProxyRepair.Actuator.ResumeProbe | ia-bridge/local-ai-proxy-repair.js:79-91 | what the bridge's own probe does to receipt and lock |
| ProxyRepair.ProbeDecides | ia-bridge/local-ai-proxy-repair.js:78-83 | a call that waits for the probe ends ready exactly if the endpoint was reached, else failed, each with its reason |
| ProxyRepair.ReportDecides | ia-bridge/local-ai-proxy-repair.js:74-86 | a report other than ready ends the call with its own reason, unknown exactly for the four unsafe ones and else failed; no usable report is unknown |
| ProxyRepair.ReadyExactlyWhenReached | ia-bridge/local-ai-proxy-repair.js:74-91 | in every run a receipt says ready exactly if a probe that reached the endpoint ended that call |
| ProxyRepair.CrashOnTheWayOut | ia-bridge/local-ai-proxy-repair.js:83-90 | a crash between receipt and lock leaves the receipt that the call would have had, and the lock |
| ProxyRepair.AtMostOnce | ia-bridge/local-ai-proxy-repair.js:63-74 | over every run with any callers, ids, crash points and operators the remote command starts at most once for each id |
| ProxyRepair.KnownReceiptsFinal | ia-bridge/local-ai-proxy-repair.js:64 | a receipt with a known outcome never changes again |
| ProxyRepair.AtMostOneInFlight | ia-bridge/local-ai-proxy-repair.js:65-67 | if operators remove the lock only while nothing is under way, at most one remote command is at work in any run, commands that a crash or time-out left behind included, and it holds the lock |
| ProxyRepair.EarlyReconcileBreaksSingleFlight | ia-bridge/local-ai-proxy-repair.js:88-89 | removing the lock and calling again starts a second remote command beside another one exactly if one was still at work, its call suspended or not |
| ProxyRepair.SuspendedCallFreesForeignLock | ia-bridge/local-ai-proxy-repair.js:86-90 | a call that outlives the removal of its lock removes the lock of the next operation, so that a third starts beside it |
| ProxyRepair.ReconcileSafeExactlyWhenIdle | ia-bridge/local-ai-proxy-repair.js:59-91 | a lock removal keeps every disciplined future to one remote command at a time if and only if no call is suspended and no remote command is at work |
| ProxyRepair.BlockedUntilReconciled | ia-bridge/local-ai-proxy-repair.js:65-67 | a blocked actuator starts nothing for any id until an operator removes the lock |
| ProxyRepair.BlocksExactlyWhenAmbiguous | ia-bridge/local-ai-proxy-repair.js:84-90 | a step blocks the actuator exactly when it is a crash in flight or an unknown outcome |
| SessionBridge.Bridge.HandleChat | ia-bridge/server.js:567-579 | the pending record, and the request chained behind the tail of its key |
| SessionBridge.Bridge.CleanUp | ia-bridge/server.js:79-81 | the key goes only if the settled promise is still its tail |
| SessionBridge.Bridge.Finish | ia-bridge/server.js:607-637 | the handler resumes and appends its final record |
| SessionBridge.Bridge.HandleDelete | ia-bridge/server.js:490-521 | 409 and no change while a covered key is queued, otherwise the conversation's turns and exactly its stored sessions go, and both are counted |
| SessionMutex.TasksNeverOverlap | ia-bridge/server.js:74-82 | in every reachable state, of two tasks of one key the earlier is over before the later starts |
| SessionMutex.FailureDoesNotBlock | ia-bridge/server.js:77 | whatever the outcome of its predecessor, a waiting task can start once that one is cleaned up |
| SessionMutex.KeyMappedExactlyWhileInUse | ia-bridge/server.js:78-81 | a key is in the map exactly while some request of it is not cleaned up, and then names the last one |
| SessionMutex.NothingStuck | ia-bridge/server.js:74-82 | with no microtask left and nothing running every request is answered and the map is empty |
| SessionClear.ClaudeKeysCovered | ia-bridge/server.js:498-501 | a Claude key is covered exactly by its own id and by what it extends after a colon |
| SessionClear.CodexKeysCovered | ia-bridge/codex-options.js:36-40 | the same for a Codex key, whose options follow the id |
| SessionClear.OtherAgentNeverCovered | ia-bridge/server.js:498-501 | no key of the other agent is covered |
| SessionClear.ColonFreeIdsExact | ia-bridge/server.js:498-501 | between ids without a colon the test is exact for both agents |
| SessionClear.RefusedForAnotherId | ia-bridge/server.js:498-506 | for every id a run in which its DELETE is refused although no request of it arrived |
| SessionClear.RefusedExactlyWhileUnsettled | ia-bridge/server.js:499-506 | DELETE answers 409 exactly while a task under a covered key is waiting or running |
| SessionClear.DeleteFindsRequestsClosed | ia-bridge/server.js:490-521 | a DELETE that is not refused never falls between a request's pending and final record |
| SessionClear.WithoutKeepsOthers | ia-bridge/server.js:508-509 | clearing empties the conversation and keeps every other one's turns in order |
| SessionClear.KeyTexts | ia-bridge/server.js:567-569 | the session keys, letter by letter |
| SessionClear.ClearedTurnsStayAway | ia-bridge/server.js:490-637 | whatever ran before and runs after, every turn of a cleared conversation belongs to a request that arrived after the DELETE |
| SessionClear.FinalMeetsItsPending | ia-bridge/server.js:570-637 | a final turn is always appended to a log that still holds its pending turn, if that was written |
| SessionRecord.LogStep | ia-bridge/server.js:490-637 | an arrival that is recorded appends exactly its pending turn, a close exactly its final turn, and nothing but a DELETE takes turns away |
| SessionRecord.RecordedOnceUnlessErased | ia-bridge/server.js:570-637 | over every run a recorded turn, pending or final, is in the log exactly once, unless a DELETE of its conversation came later; then it is gone |
| SessionRecord.OnlyRecordedTurns | ia-bridge/server.js:570-637 | nothing else is in the log |
| SessionRecord.FinalBehindPending | ia-bridge/server.js:570-637 | a final turn stands behind its pending one |
| TurnLog.TurnsConcat | ia-bridge/history.js:103 | a newline separates two logs: what is read is what is read of each |
| TurnLog.TruncatedTailKeepsTurns | ia-bridge/history.js:115-117 | a partly written final line leaves every earlier turn readable |
| TurnLog.ReplayHasNoRepeatedId | ia-bridge/history.js:109-114 | no id is listed twice |
| TurnLog.ReplayIsFirstPositionLastValue | ia-bridge/history.js:109-114 | the view lists the ids by first appearance, each with its last record |
| TurnLog.SelectKeepsAsked | ia-bridge/history.js:107-108 | a read keeps exactly the turns of the agent and the conversation that are asked for, where given and not empty, each in its place |
| TurnLog.UnfilteredView | ia-bridge/history.js:92-120 | a read without filters lists every record of a log without repeated ids |
| TurnLog.SplitAtLineEnd | ia-bridge/history.js:103 | a line ends at a newline or at a carriage return in front of it |
| TurnLog.ClearedTurns | ia-bridge/history.js:132-151 | the rewritten file reads as the old turns without the conversation's, in order |
| TurnLog.RetainedInOrder | ia-bridge/history.js:132-147 | the rewrite keeps exactly the lines that hold another record or no record at all, in their places, and drops blank ones |
| TurnLog.ClearedView | ia-bridge/history.js:122-152 | after a clear that view is empty and every view that excludes the conversation is unchanged |
| TurnLog.ClearsAgree | ia-bridge/history.js:122-152 | clearing a conversation in the file is the clearing of the log that the bridge's runs are about |
| TurnLog.AppendAddsTurnExactlyAtLineStart | ia-bridge/history.js:77-90 | an append adds exactly its turn if and only if nothing but space stands after the last newline; otherwise it is lost |
| TurnLog.LimitHonouredExactlyWhenPositive | ia-bridge/history.js:119 | the last turns, as many as a positive limit allows; the limit bounds the result exactly if it is positive or there is nothing to read |
| TurnLog.SharedHistoryStore.AppendTurn | ia-bridge/history.js:77-90 | the log reads as before plus exactly this turn if and only if it ended at the start of a line, else the turn and the unfinished line are lost; afterwards it ends at the start of a line |
| TurnLog.SharedHistoryStore.ReadTurns | ia-bridge/history.js:92-120 | the loop with its index map is the replay of the selected records, cut by the limit |
| TurnLog.SharedHistoryStore.ClearTurns | ia-bridge/history.js:122-152 | the loop rewrites the file as the kept lines and counts the removed records |
| TurnLog.SharedHistoryStore.DeleteSessionsForConversation | ia-bridge/history.js:56-68 | exactly the covered sessions go, and are counted |
| RetrievalMetrics.NdcgAtMostOne | local-ai-research/pivot_benchmark.py:1010-1041 | for every positive discount that never grows, no ranking without repeats beats the ideal one at any depth |
| RetrievalMetrics.IdealAttainedExactlyWithoutRepeats | local-ai-research/pivot_benchmark.py:1023 | a ranking reaches the ideal's score exactly if the part of the ideal that is read lists no file twice |
| RetrievalMetrics.MapInUnit | local-ai-research/pivot_benchmark.py:1025-1042 | MAP@10 is in [0, 1], and 1 exactly when the first files are all relevant, as many as there can be |
| RetrievalMetrics.RecallGrows | local-ai-research/pivot_benchmark.py:1035-1038 | recall is in [0, 1] and does not fall with depth |
| RetrievalMetrics.DcgIsSum | local-ai-research/pivot_benchmark.py:1010-1015 | zero for no file, and one discounted gain more for one file more, up to the depth |
| RetrievalMetrics.ReciprocalRank | local-ai-research/pivot_benchmark.py:1040 | one over the position of the first critical file among those read, or zero |
| RetrievalMetrics.PrecisionTerms | local-ai-research/pivot_benchmark.py:1025-1030 | at each relevant file the share of relevant ones up to it, and nothing elsewhere |
| RetrievalMetrics.HitsCountIntersection | local-ai-research/pivot_benchmark.py:1035-1039 | counting hits along the ranking is the size of the set intersection |
| RetrievalMetrics.MetricsInRange | local-ai-research/pivot_benchmark.py:1034-1049 | all metrics together: ranges, monotone recalls, and `needs_more_context` exactly when critical recall is short of 1 |
| RetrievalMetrics.RankFiles | local-ai-research/pivot_benchmark.py:999-1007 | the distinct paths in order of first appearance |
| RetrievalMetrics.DiscountedGain | local-ai-research/pivot_benchmark.py:1010-1015 | the loop computes the discounted sum |
| RetrievalMetrics.AveragePrecision | local-ai-research/pivot_benchmark.py:1025-1030 | the loop computes the precisions at the relevant files |
| RetrievalMetrics.FirstCritical | local-ai-research/pivot_benchmark.py:1024 | the first critical position among the first ten, if any |
| RetrievalMetrics.RetrievalMetrics | local-ai-research/pivot_benchmark.py:1018-1049 | the metrics of a ranking of chunks as functions of its distinct files |
| SpanChunker.WindowsFit | local-ai-research/pivot_benchmark.py:856-865 | windows have at most 80 lines, exceed 6000 bytes only with at most ten lines, and stop early only where five more lines would be too many bytes |
| SpanChunker.WindowsCover | local-ai-research/pivot_benchmark.py:856-865 | the windows leave out no line of the span |
| SpanChunker.WindowsOrdered | local-ai-research/pivot_benchmark.py:865 | windows start in order and share at most ten lines with any earlier one |
| SpanChunker.OnlyLastReachesEnd | local-ai-research/pivot_benchmark.py:856-865 | the cut starts at the cursor and ends with the first window that reaches the end of the span |
| SpanChunker.NextStarts | local-ai-research/pivot_benchmark.py:865 | each window starts ten lines before the end of the last one, but at least one line later |
| SpanChunker.SpanIsCut | local-ai-research/pivot_benchmark.py:853-866 | the chunks of a span: inside it, within limits, in order, and no line that is not blank is missed |
| SpanChunker.StripText | local-ai-research/pivot_benchmark.py:862 | stripping takes the space at both ends and no more |
| SpanChunker.SplitSpan | local-ai-research/pivot_benchmark.py:853-866 | the nested loops terminate and produce those chunks |
| SpanChunker.SymbolStarts | local-ai-research/pivot_benchmark.py:818-841 | exactly the lines that a pattern matches, in order |
| SpanChunker.ChunksKeepToSections | local-ai-research/pivot_benchmark.py:869-883 | no chunk crosses a symbol boundary and each carries its section's symbol |
| SpanChunker.NoLineLost | local-ai-research/pivot_benchmark.py:869-883 | every line of a file that is not blank lies in some chunk |
| SpanChunker.ChunkBlob | local-ai-research/pivot_benchmark.py:869-883 | preamble, symbol sections or the whole file, chunked in order |
| ErrorClusters.F1IsDice | local-ai-research/high_potential_benchmark.py:288-293 | F1 is the Dice coefficient of the two sets, 1 when both are empty |
| ErrorClusters.F1OneExactlyWhenEqual | local-ai-research/high_potential_benchmark.py:288-293 | F1 is in [0, 1], and 1 only for equal sets |
| ErrorClusters.PrecisionAndRecall | local-ai-research/high_potential_benchmark.py:288-293 | precision times the answer and recall times the expectation are what was found, with the empty cases |
| ErrorClusters.Pairs | local-ai-research/high_potential_benchmark.py:365-370 | exactly the pairs of ids that share a group |
| ErrorClusters.AcceptedClusteringIsExact | local-ai-research/high_potential_benchmark.py:381-402 | root preservation 1 without a false merge means the expected pairs, an F1 of 1 and no false split |
| ArchivePaths.NormalizedIsConfinedAndStable | restore/guest_archive.py:55-63 | a normalized name has no empty, "." or ".." component, is within the length limit and normalizes to itself |
| ArchivePaths.ConfinedIsAccepted | restore/guest_archive.py:55-63 | a confined name is accepted unchanged |
| ArchivePaths.NormalizedExactly | restore/guest_archive.py:55-63 | exactly the names of 1 to 1024 allowed characters that are a path inside, between any leading "./" and trailing slashes, are accepted, as that path |
| ArchivePaths.SelectionIgnoresRoot | restore/guest_archive.py:79-94 | the staging root seen so far decides only whether a member is refused, not where it goes |
| ArchivePaths.NativeSelects | restore/guest_archive.py:88-94 | a Home Assistant member under "data/" restores to the rest of its name, but for "backups" and what lies beneath it |
| ArchivePaths.NativeRefuses | restore/guest_archive.py:88 | "data" itself restores nowhere, and any other name is refused |
| ArchivePaths.StagingSelects | restore/guest_archive.py:80-86 | a compose member under its staging bundle restores to what lies below it, and a second bundle is refused |
| ArchivePaths.StagingOthers | restore/guest_archive.py:80-83 | no other compose name selects or refuses anything |
| GuestArchive.CopyExact | restore/guest_archive.py:66-76 | for every read size pattern, exactly the declared bytes are copied, or the short stream is detected |
| GuestArchive.ExtractionBounded | restore/guest_archive.py:97-139 | for every member sequence, also after a raise: all created paths are confined, files and directories form a tree, and the limits on each file and on their total hold; without a raise the member and expansion limits hold too and the counters are the true sums |
| GuestArchive.ExtractionRestores | restore/guest_archive.py:107-139 | without a raise exactly the selected files are in the tree, each with its member's bytes, none over another |
| GuestArchive.DestinationExactly | restore/guest_archive.py:79-94 | a member restores to a path exactly if its normalized name says so |
| GuestArchive.ExtractInner | restore/guest_archive.py:97-152 | returns a proof with the true sums exactly if the archive is accepted and the destination is new; then the files are exactly those that the members' names bring, each with its bytes; otherwise raises for the reason of the first check that fails, within bounds |
| GuestAcceptance.TurnTakes | restore/guest_archive.py:107-139 | a turn of the loop raises exactly if the state reached refuses the member, and otherwise adds its name, path, directories, root and sizes |
| GuestAcceptance.LoopAdmits | restore/guest_archive.py:107-139 | the loop gets through an archive exactly if its members are sound each by itself, get along in pairs (names, roots, paths, no file above another path) and stay within the limits together |
| GuestAcceptance.AcceptedExactly | restore/guest_archive.py:97-152 | an archive is accepted exactly if that holds and some member brings each required file, the recorder database not empty |
| GuestAcceptance.OrderIrrelevant | restore/guest_archive.py:97-152 | whether an archive is accepted does not depend on the order of its members |
| GuestRequired.HomeArchiveAccepted | restore/guest_archive.py:140-149 | a Home Assistant archive of its six required files under "data", within the limits and with a recorder that is not empty, is accepted |
| GuestRequired.ComposeArchiveAccepted | restore/guest_archive.py:140-143 | a compose archive of its three required files under one staging bundle, within the limits, is accepted |
| GuestRequired.RequiredFilesNeeded | restore/guest_archive.py:140-149 | none of these files can be missing |
| GuestRequired.AdmitReasons | restore/guest_archive.py:108-124 | the reason of a raise before the selection tells which check failed first |
| GuestArchive.Drain | restore/guest_archive.py:48-52 | reads to the end of the stream, or refuses exactly when more than the limit is left |
| GuestArchive.ExtractAndSeal | restore/guest_archive.py:187-218 | the seal is written exactly if the archive was accepted, the rest of the stream was read to its end within the limit and no directory has the seal's name; it is all that is added to the extracted tree, and the proof is that of the archive |
| ObserverState.RepeatsAreFarApart | scripts/host-observation/observer.py:213-225 | over every run an id is accepted again only after at least 256 other acceptances |
| ObserverState.FirstOccurrencesTaken | scripts/host-observation/observer.py:213-225 | an event whose id has not come before is always accepted |
| ObserverState.RingHoldsAccepted | scripts/host-observation/observer.py:213-225 | after every run ring, ids and counters are what the accepted events leave in them |
| ObserverState.SnapshotConsistent | scripts/host-observation/observer.py:213-225 | sequence is drops plus ring, per-source counts sum to it, entries are numbered consecutively up to it, and their ids are the matching end of the distinct ids seen |
| ObserverState.State.Add | scripts/host-observation/observer.py:213-225 | an event changes the fields as the run says, and the generation with the sequence |
| ObserverState.State.SetHealth | scripts/host-observation/observer.py:204-211 | only a change counts, as a fault unless it connects |
| ObserverState.State.Clock | scripts/host-observation/observer.py:192-202 | a backward monotonic reading is ignored; a clock is called certain exactly when every jump so far lies at least 60 seconds back |
| ObserverState.JumpedMeans | scripts/host-observation/observer.py:192-202 | a jump is a move of the wall clock against the monotonic one by more than a second, either way |
| RecorderBackfill.SortSorts | homeassistant/tools/backfill_public_binding_history.py:119 | the order of the query: sorted, and a permutation |
| RecorderBackfill.WaitingRows | homeassistant/tools/backfill_public_binding_history.py:94-124 | what waits for a binding are exactly the source's rows that are earlier than every timed row of the public entity |
| RecorderBackfill.WaitingOrder | homeassistant/tools/backfill_public_binding_history.py:119 | ordered by time, rows without one first, then by id |
| RecorderBackfill.StateValues | homeassistant/tools/backfill_public_binding_history.py:59-64 | presence and boolean bindings publish two words, any other one the state as it is |
| RecorderBackfill.CopiesComeFirst | homeassistant/tools/backfill_public_binding_history.py:104-166 | copied states precede every state the destination had, follow one another in time and form one chain of previous ids |
| RecorderBackfill.SecondRunCopiesNothing | homeassistant/tools/backfill_public_binding_history.py:104-124 | a second run copies nothing exactly if the first copied nothing or copied a row with a timestamp |
| RecorderBackfill.Recorder.BackfillStates | homeassistant/tools/backfill_public_binding_history.py:94-167 | dry and applied runs count the same rows, existing rows stay, and copies carry state mode, chain and projected attributes |
| RecorderBackfill.OthersStillWait | homeassistant/tools/backfill_public_binding_history.py:94-167 | backfilling one entity changes nothing of what another binding has to copy, unless the entity is its source |
| RecorderBackfill.Recorder.BackfillAll | homeassistant/tools/backfill_public_binding_history.py:274-281 | the states of all bindings, destinations distinct and no sources: dry and applied totals agree; an applied run appends the copies of what waited, binding by binding, touches no row or attributes that were there, and leaves a binding nothing exactly if it had nothing or a row with a timestamp |
| RecorderBackfill.StatisticsKeepUniqueStarts | homeassistant/tools/backfill_public_binding_history.py:215-235 | copying keeps the start times of every statistic unique |
| RecorderBackfill.SecondStatisticsRunCopiesNothing | homeassistant/tools/backfill_public_binding_history.py:215-235 | a second run over a statistics table copies nothing |
| RecorderBackfill.CopyCountIgnoresDestination | homeassistant/tools/backfill_public_binding_history.py:226-234 | how many rows are copied does not depend on the id they go to |
| RecorderBackfill.BackfillTable | homeassistant/tools/backfill_public_binding_history.py:215-235 | one table: a dry run, also one without a destination, counts what an applied run copies to that destination or to any unused id; existing rows stay |
| RecorderBackfill.StatisticsCopied | homeassistant/tools/backfill_public_binding_history.py:215-234 | a statistics row is copied exactly if it belongs to the source and is earlier than every row of the destination |
| RecorderBackfill.Statistics.BackfillStatistics | homeassistant/tools/backfill_public_binding_history.py:181-235 | dry and applied runs count the same rows in both tables, also when the applied run creates the series; an applied one appends them and leaves nothing to copy |

## Left out

- HTTP plumbing, SSH and PowerShell text, spawned clients: only their results appear, as arbitrary inputs.
- `buildAnalytics`, live rate limits, sanitizers and benchmark sections of `ia-bridge/usage.js`: arithmetic and field copying on the merged report.
- The watchdog loop of `restore/process-boundary.c`: its behaviour is the kernel's timing.
- TapCompact.ExpandUndoesPack: the model of `expand_tap` reads only metadata and payloads in the compact layout that the packer writes; other layouts of the same JSON, and `\u` surrogate escapes, count as rejected.
- TapCompact.CompactOutput: the reduction bound `1 - min_reduction` is an exact real, without its floating-point rounding.
- UsageReader.TryOnce: the bytes that the chunk loop reads are those that the opening anchors saw.
- UsageReader.UpdateFile: a file cut short in the middle of the chunk loop is one outcome of an attempt, not a position in the loop; the edge anchors are an arbitrary function of the bytes, and resuming rests on the producer's append-only contract, stated as a hypothesis.
- UsageReader.CodexUsageReader.RefreshSessionIndex: the summaries come as a map keyed by path, without the insertion order of the JavaScript `Map`; UsageMerge.OrderIrrelevant says what that order cannot change. Equal fingerprints are taken to mean equal content.
- UsageMerge.Build: rate samples are merged as they are, without the filter of `sanitizeRateLimits`.
- UsageFold.Delta: `Number()` on exotic objects, which may throw, is part of the lines that throw; key order of objects is not modelled.
- ProxyRepair.Actuator.Begin: receipt writes succeed, only one process runs at a time, and the receipt's informational members (effect attempted, services preserved, time) are not kept.
- SessionBridge.Bridge.HandleChat: session ids, retries and the prompt are not modelled; a conversation id is a non-empty string.
- TurnLog.SharedHistoryStore.ReadTurns: text is bytes, so replacement characters for invalid UTF-8 on a rewrite do not appear; ids that are objects count as no id.
- `listConversations` of `ia-bridge/history.js`: grouping and sorting of what `readTurns` gives.
- RetrievalMetrics.RetrievalMetrics: floating-point rounding, and the fields that only copy or count lists (`chunk_recall_at_10`, `context_tokens_at_10`, `invented_paths`, top files).
- `rrf_scores`, embeddings and lexical scores: sums without branching.
- SpanChunker.SymbolStarts: the language-specific patterns and the cut of long titles are a parameter.
- SpanChunker.ChunkBlob: lines are given, not split from text; hashes and imports of chunks are not kept.
- GuestArchive.ExtractInner: tar, gzip and securetar decoding; file modes, the text of the seal, and the outer archive's own members, which are a loop of simple refusals. An entry of the wrong sort in the way of a path raises the operating system's error.
- GuestArchive.ExtractAndSeal: one stream stands for the gzip and cipher readers, and the outer archive's members are absent.
- ErrorClusters.Pairs: a pair is an unordered set of two ids where the program keeps them sorted; purity is not modelled.
- ObserverState.State.Add: locking, and events of other than the two sources.
- RecorderBackfill.Recorder.BackfillStates: the JSON projection of attributes is an arbitrary function of the joined text; the order in which SQLite numbers statistics rows and the copied `statistics_meta` columns are not modelled.
- RecorderBackfill.Recorder.BackfillAll: the loop calls the states half of each binding; the statistics half works on tables of its own and is `Statistics.BackfillStatistics`. A destination that is another binding's source, for which the order of the bindings matters, is outside the theorem.
- Dashboard cards, Node-RED settings, power and alarm helpers, installers and fixtures: field copying, configuration or finite constants.
