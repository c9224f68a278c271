# Codex CLI Monitor: verified model

The monitor watches AI command-line tools on a machine and turns their append-only logs, hook markers and
process snapshots into one status per terminal; a Windows widget displays the result. This Dafny project
models the parts of it that carry state over unbounded inputs, in the form the code gives them, and proves
what they are for. `dafny verify dfyconfig.toml` checks everything.

| module | what it models |
|---|---|
| `Sequences`, `Lines` | Python's list operations and stable sort; newline-terminated records and reading them in pieces |
| `SharedSessions`, `SharedServed`, `SharedTurns`, `SharedPicks` | handing a shared daemon's sessions to live clients: a greedy pass, its optimality, when it is also optimal for running turns, and who owns each session |
| `OpenCodeBinding`, `OpenCodeShown` | binding database rows to OpenCode processes: the claiming pass, and what each process is shown |
| `TerminalTail`, `TerminalTailProofs`, `TerminalKept`, `TerminalScan`, `TerminalMerge` | the bounded tail reader of rollout files: offsets, carries, a 64-event cap, a shared cache, what refreshes keep across growth gaps, what a first scan finds, and the two recovery windows and their merge |
| `QoderTurn`, `QoderTurnProofs`, `QoderStatus`, `QoderWaits` | the Qoder turn and permission machine, and the status it shows told on the records |
| `QoderSegments` | the incremental Qoder segment reader and its cache |
| `HookLog` | appending to the rotated hook log from many processes |
| `HookTail` | reading the last lines of a log backwards in blocks |
| `HookSummary`, `HookFields` | the fold of Codex hook events into session states, and where each field of a state comes from |
| `OpenCodeDecisions` | the fold of ask and reply markers into open decisions |
| `HookInstaller`, `HookCommands` | installing, removing and checking hook handlers in a configuration, and the commands themselves |
| `Broadcaster` | the WebSocket broadcaster, its clients, and registrations racing with broadcasts |
| `WidgetUi`, `WidgetLink`, `WidgetHandled` | the widget's window thread, its websocket workers and message queue, the backend identity, the list it displays, and what each message does |
| `JsonText`, `JsonScanner`, `JsonScannerProofs`, `JsonSessions` | the widget's in-place JSON scanner against printed JSON, up to reading a whole response |
| `ServerColors`, `ServerOrder` | compacting and repairing the widget's server colours in place, and the grouping and sorting of rows that decides their order |

Code that updates variables, objects or buffers step by step is modelled by methods and classes with the
source's fields. Each is proved equal to a specification function, and the theorems are about those functions
or about state machines built from them. File contents are byte sequences. JSON and timestamp decoding are
parameters, as are the clock, the random generator, and which system calls succeed.

## What does not hold, and exactly when it does

- Serving the most clients does not mean running the most turns. `SharedTurns.TurnsMaximalIffTogether` gives
  the exact condition on the sessions; `SharedSessions.FinishedSessionCostsATurn` is a concrete case.
- The comment on `_merge_lifecycle_events` says an overlap of the two windows never moves an older marker
  behind a newer one. `TerminalMerge.MergeKeepsOrderIff` says exactly when that holds for the windows the reader
  forms, and `TerminalMerge.FirstScanInOrderIff` when what a first scan returns, with the tail's events behind
  them, follows the file: no event may be merged in front of an earlier one and be among those for which the
  tail leaves room. Without timestamps that is when the windows share at most 64 events or the second holds at
  least 64 more than there is room for (`TerminalMerge.UnstampedKeepsOrderIff`); with timestamps and room for
  all it is when none decreases (`TerminalMerge.SmallStampedKeepsOrderIff`). `TerminalMerge.FirstScanReorders`
  gives files whose first scan returns events out of order.
- A marker that occurs again is merged at its first occurrence. Without timestamps the merged list ends in the
  file's newest marker if and only if every other one was met before it
  (`TerminalMerge.NewestEndsTheListIff`); `TerminalMerge.RepeatedNewestIsLost` is the case of a, b, a.
- The widget looks for the word "sessions" in quotes in the raw response, also inside strings. It reads from the
  sessions array's own bracket if and only if no bracket stands between the first mention and it
  (`JsonSessions.ReadsTheSessionsIff`); `JsonSessions.MentionLosesTheSessions` gives valid responses from which
  it reads no session at all.
- The Qoder reader drops a carry above 4 MiB: its progress is exact under every slicing if and only if no line
  and no remainder is longer (`QoderSegments.SlicingIsExactIff`), and a longer line can be lost
  (`QoderSegments.LongLineIsLost`).
- Qoder subagents leave the main turn alone under every stream if and only if there are at most 64 of them
  (`QoderTurnProofs.NonInterferenceIff`); for more, `QoderTurnProofs.TooManySubagents` gives the stream.
- A check right after an installation can report an unexpected handler, exactly when a monitor handler sits
  under an event the installer does not manage (`HookInstaller.CheckAfterInstall`).
- If building a broadcast's payload raises, the guarantee between passes survives if and only if the pass had
  nothing to lose (`Broadcaster.AbandonedPassKeepsIff`); `Broadcaster.AbandonedPassLosesAClient` gives a run
  after which a client stays stale until the state changes or it registers again.
- Neighbouring servers get contrasting colours exactly when no server's rows return at an odd distance
  (`ServerColors.ServerColorTable.SyncServerColors`). Rows are sorted by server name, so a server that appears
  under two names can return (`ServerOrder.TwoNamesCannotContrast`); when each server keeps one name, it
  cannot, and contrast and stability hold outright (`ServerOrder.RebuildDirectoryRows`).
- A window that waits for a worker learns of its end unless the closing message could not be posted
  (`WidgetLink.IdleMeansGone`); the timer then ends the wait (`WidgetLink.TimerRecovers`).

## Model

| member | source | states |
|---|---|---|
| `SharedSessions.AllocateSharedSessions` | src/codex_cli_monitor/monitor.py:1243-1293 | the loop over dated sessions, newest first, computes the allocation the lemmas below are about |
| `SharedSessions.PickedClient` | src/codex_cli_monitor/monitor.py:1270-1291 | a session finds no client only if none is eligible; if an eligible client is idle, an idle one at least as new is picked; an open turn doubles up only if every eligible client already runs one |
| `SharedSessions.ServedDominates` | src/codex_cli_monitor/monitor.py:1261-1293 | above every start time, the pass has served at least as many clients as any assignment of the same sessions |
| `SharedSessions.ServesTheMost` | src/codex_cli_monitor/monitor.py:1247-1260 | no assignment of each session to at most one client it may belong to gives more clients a session |
| `SharedSessions.EachSessionOnce` | src/codex_cli_monitor/monitor.py:1266-1292 | a dated session that some live client may own is owned by exactly one client, an eligible one |
| `SharedSessions.UnreachableSessionStaysFree` | src/codex_cli_monitor/monitor.py:1270-1278 | a session that is undated or predates every live client is given to nobody |
| `SharedSessions.OpenTurnsShareOnlyWhenFull` | src/codex_cli_monitor/monitor.py:1279-1282 | two open turns share a client only if every client the later one could go to already owned an open turn |
| `SharedSessions.FinishedSessionCostsATurn` | src/codex_cli_monitor/monitor.py:1283-1287 | two clients, one finished and two open sessions for which the pass lets only one client run a turn |
| `SharedSessions.BothTurnsCouldRun` | src/codex_cli_monitor/monitor.py:1270-1276 | in that case an assignment lets both run one |
| `SharedTurns.Fills` | src/codex_cli_monitor/monitor.py:1279-1291 | open turns with one reference time each find a client without a turn until all eligible ones run one, whatever finished sessions come between |
| `SharedTurns.RunsTheMostTurns` | src/codex_cli_monitor/monitor.py:1261-1293 | while the open turns behind the first finished session share one reference time, no assignment lets more clients run a turn |
| `SharedTurns.TurnsApartLoseOne` | src/codex_cli_monitor/monitor.py:1261-1293 | otherwise it constructs clients and an assignment that runs more turns than the pass |
| `SharedTurns.TurnsMaximalIffTogether` | src/codex_cli_monitor/monitor.py:1243-1293 | the pass maximises running turns over all sets of clients if and only if that condition on the sessions holds |
| `SharedServed.TurnsDoNotChangeTheServed` | src/codex_cli_monitor/monitor.py:1279-1285 | the preference for clients without a turn never changes which clients are served |
| `SharedPicks.PickIs` | src/codex_cli_monitor/monitor.py:1270-1291 | in every state of the pass a session goes to the newest client of its class: those without a turn if it is an open turn and one is eligible, and of these the idle ones if there are any; to nobody only if none is eligible |
| `SharedPicks.KnownBusy` | src/codex_cli_monitor/monitor.py:1261-1293 | before the n-th session exactly the owners of the sessions in front of it count as served |
| `SharedPicks.KnownRunning` | src/codex_cli_monitor/monitor.py:1261-1293 | and exactly the owners of the open turns among them as running a turn |
| `SharedPicks.OwnerIsThePick` | src/codex_cli_monitor/monitor.py:1243-1293 | a client owns the n-th session, newest first, iff it is the newest of that class given the owners of the sessions in front of it: the allocation is the only one that follows the rule |
| `OpenCodeBinding.SelectStateForRoot` | src/codex_cli_monitor/monitor.py:588-680 | the filtering and selection of one process's row computes the specified row |
| `OpenCodeBinding.DiscoverSessions` | src/codex_cli_monitor/monitor.py:475-491 | the ordered claiming loop computes the specified bindings |
| `OpenCodeBinding.StateForRootMeans` | src/codex_cli_monitor/monitor.py:588-680 | a process gets its unclaimed open anchor; otherwise an open row of its directory and lifetime whenever one is unclaimed, the most recently active; never a claimed or unsupported row |
| `OpenCodeBinding.BindingsAreExclusiveAndSupported` | src/codex_cli_monitor/monitor.py:475-491 | no session is bound to two processes, no process to two sessions, and every binding is supported by an anchor or by activity in the process's lifetime |
| `OpenCodeBinding.OpenAnchorIsBound` | src/codex_cli_monitor/monitor.py:468-485 | an open row some process is anchored to is always claimed |
| `OpenCodeBinding.EachGetsItsOpenAnchor` | src/codex_cli_monitor/monitor.py:468-491 | processes with distinct open anchors each get their own |
| `OpenCodeBinding.NoOpenSessionOverlooked` | src/codex_cli_monitor/monitor.py:611-660 | no process is hidden, shown a finished session or shown a less recent open one while an open session of its directory and lifetime is unclaimed |
| `OpenCodeShown.HiddenIff` | src/codex_cli_monitor/monitor.py:588-680 | a process is shown nothing iff it has neither an unclaimed anchor row nor an unclaimed row active in its directory and lifetime |
| `OpenCodeShown.FinishedRowShown` | src/codex_cli_monitor/monitor.py:611-680 | with no open row available it is shown the most recently active of its anchor and the rows created in its lifetime; with neither, of the active rows of its directory |
| `OpenCodeShown.OpenRowShown` | src/codex_cli_monitor/monitor.py:611-660 | otherwise it is shown its own open anchor, or else the most recently active open row |
| `OpenCodeShown.PassShows` | src/codex_cli_monitor/monitor.py:475-491 | in the pass each process is shown what it would be shown alone once the sessions bound to processes in front of it are taken: open anchors come first, then unknown start times, later starts and greater pids |
| `OpenCodeShown.HiddenByPassIff` | src/codex_cli_monitor/monitor.py:475-491 | the pass hides a process iff everything that could be shown for it is bound to processes in front of it |
| `Lines.ReadOn` | src/codex_cli_monitor/terminal_state.py:442-445 | reading on from a remainder finds exactly the lines a reading of the whole would |
| `TerminalTail.TailCache.TerminalEvents` | src/codex_cli_monitor/terminal_state.py:381-459 | a refresh returns and caches what the specified refresh of the old entry says; every other entry stays as it was, except the oldest when a new file comes to a full cache |
| `TerminalTail.TailCache.Store` | src/codex_cli_monitor/terminal_state.py:457-458 | storing puts the entry in the cache, gives the keys' new order and leaves every other kept entry as it was |
| `TerminalTail.OnlyTheOldestGoes` | src/codex_cli_monitor/terminal_state.py:639-642 | in that order no key is dropped unless a new one comes to a full cache, and then the oldest alone |
| `TerminalTail.PlanRefresh` | src/codex_cli_monitor/terminal_state.py:391-433 | where a refresh starts, with what carry and known events, at resets, gaps and ordinary growth |
| `TerminalTail.ReadTail` | src/codex_cli_monitor/terminal_state.py:435-455 | carry plus chunk, the cut first line and the 64-event cap |
| `TerminalTail.ReadPrefix` | src/codex_cli_monitor/terminal_state.py:484-504 | the events of the file's first window |
| `TerminalTail.ReadBackscan` | src/codex_cli_monitor/terminal_state.py:507-532 | the events of the window in front of the tail |
| `TerminalTail.MergeLifecycleEvents` | src/codex_cli_monitor/terminal_state.py:462-481 | de-duplication with a `seen` set, conditional sort and cap |
| `TerminalTailProofs.ExactStep` | src/codex_cli_monitor/terminal_state.py:387-459 | a refresh within the size bounds keeps offset, carry and events equal to a full scan of the consumed bytes |
| `TerminalTailProofs.SteadyReaderIsExact` | src/codex_cli_monitor/terminal_state.py:387-459 | with first scans up to 4 MiB and growth up to 1 MiB, any run of refreshes, file replacements and evictions returns exactly the last 64 lifecycle events of the complete lines consumed |
| `TerminalTailProofs.WindowInFile` | src/codex_cli_monitor/terminal_state.py:512-532 | a window contributes only events of whole lines of the file |
| `TerminalTailProofs.KeptEvents` | src/codex_cli_monitor/terminal_state.py:443-453 | whatever start of a line was lost in a gap, what is parsed behind it is a suffix of the file's events there |
| `TerminalTailProofs.MergeInFileOrder` | src/codex_cli_monitor/terminal_state.py:462-481 | merging any two sets of events of an ordered file gives them back in file order, at most 64 |
| `TerminalTailProofs.GoodStep` | src/codex_cli_monitor/terminal_state.py:381-459 | a refresh under any sizes and read failures keeps the cached events in file order and the carry a suffix of the true remainder |
| `TerminalTailProofs.AnyReaderKeepsFileOrder` | src/codex_cli_monitor/terminal_state.py:381-532 | for increasing timestamps and lines whose proper suffixes are no events, every refresh of every run returns at most 64 of the file's events as a subsequence of them |
| `TerminalKept.KnownStay` | src/codex_cli_monitor/terminal_state.py:403-459 | a refresh of the same, not shrunk file returns and caches the last 64 of the known events and those of the lines it reads, across a growth gap behind the cut line; a failed read keeps entry and events as they are |
| `TerminalKept.ReplacedStartsOver` | src/codex_cli_monitor/terminal_state.py:391-402 | a replaced or shrunk file is scanned like an unknown one, and nothing known of the old file is returned |
| `TerminalKept.FailedFirstScan` | src/codex_cli_monitor/terminal_state.py:426-440 | a first scan whose read fails returns what the windows recover and caches nothing |
| `TerminalKept.ResultGrows` | src/codex_cli_monitor/terminal_state.py:381-459 | while the path names the same, not shrunk file, a later refresh returns the last 64 of what an earlier one returned and of the events of the lines read since, through any gaps and failed reads |
| `TerminalKept.NothingKnownDisappears` | src/codex_cli_monitor/terminal_state.py:413-424 | no event returned earlier for the file disappears unless it and what follows it make way for 64 others |
| `TerminalScan.ShortScan` | src/codex_cli_monitor/terminal_state.py:397-459 | a first scan of up to 4 MiB returns the last 64 events of the file read from its start |
| `TerminalScan.LongScan` | src/codex_cli_monitor/terminal_state.py:397-532 | a longer one returns the last 64 of the merged windows, the first MiB and the 8 MiB in front of the tail, and of the last 4 MiB behind the line they cut |
| `TerminalScan.FirstScanOverlooksNothing` | src/codex_cli_monitor/terminal_state.py:381-532 | it returns exactly the events of these three parts, unless they are more than 64 together |
| `TerminalMerge.RecoveredAreMerged` | src/codex_cli_monitor/terminal_state.py:426-433 | what a first scan recovers is the merge of the capped tail of the events the prefix holds and of a suffix of the file's events, for any reads that fail |
| `TerminalMerge.DedupedWindows` | src/codex_cli_monitor/terminal_state.py:471-478 | de-duplication leaves the capped tail, then what the second window holds from in front of it, then what is behind it |
| `TerminalMerge.MergeKeepsOrderIff` | src/codex_cli_monitor/terminal_state.py:462-481 | merging the windows keeps file order if and only if no event is both merged in front of an earlier one and among the 64 kept |
| `TerminalMerge.UnstampedKeepsOrderIff` | src/codex_cli_monitor/terminal_state.py:479-481 | with a missing timestamp, and for any number of places left for the merged events, that is: the windows share at most 64 events, or the second holds at least 64 more than there are places |
| `TerminalMerge.SmallStampedKeepsOrderIff` | src/codex_cli_monitor/terminal_state.py:479-481 | with timestamps and places for all of them that is: no later event has an earlier timestamp |
| `TerminalMerge.RecoveredInOrderIff` | src/codex_cli_monitor/terminal_state.py:426-433 | the same condition decides whether what a first scan recovers follows the file |
| `TerminalMerge.FirstScanInOrderIff` | src/codex_cli_monitor/terminal_state.py:381-459 | and, with as many places as the tail's events leave, whether what the first scan of a long file returns does, for any reads that fail |
| `TerminalMerge.EarlyUnstampedReorder` | src/codex_cli_monitor/terminal_state.py:426-459 | more than 64 events in the first window, one without a timestamp, and fewer than 128 together with the tail's are returned out of file order |
| `TerminalMerge.NewestEndsTheListIff` | src/codex_cli_monitor/terminal_state.py:462-481 | for any windows, also of repeated events: with a missing timestamp the merged list ends in the file's newest event iff every other event was met before it |
| `TerminalMerge.RepeatedNewestIsLost` | src/codex_cli_monitor/terminal_state.py:471-478 | the file a, b, a without timestamps merges to a, b |
| `TerminalMerge.FirstScanReorders` | src/codex_cli_monitor/terminal_state.py:381-459 | concrete files whose first refresh returns events out of file order |
| `QoderTurn.ParseState.ApplyRecord` | src/codex_cli_monitor/qoder_state.py:480-591 | the record handler changes the parse state exactly as the specified step |
| `QoderTurnProofs.EveryReachableState` | src/codex_cli_monitor/qoder_state.py:480-591 | every record stream keeps: inactive means nothing pending; active means submitted, not terminal, not failed; at most 64 pending; the last key is set iff something is pending and names a pending entry |
| `QoderTurnProofs.WaitingLabelIsNamed` | src/codex_cli_monitor/qoder_state.py:616-629 | the fallback of `_derive_status` for a key that names nothing is never taken |
| `QoderTurnProofs.ResolutionAnswersOne` | src/codex_cli_monitor/qoder_state.py:554-567 | each resolution belonging to the active turn shrinks a nonempty pending set by exactly one |
| `QoderTurnProofs.StatusIffMainTurnSeen` | src/codex_cli_monitor/qoder_state.py:616-629 | a status is shown iff the stream shows a main turn starting or finishing, told without the machine |
| `QoderStatus.OutcomeMeans` | src/codex_cli_monitor/qoder_state.py:492-552 | for every stream: the last record that starts a main turn, or finishes the open one or one whose start was not seen, decides whether a turn is open, finished or failed and which one; it failed iff that finish carries an error or an error reason |
| `QoderStatus.ActivityMeans` | src/codex_cli_monitor/qoder_state.py:480-491 | the last activity is the time of the last typed record that has one |
| `QoderWaits.StatusMeans` | src/codex_cli_monitor/qoder_state.py:480-629 | the status and waiting reason of every stream, told on its records: failure or success by the finish that decides; for an open turn, waiting for the shown open permission request, else for the still unanswered ask tool, else running |
| `QoderWaits.OpenIsUnsettled` | src/codex_cli_monitor/qoder_state.py:554-591 | a permission request that is open came up in the turn, and nothing later named it |
| `QoderWaits.WaitsIffUnbalanced` | src/codex_cli_monitor/qoder_state.py:554-591 | while at most 64 requests come up in it and no id comes twice, an open turn waits for permission iff from some record of it on more requests than resolutions followed |
| `QoderTurnProofs.SubagentsDoNotInterfere` | src/codex_cli_monitor/qoder_state.py:492-525 | deleting all records of at most 64 announced subagent turns changes neither turn flags, pending sets, status nor waiting reason |
| `QoderTurnProofs.TooManySubagents` | src/codex_cli_monitor/qoder_state.py:492-520 | for every set of more than 64 subagent turns, a stream of their records alone that shows a main turn that succeeded, while without them nothing is shown |
| `QoderTurnProofs.NonInterferenceIff` | src/codex_cli_monitor/qoder_state.py:492-525 | non-interference over all streams if and only if there are at most 64 subagent turns |
| `QoderSegments.SegmentEntry.ReadAppend` | src/codex_cli_monitor/qoder_state.py:457-477 | an append read advances offset, carry and parse state as specified; a failed read changes nothing |
| `QoderSegments.SegmentReader.ReadSegment` | src/codex_cli_monitor/qoder_state.py:356-405 | for any file, a refresh reads on from where the entry was, or from the start after a reset, up to its read limit and returns the turn reached; while lines fit 4 MiB that is the fold of every complete line consumed; other entries stay as they were unless the cache overflows |
| `QoderSegments.SegmentReader.Prune` | src/codex_cli_monitor/qoder_state.py:400-402 | an overfull cache is emptied but for the entry in use, which is kept as it is; any other cache keeps every entry |
| `QoderSegments.FeedExact` | src/codex_cli_monitor/qoder_state.py:457-477 | reading on keeps the parse state exact wherever the slices fall, for lines within the bound |
| `QoderSegments.AnySlicing` | src/codex_cli_monitor/qoder_state.py:457-477 | the parse state depends only on how many bytes were consumed, not on how they were sliced |
| `QoderSegments.ReachesTheEnd` | src/codex_cli_monitor/qoder_state.py:392-397 | k refreshes of a static file read k MiB of it or all of it |
| `QoderSegments.SlicingIsExactIff` | src/codex_cli_monitor/qoder_state.py:457-477 | over all slicings the read limits allow, offset, carry and parse state are exact if and only if every line and the remainder fit 4 MiB |
| `QoderSegments.LongLineIsLost` | src/codex_cli_monitor/qoder_state.py:466-473 | for any file with a longer complete line free of NUL bytes, a slicing and a decoder for which the file starts a turn and the reader never sees one |
| `HookLog.EveryScheduleKeepsASuffix` | src/codex_cli_monitor/hook_state.py:434-490 | for any writers, interleaving, lock timeouts and crashes, also inside a rotation: the generations hold a suffix of the completed writes, never without the newest, and none exceeds the limit |
| `HookLog.MutualExclusion` | src/codex_cli_monitor/hook_state.py:468-479 | two writers are never between acquiring and releasing the lock |
| `HookLog.LogFiles.RotateHookLog` | src/codex_cli_monitor/hook_state.py:482-490 | a rotation shifts both generations and drops the oldest |
| `HookLog.LogFiles.AppendEncodedEvent` | src/codex_cli_monitor/hook_state.py:434-465 | an undisturbed append puts its record last and rotates exactly when a nonempty log would exceed the limit, at the cost of the oldest generation only |
| `HookLog.UninterruptedAppend` | src/codex_cli_monitor/hook_state.py:434-490 | the step machine, run undisturbed, is that append |
| `HookLog.AppendMeans` | src/codex_cli_monitor/hook_state.py:441-456 | a record that fits goes behind the others, also an oversized one that finds no other; otherwise every generation becomes the next older one and the record begins a new log |
| `HookLog.DropsOnlyWhenFull` | src/codex_cli_monitor/hook_state.py:441-490 | in every run a step loses nothing that is on disk, unless it belongs to a writer whose record does not fit a nonempty log, and then the oldest generation alone |
| `HookTail.ReadBlocks` | src/codex_cli_monitor/hook_state.py:530-541 | the backward loop returns a tail of the file with more newlines than asked, the whole file, or exactly the byte limit |
| `HookTail.ReadTailLines` | src/codex_cli_monitor/hook_state.py:526-547 | the result is always a suffix of the file's lines and, for a positive count, the last lines of the 4 MiB window |
| `HookTail.BlocksDoNotMatter` | src/codex_cli_monitor/hook_state.py:530-546 | stopping early behind enough newlines gives the same last lines as reading the whole window |
| `HookTail.WindowIsSuffix` | src/codex_cli_monitor/hook_state.py:541-545 | the window never starts inside a line |
| `HookTail.WindowSuffices` | src/codex_cli_monitor/hook_state.py:526-547 | while the byte limit does not come first, the window holds exactly the last lines of the file |
| `HookSummary.SummarizeHookEvents` | src/codex_cli_monitor/hook_state.py:314-431 | the state, active tools and anonymous count of each (directory, process, session) are the single-key machine's on that key's events in timestamp order, for any interleaving with others |
| `HookSummary.ApplyEvent` | src/codex_cli_monitor/hook_state.py:345-425 | the branches of the loop body compute the specified step |
| `HookSummary.LatchedMeans` | src/codex_cli_monitor/hook_state.py:345-425 | a flag raised and lowered by events is up iff some raising event has no later lowering one |
| `HookSummary.FlagsAreLatches` | src/codex_cli_monitor/hook_state.py:345-425 | turn, pending decision and each tool are such flags |
| `HookSummary.InTurnMeans` | src/codex_cli_monitor/hook_state.py:345-425 | a turn is open iff an opening event has no later closing stop |
| `HookSummary.AwaitingMeans` | src/codex_cli_monitor/hook_state.py:84-92 | a decision is awaited iff a permission request has no later prompt, tool completion or non-conflicting stop |
| `HookSummary.ActiveToolMeans` | src/codex_cli_monitor/hook_state.py:370-401 | a tool use is active iff it started and nothing later completed it or ended the turn |
| `HookSummary.ClosedTurnIsQuiet` | src/codex_cli_monitor/hook_state.py:345-425 | a closed turn has no active tools and no pending decision |
| `HookFields.FieldsComeFromTheLast` | src/codex_cli_monitor/hook_state.py:314-425 | the last stop's time counts until the next prompt, its turn and the last session start for good; the pending decision and its tool are those of the last request, until something settles it |
| `HookFields.TurnStartedMeans` | src/codex_cli_monitor/hook_state.py:345-425 | a turn started with the last prompt or, without any, with the first event that opens one |
| `HookFields.LatestMeans` | src/codex_cli_monitor/hook_state.py:345-425 | time, kind, process and source are the latest event's, and turn activity was seen iff some prompt, request or stop occurred |
| `HookFields.AnonymousMeans` | src/codex_cli_monitor/hook_state.py:370-401 | the number of tools without an id is the greatest surplus of starts over ends since any event behind the last prompt or closing stop |
| `OpenCodeDecisions.FoldDecisions` | src/codex_cli_monitor/opencode_decisions.py:142-185 | the loop over markers returns the specified decisions |
| `OpenCodeDecisions.Release` | src/codex_cli_monitor/opencode_decisions.py:168-184 | a reply removes its own request and every decision of its session |
| `OpenCodeDecisions.OpenMeans` | src/codex_cli_monitor/opencode_decisions.py:142-185 | an entry is open iff an identifiable ask made it and no later ask with its key, reply with its request id or reply naming its session follows |
| `OpenCodeDecisions.PendingMeans` | src/codex_cli_monitor/opencode_decisions.py:142-185 | the decisions returned are exactly the unanswered asks |
| `OpenCodeDecisions.OneEntryPerKey` | src/codex_cli_monitor/opencode_decisions.py:142-167 | no key is open twice |
| `OpenCodeDecisions.UnrelatedRecordsDoNotMatter` | src/codex_cli_monitor/opencode_decisions.py:142-185 | dropping any records of other keys and sessions leaves an entry open or not as before |
| `OpenCodeDecisions.NewestFirst` | src/codex_cli_monitor/opencode_decisions.py:185 | the decisions come newest first |
| `HookInstaller.WithoutExistingMonitorHooks` | src/codex_cli_monitor/install_hooks.py:312-332 | monitor handlers go, groups they alone filled go, empty groups stay, and the removed handlers are counted |
| `HookInstaller.InstallHooks` | src/codex_cli_monitor/install_hooks.py:157-202 | an installation strips all managed events and appends one handler per selected event; it reports a change iff the file changed |
| `HookInstaller.UninstallHooks` | src/codex_cli_monitor/install_hooks.py:205-223 | an uninstallation strips every event, drops an empty hooks section, and reports a change iff the file changed |
| `HookInstaller.CheckHooks` | src/codex_cli_monitor/install_hooks.py:226-280 | missing, unexpected and stale events, and "current" iff exactly the selected events run exactly the expected command and the module exists |
| `HookInstaller.CurrentMeans` | src/codex_cli_monitor/install_hooks.py:243-259 | nothing missing, unexpected or stale is the same as that meaning |
| `HookInstaller.InstallReplacesInstall` | src/codex_cli_monitor/install_hooks.py:157-202 | installing again, in the same or another mode or from another checkout, equals installing the last way directly |
| `HookInstaller.UninstallForgetsInstall` | src/codex_cli_monitor/install_hooks.py:157-223 | uninstalling after installing equals uninstalling alone |
| `HookInstaller.OthersSurviveInstall` | src/codex_cli_monitor/install_hooks.py:312-332 | third-party handlers survive an installation in order, with their groups' other members, and the rest of the configuration is untouched |
| `HookInstaller.OthersSurviveUninstall` | src/codex_cli_monitor/install_hooks.py:205-223 | likewise an uninstallation, which leaves no monitor handler anywhere |
| `HookInstaller.CheckAfterInstall` | src/codex_cli_monitor/install_hooks.py:226-280 | a check after an installation is current iff the tool mode is the installed one and no monitor handler sits under an unmanaged event |
| `HookCommands.ExactlyOthersStay` | src/codex_cli_monitor/install_hooks.py:312-343 | stripping keeps a handler iff its command mentions neither the marker nor the module nor the launcher |
| `HookCommands.NamesAreSnakeCase` | src/codex_cli_monitor/install_hooks.py:20-43 | the command line names every event in snake case |
| `HookCommands.ShellReadsItBack` | src/codex_cli_monitor/install_hooks.py:441-442 | a shell reads a quoted path or name back as it was, whatever quotes are in it |
| `HookCommands.InstallAdds` | src/codex_cli_monitor/install_hooks.py:157-190 | behind what was left of a selected event comes one group, with a matcher for tool events, whose one command carries the event's snake-case name |
| `HookCommands.CurrentIff` | src/codex_cli_monitor/install_hooks.py:243-280 | the hooks are current iff exactly one handler runs the monitor under each chosen event, by the expected command, and none under any other |
| `HookCommands.RunsAfterInstall` | src/codex_cli_monitor/install_hooks.py:157-202 | after an installation the monitor runs once under each chosen event, under no other event the installer knows, and elsewhere as before |
| `Broadcaster.SyncWebSocketClient.Send` | src/codex_cli_monitor/websocket_sync.py:31-36 | an open client queues the frame, a closed one nothing |
| `Broadcaster.WebSocketBroadcaster.Register` | src/codex_cli_monitor/websocket_sync.py:187-202 | registration with a snapshot queues it, marks the client pending and keeps every client in sync or pending |
| `Broadcaster.WebSocketBroadcaster.Unregister` | src/codex_cli_monitor/websocket_sync.py:204-208 | unregistration forgets the client in both sets |
| `Broadcaster.WebSocketBroadcaster.Broadcast` | src/codex_cli_monitor/websocket_sync.py:210-251 | an uninterrupted pass sends the state once to every open client when it changed and to the pending ones otherwise, leaving all showing it |
| `Broadcaster.NextKeeps` | src/codex_cli_monitor/websocket_sync.py:187-262 | every locked section and every send keeps: an open client is pending, up to date, or about to be reached |
| `Broadcaster.InSyncBetweenPasses` | src/codex_cli_monitor/websocket_sync.py:187-262 | under any interleaving, between passes every registered open client is pending or shows the last broadcast state |
| `Broadcaster.PassReachesEveryone` | src/codex_cli_monitor/websocket_sync.py:217-251 | a stale initial snapshot never survives the next completed pass |
| `Broadcaster.AbandonedPassKeepsIff` | src/codex_cli_monitor/websocket_sync.py:217-238 | in every reachable state between passes, a pass that raises before its sends keeps the guarantee if and only if pending clients already show its state and, if another client is open, the state had not changed |
| `Broadcaster.StaysBehind` | src/codex_cli_monitor/websocket_sync.py:217-251 | a client passed over stays on its last snapshot under any schedule that broadcasts the same state |
| `Broadcaster.AbandonedPassLosesAClient` | src/codex_cli_monitor/websocket_sync.py:219-238 | the run that shows it: a client registers with a stale snapshot, a pass for the new state raises, and the client stays stale |
| `WidgetUi.Widget.ApplySuccessfulFetchResult` | windows/CodexMonitorWidget/src/main.c:2354-2378 | the displayed list and the count of empty results after an accepted result |
| `WidgetUi.Widget.StartWebsocketConnection` | windows/CodexMonitorWidget/src/main.c:2380-2414 | a new generation clears the connection state; a failed launch leaves the widget idle |
| `WidgetUi.Widget.StartFetch` | windows/CodexMonitorWidget/src/main.c:2302-2327 | at most one fetch at a time, each with a new generation, and every failure clears the flag |
| `WidgetUi.Widget.WebsocketConnected` | windows/CodexMonitorWidget/src/main.c:4202-4222 | only the current generation's announcement connects, and it starts a fetch |
| `WidgetUi.Widget.WebsocketMessage` | windows/CodexMonitorWidget/src/main.c:4223-4302 | a frame is shown, ignored or answered by a new connection, by generation, identity and authority |
| `WidgetUi.Widget.WebsocketClosed` | windows/CodexMonitorWidget/src/main.c:4303-4324 | only the current generation's end disconnects |
| `WidgetUi.Widget.FetchDone` | windows/CodexMonitorWidget/src/main.c:4136-4201 | authority, mismatching socket, unversioned responses and failures, as one step |
| `WidgetUi.Widget.WebsocketTimer` | windows/CodexMonitorWidget/src/main.c:4095-4113 | reconnecting when too old, too slow or idle |
| `WidgetUi.DisplayMeans` | windows/CodexMonitorWidget/src/main.c:2354-2378 | the display shows the last nonempty result unless six empty ones in a row, with no failed fetch between them, followed it |
| `WidgetUi.Clearing` | windows/CodexMonitorWidget/src/main.c:2365-2372 | only the sixth empty result in a row clears the display |
| `WidgetLink.WebsocketGlobals.ReplaceGeneration` | windows/CodexMonitorWidget/src/websocket.c:42-61 | a new generation unregisters the previous socket and shuts down exactly that one |
| `WidgetLink.WebsocketGlobals.RegisterActive` | windows/CodexMonitorWidget/src/websocket.c:71-86 | a socket is registered iff its generation is current and none is registered |
| `WidgetLink.WebsocketGlobals.ClearActive` | windows/CodexMonitorWidget/src/websocket.c:88-100 | a socket is unregistered iff it is the registered one of the current generation |
| `WidgetLink.EveryRunKeeps` | windows/CodexMonitorWidget/src/websocket.c:263-357 | every interleaving of workers, posted messages, timers and failures keeps the invariants the next rows read off |
| `WidgetLink.FlagsAgree` | windows/CodexMonitorWidget/src/main.c:4136-4324 | never connected and connecting; connected iff the active generation is the current nonzero one; a named socket names the known authority, and so does the last result shown |
| `WidgetLink.RegisteredSocketIsCurrent` | windows/CodexMonitorWidget/src/websocket.c:42-100 | the registered socket is the one the current generation's worker holds open; a current worker is never turned away |
| `WidgetLink.IdleMeansGone` | windows/CodexMonitorWidget/src/websocket.c:319-357 | the window is idle iff the current generation's worker is gone, all it posted was heard, and its closing message was not lost |
| `WidgetLink.TimerRecovers` | windows/CodexMonitorWidget/src/main.c:4095-4113 | whatever messages could not be posted, the timer ends a wait exactly when its deadline is past, with a generation none of whose messages is queued or lost |
| `WidgetLink.ChecksThatNeverFail` | windows/CodexMonitorWidget/src/main.c:4223-4240 | a frame of the current generation finds it announced unless the announcement could not be posted, and a fetch result is always the latest fetch's |
| `WidgetLink.DisplayChangesOnlyBy` | windows/CodexMonitorWidget/src/main.c:4136-4302 | no frame of a superseded or unidentified socket, and no unversioned response under an authority, changes the displayed sessions |
| `WidgetLink.DisplayIsItsHistory` | windows/CodexMonitorWidget/src/main.c:4136-4302 | the display at the end of a run is what the results that run accepted and the fetches that failed in it display |
| `WidgetLink.RunShows` | windows/CodexMonitorWidget/src/main.c:2354-2378 | in every reachable state the widget shows the last nonempty result the run accepted, unless six empty ones in a row followed it |
| `WidgetLink.RunClears` | windows/CodexMonitorWidget/src/main.c:2365-2372 | a step that clears the display is the sixth in a row to accept an empty result |
| `WidgetHandled.FrameIsHandled` | windows/CodexMonitorWidget/src/main.c:4223-4302 | in every reachable state a good frame of the current, announced and identified socket is displayed and its instance id adopted, unless it names another backend, which keeps the display and starts a new connection; any other frame changes nothing |
| `WidgetHandled.FetchIsHandled` | windows/CodexMonitorWidget/src/main.c:4136-4201 | in every reachable state a good fetch result settles the authority and is displayed, unless it lacks the id an authority requires; it replaces a socket that named another backend; a failed one only forgets the count of empty results |
| `WidgetHandled.ConnectionIsHandled` | windows/CodexMonitorWidget/src/main.c:4202-4324 | only the current generation's announcement connects and starts a fetch, only its closing message disconnects, and neither touches authority or display |
| `WidgetHandled.IdleTimerReconnects` | windows/CodexMonitorWidget/src/main.c:4095-4113 | the timer starts the next generation for an enabled, idle widget and keeps the display |
| `WidgetHandled.RefreshFetches` | windows/CodexMonitorWidget/src/main.c:2302-2327 | the refresh timer starts a fetch unless one is under way, and touches nothing else |
| `JsonScanner.MatchingBrace` | windows/CodexMonitorWidget/src/main.c:2023-2052 | the loop stops where the specified scan of the remaining text stops |
| `JsonScanner.FindTopLevelKey` | windows/CodexMonitorWidget/src/main.c:1917-1954 | the loop returns the position the specified scan of the remaining text returns |
| `JsonScanner.ParseJsonString` | windows/CodexMonitorWidget/src/main.c:1956-1991 | the decoder writes the specified characters, bounded by the buffer, and nothing for a missing or non-string value |
| `JsonScanner.SplitObjects` | windows/CodexMonitorWidget/src/main.c:2099-2120 | the loop over the sessions array cuts out the specified objects |
| `JsonScannerProofs.MatchingBraceFindsTheEnd` | windows/CodexMonitorWidget/src/main.c:2023-2052 | for every printed object and any text behind it, exactly the object's end |
| `JsonScannerProofs.FindsTopLevelKey` | windows/CodexMonitorWidget/src/main.c:1917-1954 | for every printed object and any text behind it, the value of the first member with the key, whatever nested or quoted look-alikes there are |
| `JsonScannerProofs.QuotedKey` | windows/CodexMonitorWidget/src/main.c:1936-1945 | a quoted string is taken for the key iff it is the key and a colon follows |
| `JsonScannerProofs.ValueHidesKeys` | windows/CodexMonitorWidget/src/main.c:1923-1951 | a value hides every look-alike inside it |
| `JsonScannerProofs.DecodesPrintedString` | windows/CodexMonitorWidget/src/main.c:1956-1991 | a printed string decodes to its representable characters, as many as fit |
| `JsonScannerProofs.DecodingInvertsPrinting` | windows/CodexMonitorWidget/src/main.c:1956-1991 | the decoder inverts the printer iff the string fits and has no control characters but newline, return and tab |
| `JsonScannerProofs.FieldIsReadBack` | windows/CodexMonitorWidget/src/main.c:2054-2067 | looking up a string field of a printed object and decoding it gives that field |
| `JsonScannerProofs.SplitsSessionsArray` | windows/CodexMonitorWidget/src/main.c:2099-2120 | a printed array of objects is cut into exactly its objects, in order, up to the limit |
| `JsonSessions.ParseSessionsJson` | windows/CodexMonitorWidget/src/main.c:2081-2123 | the search for the word and the bracket and the loop behind them compute the specified objects |
| `JsonSessions.PassesString` | windows/CodexMonitorWidget/src/main.c:2083 | a printed string followed by anything but an s holds no quoted "sessions" unless it is that word or ends in a quote and that word |
| `JsonSessions.ReadsTheSessions` | windows/CodexMonitorWidget/src/main.c:2081-2123 | from a printed response with any text behind it, in which no earlier string mentions the word, exactly the objects of the sessions array, in order, up to the limit |
| `JsonSessions.OwnBracketIff` | windows/CodexMonitorWidget/src/main.c:2083-2104 | in any text with the word in front of it, a bracket is the one the widget reads from iff no bracket stands between the first mention and it |
| `JsonSessions.ReadsTheSessionsIff` | windows/CodexMonitorWidget/src/main.c:2081-2123 | from any printed response the widget reads from the bracket of a member sessions under exactly that condition, and then exactly the array's objects |
| `JsonSessions.MentionLosesTheSessions` | windows/CodexMonitorWidget/src/main.c:2083-2104 | responses whose first member has the word for its value and whose second is an empty array, from which no session is read |
| `ServerColors.ChooseServerColorIndex` | windows/CodexMonitorWidget/src/main.c:1627-1678 | the choice contrasts with the previous colour, is unused if any such is, and contrasts with the next if any such does |
| `ServerColors.CollectOrderedServerKeys` | windows/CodexMonitorWidget/src/main.c:1680-1699 | the servers in row order, a run of rows counted once |
| `ServerColors.ServerColorTable.Compact` | windows/CodexMonitorWidget/src/main.c:1709-1717 | the servers without rows leave the array in place, the others keep their order and colours |
| `ServerColors.ServerColorTable.CountUses` | windows/CodexMonitorWidget/src/main.c:1718-1724 | `used` is the count of each colour's assignments |
| `ServerColors.ServerColorTable.RepairOne` | windows/CodexMonitorWidget/src/main.c:1726-1764 | a suitable colour stays, any other is replaced by the best choice; no other server changes and `used` stays the count |
| `ServerColors.ServerColorTable.SyncServerColors` | windows/CodexMonitorWidget/src/main.c:1701-1765 | all neighbours end contrasting iff no server returns at an odd distance, and servers then keep every colour that suits their predecessor's; for any rows exactly the servers with rows remain, each with a colour, neighbours contrast wherever neither comes again, and a table without conflicts is left as it is |
| `ServerColors.OddReturnCannotSettle` | windows/CodexMonitorWidget/src/main.c:1618-1625 | where a server returns at an odd distance, no assignment of colours at all makes neighbours contrast |
| `ServerColors.BlocksAlternate` | windows/CodexMonitorWidget/src/main.c:1680-1699 | one block of rows per server rules that out |
| `ServerOrder.SortDirectoryRows` | windows/CodexMonitorWidget/src/main.c:1534-1548 | the in-place insertion sort is the stable sort by the row comparison |
| `ServerOrder.SortOrdersServers` | windows/CodexMonitorWidget/src/main.c:1487-1499 | it orders the rows by server name and id, whatever decides between rows of one server |
| `ServerOrder.SortOrdersTies` | windows/CodexMonitorWidget/src/main.c:1498-1531 | rows of one server come in the order of what decides between them |
| `ServerOrder.BuildRows` | windows/CodexMonitorWidget/src/main.c:1767-1811 | the nested loops compute the specified rows with their session indexes |
| `ServerOrder.RowsDivideUp` | windows/CodexMonitorWidget/src/main.c:1782-1810 | no two rows share server and directory, every session has a row, and each row lists exactly its group's sessions, in order, under the first one's names |
| `ServerOrder.ActiveServers` | windows/CodexMonitorWidget/src/main.c:1567-1582 | the servers with rows are exactly the servers with sessions |
| `ServerOrder.OneBlockAfterSorting` | windows/CodexMonitorWidget/src/main.c:1487-1499 | when each server has one id and name, its sorted rows form one block |
| `ServerOrder.RebuildDirectoryRows` | windows/CodexMonitorWidget/src/main.c:1767-1813 | grouping, sorting and colouring: the sorted rows still divide up the sessions; all neighbours contrast when sessions of one server agree on its names, and exactly when no server returns at an odd distance otherwise; a table under which all neighbours contrast is left unchanged |
| `ServerOrder.TwoNamesCannotContrast` | windows/CodexMonitorWidget/src/main.c:1487-1499 | four sessions of three servers, one under two names, for whose sorted rows no colours make all neighbours contrast |

## Left out

- Files, processes, SQLite, HTTP, sockets and notifications: byte sequences, snapshots and abstract steps stand for them; the clock, random numbers and the outcome of system calls are parameters.
- JSON and timestamp decoding in Python, and the extraction of anchors from hook events and command lines: parameters or fields of the model's inputs.
- Floating-point rounding: timestamps are reals, signatures and ticks are integers.
- Short writes to the hook log: a write is all or nothing; the platform without `fcntl`, where no lock is taken, and a `stat` that fails on an existing log.
- TurnsMaximalIffTogether: exact over all sets of live clients; for one given set it gives the sufficient half.
- MergeKeepsOrderIff: about files whose events in front of the tail differ pairwise; for repeated events it is only said which one the merged list ends in, and only when one has no timestamp (`TerminalMerge.NewestEndsTheListIff`).
- RecoveredInOrderIff, FirstScanInOrderIff: the same restriction, for the second on all events of the file.
- ReadsTheSessions: the case of responses without an earlier mention; the others are told apart by `JsonSessions.ReadsTheSessionsIff`.
- ReadSegment: segments are append-only, as the reader assumes; a file rewritten in place under the same inode is not covered.
- LongLineIsLost: for lines free of NUL bytes, which the decoder skips.
- HookSummary: the grouping of hook states by directory and the order of the returned tool ids, which only repackage the states.
- FinishedRowShown, OpenRowShown: which of several rows with the same latest activity is shown.
- HookInstaller: the result's lists of event names, the explicitly disabled flag and the detail text, the backup and atomic replacement of the file, and the Windows command line.
- The projection of a Qoder parse state into the reported record, and evidence strings, confidence numbers and payload formatting everywhere.
- TerminalTail: two threads that refresh the same file at once; each refresh reads and stores its entry as one step.
- Broadcaster: the send and receive loops that empty the queues, and registration without an initial snapshot in the interleaving machine.
- WidgetLink: 32-bit wrap-around of generations, and the refresh timer's choice of when to fetch, which is any time here.
- WidgetUi: truncation of instance ids to their buffers, error texts, dragging and repainting.
- JsonScanner: numbers, and non-ASCII text beyond passing it through.
- ServerOrder: the order of a row's sessions, which the widget sorts for display; start times, positions and directories enter the row comparison as one rank, which they decide after the server; the 255-character bound on server keys.
- `opencode_hook_state.py` and `install_opencode_hooks.py`: near copies of the hook log and the installer; the former opens its lock file without acquiring the lock, so the concurrency theorem is not about it.
- `classify.py`, `claude_state.py`, `collector.py`, `aggregation.py`, `api.py`, `cli.py`, `web.py`, `procfs.py`, `shim.py`, and the widget's painting, menus and animation: thresholds, validation, request handling and user interface, which carry little state from one call to the next.
