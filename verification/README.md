# ReuleauxCoder: a verified model of its stateful core

This project models the parts of ReuleauxCoder in which state, interleaving or streaming has
to agree with a simple specification, and proves that it does. Every theorem quantifies over
all inputs, all reachable states or all interleavings; nothing is bounded.

`dafny verify dfyconfig.toml` verifies the whole project.

| file | subject |
|---|---|
| `StartProtocol.dfy` | process starts of the Go peer: idempotency keys, reservations, capacity, closing |
| `ProcessSessions.dfy` | the Python process manager: capacity, port reference counts, expiry, completion events |
| `ApprovalQueue.dfy` | the approval coordinator: one queue, one focus, grant release, cancellation |
| `ApprovalPolicy.dfy` | rule ranking, strictest decision, grants, offered file scopes |
| `Utf8.dfy`, `BoundedBuffer.dfy` | section 4 of RFC 3629, and the bounded output buffer polled by offset |
| `SensitiveFilter.dfy` | redaction of hidden values across chunk boundaries |
| `Lines.dfy`, `TextPage.dfy`, `TextSearch.dfy` | line splitting, the streaming pager, the bounded search |
| `Glob.dfy`, `WorkspaceScan.dfy` | the `**` matcher and the directory scan pruned with it |
| `HistoryLedger.dfy`, `OutputJournal.dfy`, `Plan.dfy`, `Goals.dfy` | the ledger and what is rebuilt from it |
| `RowPainter.dfy`, `BoundedCache.dfy` | terminal row composition behind a weighted LRU cache |
| `ImageMarkers.dfy`, `ImageProjection.dfy` | image markers in chat input, fewer images after a rejected request |
| `Prelude.dfy` | what several modules share |

How the model is built. A component that updates fields becomes a class whose methods follow the
code; each method is proved equal to a function on values. The laws are proved about those functions,
and wherever a record stands for what happened, it is tied to the log of steps itself. Concurrency is a step relation: one step is one section that runs under the component's
lock, and a run is any sequence of enabled steps. Clocks, processes, timers and random ids are
arbitrary step arguments or fresh numbers.

Claims that are false of the code as it stands, each with an input that shows it and the exact
condition under which the claim holds:

- Starts with one key that overlap one reservation need not agree: a start turned away before it
  looks at the reservation, by the checks before the lock or because the manager is closing, agrees
  with the others exactly when the reservation ended in the same error (`OverlappingStartsAgree`,
  `TurnedAwayIff`, `ClosingSplitsStarts`).
- Undoing a start can take the entry of another start that got the same session id after the first
  one expired; it spares the others exactly while its own entry, or none, is filed under the id
  (`UndoDropsOwnIff`, `UndoDropsAnother`).
- More than one approval can be with its handler, because a cancelled one still runs when the next is
  presented; it never happens exactly in the runs that present nobody meanwhile
  (`AlwaysExclusiveIff`, `CancelledOverlaps`).
- A narrower approval rule need not outrank a broader one: a subtree inside a subtree is no more
  specific (`WithinIff`, `NarrowerOutranksIff`, `InnerSubtreeLoses`).
- The hidden-value filter is independent of chunking only for prefix-free value sets
  (`ChunkInvariantIffPrefixFree`, `PrefixBreaks`).
- A final poll can cut a character at the poll limit (`FinalPollValidIff`, `FinalPollCanCut`).
- Plan recovery forgets a committed call with an empty id, and misremembers one whose explanation
  is cut behind a space (`RecoveryExact`, `ReplayChangesNothing`, `EmptyIdIsForgotten`,
  `CutCanEndInSpace`).
- A goal snapshot can hide a later commit that carries the same time stamp. Every snapshot restores
  to the last commit exactly when each commit with the stamp of the last one is told apart from it by
  nothing but active time (`RestoreExactIff`, `EqualStampsLoseUsage`).
- A recovery step that reports success need not send fewer images, because it counts images outside
  the current turn (`RecoveryShrinksIff`, `OlderTurnsMislead`).
- The cache does not always hold the most recent part of what a cache without bounds would hold: a
  get that misses is no use of its key, and a set that is too heavy is not kept (`AlwaysRecentIff`,
  `MissIsNoUse`); it is in order of the uses it has seen (`RunKeeps`).

## Model

| member | source | states |
|---|---|---|
| StartProtocol.Manager.CleanupTerminal | reuleauxcoder-agent/internal/process/manager.go:651-662 | exactly the expired processes leave both tables |
| StartProtocol.Manager.Reserve | reuleauxcoder-agent/internal/process/manager.go:229-274 | the answer and the tables after the first locked section: refuse, reuse, join, reject or reserve |
| StartProtocol.Manager.Register | reuleauxcoder-agent/internal/process/manager.go:330-348 | the answer and the tables after the second locked section |
| StartProtocol.Manager.Settle | reuleauxcoder-agent/internal/process/manager.go:275-282 | the deferred section ends exactly its own reservation |
| StartProtocol.Manager.Remove | reuleauxcoder-agent/internal/process/manager.go:642-649 | a process is dropped only while it is the registered one, from both tables |
| StartProtocol.RunKeeps | reuleauxcoder-agent/internal/process/manager.go:218-378 | in every interleaving the process and key tables are inverse, registered processes plus unregistered reservations stay within 64, and every call is answered by the reservation it owns or joined |
| StartProtocol.OverlappingStartsAgree | reuleauxcoder-agent/internal/process/manager.go:229-282 | two starts that overlap one reservation of their key have the same result iff neither was turned away at once, or the error it was turned away with is that of the other or of the reservation |
| StartProtocol.TurnedAwayIff | reuleauxcoder-agent/internal/process/manager.go:218-243 | a start that meets a reservation of its key is turned away iff an id, key or command is missing, a terminal is asked for, or the manager is closing |
| StartProtocol.ClosingSplitsStarts | reuleauxcoder-agent/internal/process/manager.go:229-243 | the run in which closing comes between a registration and its end: the owner has its process and a second start with the key is refused |
| StartProtocol.LateChecksUnreachable | reuleauxcoder-agent/internal/process/manager.go:336-345 | in no run does the second section find a duplicate id or key |
| StartProtocol.NothingRegisteredAfterClose | reuleauxcoder-agent/internal/process/manager.go:664-675 | once closing has begun, however the run goes on, the process table only shrinks |
| StartProtocol.ClosingIff | reuleauxcoder-agent/internal/process/manager.go:664-667 | in every run the manager is closing exactly since it was told to close |
| StartProtocol.RegisteredIff | reuleauxcoder-agent/internal/process/manager.go:330-348 | in every run a process is registered after a step iff it was and is neither released nor named by an expiry that comes with an accepted start, or the step is the second section of its own start on an open manager |
| StartProtocol.RunningStays | reuleauxcoder-agent/internal/process/manager.go:651-662 | a process that was ever registered stays registered under its id and its key until it exits, whatever starts, expiries and releases come |
| StartProtocol.StartAnswered | reuleauxcoder-agent/internal/process/manager.go:218-282 | every start on an open manager is answered by what is retained and in flight once the expired processes are gone: the process of its key, the reservation of its key, a refusal if its id is taken or 64 sessions are held, otherwise a reservation of its own; exactly the retained processes stay |
| StartProtocol.EndHasCause | reuleauxcoder-agent/internal/process/manager.go:275-378 | a reservation ends with its own process, which it registered, or with the error of its own launch, or refused by closing |
| StartProtocol.ReusedUnlessOwner | reuleauxcoder-agent/internal/process/manager.go:238-246 | of all starts that get a process, exactly the one whose reservation launched it is told that it is new |
| ProcessSessions.ProcessManager.CleanupExpired | reuleauxcoder/domain/process_manager.py:1083-1098 | exactly the due entries last seen exited leave |
| ProcessSessions.ProcessManager.DropIdlePort | reuleauxcoder/domain/process_manager.py:1124-1131 | the port leaves iff no start counts it and no entry uses it |
| ProcessSessions.ProcessManager.BeginStart | reuleauxcoder/domain/process_manager.py:202-223 | the tables and counters after a reservation, or after its refusal |
| ProcessSessions.ProcessManager.RegisterEntry | reuleauxcoder/domain/process_manager.py:251-259 | an entry is filed iff the manager is open and the id is free |
| ProcessSessions.ProcessManager.FinishStart | reuleauxcoder/domain/process_manager.py:283-293 | both start counters go down and the port is given up exactly when nothing holds it |
| ProcessSessions.ProcessManager.PublishEntry | reuleauxcoder/domain/process_manager.py:295-313 | the published entry, and the completion event if its exit was already seen |
| ProcessSessions.ProcessManager.AbandonEntry | reuleauxcoder/domain/process_manager.py:315-326 | an unpublished entry leaves if exited and is watched otherwise |
| ProcessSessions.ProcessManager.WatchRound | reuleauxcoder/domain/process_manager.py:908-951 | the entry, the table and the event after one watcher round |
| ProcessSessions.RunKeeps | reuleauxcoder/domain/process_manager.py:202-313 | every run keeps ids and entries in step, the start counters exact, the capacity, the ports and the event log |
| ProcessSessions.CapacityHolds | reuleauxcoder/domain/process_manager.py:205-220 | in every reachable state entries plus unregistered starts are at most `max_sessions`, and the start count is the sum of the per-port counts |
| ProcessSessions.PortsHeld | reuleauxcoder/domain/process_manager.py:218-293 | until shutdown clears the tables, the port of every entry and of every start is known |
| ProcessSessions.LiveEntriesStay | reuleauxcoder/domain/process_manager.py:1083-1098 | over any stretch of a run, an entry never seen exited stays filed unless its start is undone or shutdown clears it |
| ProcessSessions.UndoDropsOwnIff | reuleauxcoder/domain/process_manager.py:269-274 | undoing a start spares the entries of all others iff its own entry is filed under its id or none is |
| ProcessSessions.UndoDropsAnother | reuleauxcoder/domain/process_manager.py:269-274 | the run in which a start is undone after its entry expired and takes the running entry of another start with that id |
| ProcessSessions.CompletedOnce | reuleauxcoder/domain/process_manager.py:295-313 | COMPLETED goes out at most once per session, and exactly once for one that completed without being abandoned |
| ProcessSessions.ExitIsReported | reuleauxcoder/domain/process_manager.py:925-948 | when the watcher sees a published session exit, COMPLETED has been emitted once, by `publish` or by the watcher |
| ProcessSessions.HistoryTells | reuleauxcoder/domain/process_manager.py:295-326 | in every run, from the log alone: a session counts as published once a publish came for it, as abandoned once an abandon came before any publish, its state is the last one shown, and COMPLETED is out iff a publish found it exited or its watcher saw it exit published and unabandoned |
| ProcessSessions.ReportedIffDue | reuleauxcoder/domain/process_manager.py:295-313 | COMPLETED of a session has gone out once if the log makes it due, and not at all otherwise |
| ProcessSessions.PublishedExitReported | reuleauxcoder/domain/process_manager.py:925-948 | for a session that was published and never abandoned, the watcher that sees its exit leaves exactly one COMPLETED |
| ProcessSessions.PublishedNotDropped | reuleauxcoder/domain/process_manager.py:315-326 | no abandon drops a session that was published |
| ProcessSessions.FiledIff | reuleauxcoder/domain/process_manager.py:251-326 | in every run an entry is filed by its registration only, and leaves by expiry, an undone start, an abandon, its watcher or shutdown only, each under its own condition |
| ProcessSessions.WatcherTells | reuleauxcoder/domain/process_manager.py:295-326 | in every run a session is watched from the launch after a publish, an abandon that finds it running, or shutdown, until its watcher sees it exit; it counts as observed once a consumer was shown the exit |
| ProcessSessions.StartGrantedIff | reuleauxcoder/domain/process_manager.py:202-220 | a start is granted iff the manager is open and the entries left by expiry and the starts under way are fewer than `max_sessions` |
| ProcessSessions.PortKnownIff | reuleauxcoder/domain/process_manager.py:283-293 | in every run a port becomes known by a granted start, and is forgotten iff shutdown clears it, or a start ends or a release drops it and no entry and no other start is on it |
| ProcessSessions.ClosingIff | reuleauxcoder/domain/process_manager.py:750-763 | in every run the manager is closing exactly since shutdown began |
| ProcessSessions.NothingAfterShutdown | reuleauxcoder/domain/process_manager.py:203-204 | from then on no start is granted and no entry filed |
| ApprovalQueue.Coordinator.RefreshStatus | reuleauxcoder/domain/approval.py:472-476 | every queued request's position and waiting count are its true ones |
| ApprovalQueue.Coordinator.Enqueue | reuleauxcoder/domain/approval.py:353-358 | the request joins at the end with fresh status |
| ApprovalQueue.Coordinator.ReleaseCovered | reuleauxcoder/domain/approval.py:422-450 | exactly the waiting requests the grant covers leave, resolved as allowed, and their ids are returned in queue order |
| ApprovalQueue.Coordinator.CancelMatching | reuleauxcoder/domain/approval.py:452-470 | exactly the matching requests leave, resolved as denied, and their ids are returned in queue order |
| ApprovalQueue.Coordinator.LeaveQueue | reuleauxcoder/domain/approval.py:389-399 | the request leaves the queue and the others are renumbered |
| ApprovalQueue.RunKeeps | reuleauxcoder/domain/approval.py:353-476 | in every interleaving the queue holds unresolved requests in arrival order with true positions |
| ApprovalQueue.OneFocus | reuleauxcoder/domain/approval.py:359-399 | a request with its handler is the queue head, resolved or not, or has left the queue with a resolution; beside a head with its handler all others have left |
| ApprovalQueue.AlwaysExclusiveIff | reuleauxcoder/domain/approval.py:353-470 | over every run, at most one request is ever with its handler iff no request is presented while one that was taken from the queue still is |
| ApprovalQueue.CancelledOverlaps | reuleauxcoder/domain/approval.py:452-470 | two arrivals, the first presented and then cancelled, the second presented: both are with their handlers |
| ApprovalQueue.PresentedInArrivalOrder | reuleauxcoder/domain/approval.py:353-372 | requests are presented in order of arrival |
| ApprovalQueue.UnpresentedOutcome | reuleauxcoder/domain/approval.py:359-368 | a request that was never presented returns its one resolution |
| ApprovalQueue.ResolvedWhileWaiting | reuleauxcoder/domain/approval.py:359-372 | a request resolved while it waited is never presented, however the run goes on |
| ApprovalQueue.NoStall | reuleauxcoder/domain/approval.py:353-399 | in every reachable state an unfinished request can move, or an unfinished one heads the queue before it |
| ApprovalQueue.LogTells | reuleauxcoder/domain/approval.py:353-450 | in every run the decisions given to a request and its answer are those the log of steps gives: the last decision when its wait ends, a denial on failure, time-out or refused grant |
| ApprovalQueue.WokenReturns | reuleauxcoder/domain/approval.py:380-388 | a request whose wait ends returns the last decision it was given; a session grant only if the session accepted it, and a denial otherwise, whatever comes later |
| ApprovalQueue.FailureDenies | reuleauxcoder/domain/approval.py:375-386 | a request whose handler fails or that times out returns a denial, whatever comes later |
| ApprovalQueue.AllowedWasTold | reuleauxcoder/domain/approval.py:380-450 | in every run an answer that allows is one of the decisions given to the request, and a presented request is allowed for the session only after its grant was accepted |
| ApprovalQueue.TakenIds | reuleauxcoder/domain/approval.py:422-470 | the ids returned by a release or a cancellation are those of the requests taken, one for each |
| ApprovalPolicy.RankingDecides | reuleauxcoder/domain/approval_engine.py:48-124 | the deciding rule is the earliest applying rule of maximal specificity |
| ApprovalPolicy.WithinIff | reuleauxcoder/domain/approval_engine.py:126-151 | a rule meets no call that another one does not, with subjects or without, iff it asks for all its dimensions and its pattern lies within the other's |
| ApprovalPolicy.NarrowerOutranksIff | reuleauxcoder/domain/approval_engine.py:96-124 | of two rules of which one meets no more calls, the narrower is never less specific, and is more specific iff it names a further dimension or a narrower kind of pattern |
| ApprovalPolicy.InnerSubtreeLoses | reuleauxcoder/domain/approval_engine.py:115-121 | an allow on `a/**` before a deny on `a/b/**` allows `a/b/x` |
| ApprovalPolicy.WorthOfOne | reuleauxcoder/domain/approval_engine.py:96-124 | what each single dimension and each kind of pattern is worth |
| ApprovalPolicy.Evaluate | reuleauxcoder/domain/approval_engine.py:48-95 | the result is the decision for some subject, and no subject's decision is stricter |
| ApprovalPolicy.StrictestWins | reuleauxcoder/domain/approval_engine.py:67-89 | one denied subject denies the call; short of that, one in need of approval asks for it; then one warning warns |
| ApprovalPolicy.UnmetGetsDefault | reuleauxcoder/domain/approval_engine.py:48-66 | a call no rule meets gets the default mode, save for the two internal effect classes, which are allowed |
| ApprovalPolicy.SubjectOrderIrrelevant | reuleauxcoder/domain/approval_engine.py:67-89 | the action does not depend on the order or repetition of subjects |
| ApprovalPolicy.EngineAllowsIffCovered | reuleauxcoder/domain/approval.py:144-176 | with a grant's allow rules as configuration the engine allows iff the grant covers the call or the fallback allows |
| ApprovalPolicy.CoversIff | reuleauxcoder/domain/approval.py:144-176 | a grant covers a call iff their scope keys agree and for every subject some allow rule of the grant meets the call |
| ApprovalPolicy.SelfMatch | reuleauxcoder/domain/approval_engine.py:144-151 | every subject matches itself as a pattern, whatever wildcards it spells |
| ApprovalPolicy.ComponentsOfJoin | reuleauxcoder/domain/approval_subjects.py:71-105 | splitting a joined path gives its components back |
| ApprovalPolicy.OfferedScopesCover | reuleauxcoder/domain/approval_subjects.py:71-105 | every scope offered for canonical relative subjects covers all of them |
| ApprovalPolicy.DirectoryOfferedIff | reuleauxcoder/domain/approval_subjects.py:86-105 | for workspace paths a directory is offered iff some directory holds them all, and it is the deepest that does |
| ApprovalPolicy.AbsoluteOfferedAlone | reuleauxcoder/domain/approval_subjects.py:86-87 | with a path outside the workspace only the exact files are offered |
| Utf8.DecodeAgrees | reuleauxcoder-agent/internal/process/manager.go:103-115 | Go's decoding sizes agree with the character grammar of section 4 of RFC 3629 |
| Utf8.BoundaryIsRuneStart | reuleauxcoder-agent/internal/process/manager.go:69-101 | in valid text the character boundaries are exactly the rune starts |
| Utf8.UnfinishedIff | reuleauxcoder-agent/internal/process/manager.go:103-115 | bytes are taken for an incomplete rune iff more bytes could make them a character; they are at most three |
| BoundedBuffer.Buffer.Write | reuleauxcoder-agent/internal/process/manager.go:48-67 | the buffer holds exactly the last min(total, 512 KiB) bytes ever written |
| BoundedBuffer.Buffer.Poll | reuleauxcoder-agent/internal/process/manager.go:69-101 | the text, the next offset and the flags of a poll, in terms of all bytes written |
| BoundedBuffer.ConsumablePrefix | reuleauxcoder-agent/internal/process/manager.go:103-115 | the end of the longest run of complete runes, or everything when final |
| BoundedBuffer.CompleteIsLastBoundary | reuleauxcoder-agent/internal/process/manager.go:103-115 | over valid bytes that end is the last character boundary, at most three bytes back |
| BoundedBuffer.ResumesAtRune | reuleauxcoder-agent/internal/process/manager.go:69-87 | for any bytes and any offset: where a poll starts reading, and that it skips to the first rune start only where bytes were dropped |
| BoundedBuffer.PollReadsToLimit | reuleauxcoder-agent/internal/process/manager.go:88-115 | for any bytes a poll reads to its limit, save for at most three bytes that may still become a character; a final one reads all |
| BoundedBuffer.PollOfValidStream | reuleauxcoder-agent/internal/process/manager.go:69-101 | a non-final poll resumes at the reader's boundary or the first retained one, returns whole characters and leaves at most three readable bytes |
| BoundedBuffer.ReaderReconstructs | reuleauxcoder-agent/internal/process/manager.go:48-115 | over every interleaving of writes and non-final polls, each chunk is valid UTF-8 and a reader that keeps up holds exactly the stream prefix |
| BoundedBuffer.FinalPollValidIff | reuleauxcoder-agent/internal/process/manager.go:88-107 | a final poll returns valid text iff the limit does not cut a character |
| BoundedBuffer.FinalPollCanCut | reuleauxcoder-agent/internal/process/manager.go:88-107 | a two-byte character polled with limit 1 is cut |
| SensitiveFilter.Filter.Apply | reuleauxcoder/domain/process_manager.py:126-154 | the output and the pending text of one chunk are those of the recursive redaction |
| SensitiveFilter.FirstMatchLongest | reuleauxcoder/domain/process_manager.py:132-144 | the first match in the list sorted by length is the longest match |
| SensitiveFilter.FeedIsRedact | reuleauxcoder/domain/process_manager.py:126-154 | for prefix-free values any split gives the redaction of the whole text |
| SensitiveFilter.ChunkInvariantIffPrefixFree | reuleauxcoder/domain/process_manager.py:126-154 | independence of chunking holds iff no value is a proper prefix of another |
| SensitiveFilter.PrefixBreaks | reuleauxcoder/domain/process_manager.py:139-150 | for any value and proper prefix of it, a split that changes the output |
| SensitiveFilter.NothingLeaks | reuleauxcoder/domain/process_manager.py:126-154 | for any values and any split, no literal run of the output spells a hidden value |
| SensitiveFilter.OnlyValuesHidden | reuleauxcoder/domain/process_manager.py:126-154 | for any values and any split, the output is the text with some of its values replaced by marks and nothing else changed |
| SensitiveFilter.PendingIsShort | reuleauxcoder/domain/process_manager.py:147-150 | what is held back is a proper prefix of some value |
| Lines.PythonSplitLines | reuleauxcoder-agent/internal/workspace/search.go:187-210 | the index loop returns the lines of the text |
| Lines.SplitAtLineFeed | reuleauxcoder-agent/internal/workspace/search.go:187-210 | text cut after a line feed has the lines of both parts in order |
| Lines.LinesGiveText | reuleauxcoder-agent/internal/workspace/search.go:187-210 | the lines, each without a break and followed by its line end, are the text; no carriage return is cut from its line feed |
| TextPage.ReadTextPage | reuleauxcoder-agent/internal/workspace/text_page.go:13-104 | the joined lines are the first `max_chars` characters of the joined selection; `truncated`, `has_more` and the total hold exactly when they should |
| TextPage.PageIsWindow | reuleauxcoder-agent/internal/workspace/text_page.go:13-104 | a page that is not cut holds exactly the lines from `offset` on, at most `limit`, and tells truly whether there are more |
| TextPage.ChainReadsAll | reuleauxcoder-agent/internal/workspace/text_page.go:13-104 | a reader who asks for the next page while there is more has read every line once, in order |
| TextSearch.CharIsScalar | reuleauxcoder-agent/internal/workspace/text_search.go:157 | the grammar admits only shortest encodings of scalar values |
| TextSearch.PieceLines | reuleauxcoder-agent/internal/workspace/text_search.go:144-158 | reading up to a line feed splits the lines of the file there |
| TextSearch.ScanFile | reuleauxcoder-agent/internal/workspace/text_search.go:138-190 | reported hits are the first hits of the file with their true line numbers, all of them if the file was finished; every budget holds, and each reason given holds |
| TextSearch.Visit | reuleauxcoder-agent/internal/workspace/text_search.go:90-190 | the same for one visited entry with its entry, file and size limits |
| TextSearch.SearchFiles | reuleauxcoder-agent/internal/workspace/text_search.go:86-190 | every match names a matching line of its file by its number and shows it trimmed and cut as it should be; unless stopped, every matching line of every file neither binary nor too large is found; a reason to stop is given only if it holds, and the matches are the first hits of each file reached, in order |
| TextSearch.ReportNames | reuleauxcoder-agent/internal/workspace/text_search.go:159-175 | the report of a hit has its path and line number, and the line without trailing white space, cut exactly if it is flagged |
| TextSearch.LineIsHit | reuleauxcoder-agent/internal/workspace/text_search.go:157-161 | every line that meets the matcher is a hit under its number |
| TextSearch.DigitsCount | reuleauxcoder-agent/internal/workspace/text_search.go:167 | a line number costs as many characters as its decimal form has |
| TextSearch.PagerShowsMatch | reuleauxcoder-agent/internal/workspace/text_search.go:157-175 | in valid text a page at the line number of a match begins with the line the match shows, or with its first `max_chars` characters if it is longer |
| Glob.States | reuleauxcoder/domain/workspace.py:368-390 | the nested loops fill the state vector |
| Glob.StateIffCuts | reuleauxcoder/domain/workspace.py:368-390 | a state holds iff the pattern prefix can be cut over the path prefix, `**` taking any number of segments |
| Glob.MatchPath | reuleauxcoder/domain/workspace.py:354-359 | a path matches iff the whole pattern can be cut over it |
| Glob.CanMatchDescendant | reuleauxcoder/domain/workspace.py:361-366 | the test on the state vector is the open-directory predicate |
| Glob.MatchBelowIsOpen | reuleauxcoder-agent/internal/workspace/search.go:55-67 | a directory with a match strictly below it is open |
| Glob.OpenIffMatchBelow | reuleauxcoder/domain/workspace.py:361-366 | a directory is open iff some path of non-empty, slash-free names strictly below it matches, when every plain segment accepts such a name |
| WorkspaceScan.ScanWorkspace | reuleauxcoder-agent/internal/workspace/search.go:85-122 | the stack scan visits the first `maxEntries` paths of the recursive order and says whether the bound was hit |
| WorkspaceScan.PrunedKeepsAll | reuleauxcoder-agent/internal/workspace/search.go:85-122 | pruning with any sound predicate keeps the same matches in the same order |
| WorkspaceScan.PrunedGlob | reuleauxcoder-agent/internal/workspace/search.go:40-70 | a glob scan that hits no limit finds what the unpruned scan finds |
| WorkspaceScan.OrderIff | reuleauxcoder-agent/internal/workspace/search.go:85-122 | a scan visits exactly the entries to which a path of open directories leads |
| WorkspaceScan.OrderNoRepeats | reuleauxcoder-agent/internal/workspace/search.go:85-122 | it visits each of them once, where no directory lists a name twice |
| WorkspaceScan.GlobFindsMatches | reuleauxcoder-agent/internal/workspace/search.go:40-70 | the unpruned glob finds exactly the entries of the tree that match |
| WorkspaceScan.GlobEntries | reuleauxcoder-agent/internal/workspace/search.go:40-70 | the matching entries in scan order |
| HistoryLedger.HistoryLedger.AppendEvent | reuleauxcoder/domain/history.py:143-181 | the event and the ledger, sink or buffer after an append |
| HistoryLedger.HistoryLedger.CommitMessage | reuleauxcoder/domain/history.py:183-225 | the ledger after a message and its semantic event |
| HistoryLedger.HistoryLedger.CommitContextView | reuleauxcoder/domain/history.py:227-263 | the ledger after a context view and its checkpoint |
| HistoryLedger.HistoryLedger.BindJsonl | reuleauxcoder/domain/history.py:269-296 | buffered events go to the new sink in order and the buffer empties |
| HistoryLedger.HistoryLedger.RaiseSeqFloor | reuleauxcoder/domain/history.py:131-141 | accepted iff not negative; the counter is raised and never lowered |
| HistoryLedger.PairIsAppends | reuleauxcoder/domain/history.py:372-382 | a batch of two events leaves exactly what two single appends leave |
| HistoryLedger.LoadBegins | reuleauxcoder/domain/history.py:86-100 | loading sorts the events without losing any and starts the counter just above the highest of them or the floor |
| HistoryLedger.RunKeeps | reuleauxcoder/domain/history.py:320-382 | over every run, written events followed by buffered ones are the appended events in order, numbers increase strictly, and a semantic event directly follows its message |
| HistoryLedger.LaterEventsAbove | reuleauxcoder/domain/history.py:131-181 | the ledger and the sinks only grow at the end, with numbers above all used or reserved before |
| HistoryLedger.FloorHolds | reuleauxcoder/domain/history.py:131-141 | every event after a raised floor is numbered above it |
| HistoryLedger.SinkIncreases | reuleauxcoder/domain/history.py:329-352 | what was written to sinks increases strictly, so nothing is written twice |
| HistoryLedger.RunIsBook | reuleauxcoder/domain/history.py:143-382 | over every run the ledger, its sinks and its buffer hold what a plain book without batches holds: kind, number, generation, session and author of each event, and the file it went to |
| HistoryLedger.SemanticKindIff | reuleauxcoder/domain/history.py:389-409 | for each kind of semantic event, exactly the messages it is recorded for |
| OutputJournal.OutputJournal.FlushAll | reuleauxcoder/domain/output_journal.py:112-135 | every non-empty buffer becomes one checkpoint, in stream order, and the count goes down by its length |
| OutputJournal.OutputJournal.RecordEvent | reuleauxcoder/domain/output_journal.py:69-102 | the journal after a text or a final tool result, with its flush or timer |
| OutputJournal.OutputJournal.FlushScheduled | reuleauxcoder/domain/output_journal.py:104-110 | only the current timer flushes |
| OutputJournal.OutputJournal.CommitMessage | reuleauxcoder/domain/output_journal.py:137-159 | flush, message with its acknowledgements, forgotten streams |
| OutputJournal.CommitTakesItsStreams | reuleauxcoder/domain/output_journal.py:138-159 | an assistant message acknowledges and closes exactly the open streams that are not of tools, a tool message exactly that of its call |
| OutputJournal.InterruptedOutput | reuleauxcoder/domain/output_journal.py:167-193 | one item for exactly each checkpointed, unacknowledged stream, in order of first checkpoint, with its label and its folded text |
| OutputJournal.RunKeeps | reuleauxcoder/domain/output_journal.py:47-165 | over every run, checkpoints and then the buffer give what each stream said, acknowledgements are exact, the pending count is exact |
| OutputJournal.CheckpointsArePrefixes | reuleauxcoder/domain/output_journal.py:29-30 | at any point the checkpoints hold a prefix of each text; all that is missing is the buffers, fewer than 65536 characters, with a timer set |
| OutputJournal.RecoveryAfterClose | reuleauxcoder/domain/output_journal.py:161-193 | after a close, recovery lists exactly the unacknowledged streams, each with all it said |
| OutputJournal.StreamsSayWhatWasSaid | reuleauxcoder/domain/output_journal.py:69-102 | at any point of any run each kind and call has at most one open stream; it has one iff it said something since its output last ended, and the stream has said exactly that |
| OutputJournal.EndedIsFinal | reuleauxcoder/domain/output_journal.py:59-68 | the text of a stream that has ended never changes again |
| OutputJournal.CheckpointsLabelled | reuleauxcoder/domain/output_journal.py:116-132 | in every run the checkpoints of an open stream carry its kind and name |
| OutputJournal.OpensAsTold | reuleauxcoder/domain/output_journal.py:79-89 | a text opens a stream iff none of its kind and call is open, under that kind, call and name |
| Plan.ValidateItems | reuleauxcoder/domain/plan.py:341-374 | the loop accepts, or names the first fault, as the specification does |
| Plan.ValidatedIsSound | reuleauxcoder/domain/plan.py:341-374 | accepted plans keep every limit: number, lengths, statuses, one active item, serialized length |
| Plan.SoundValidates | reuleauxcoder/domain/plan.py:341-374 | a plan that keeps the limits validates as itself, so validation is idempotent |
| Plan.SerializedIsLong | reuleauxcoder/domain/plan.py:369-374 | the length checked is that of the plan's JSON text |
| Plan.StripIff | reuleauxcoder/domain/plan.py:350 | the stripped text is the only one that keeps all but the white space at both ends |
| Plan.ValidateIff | reuleauxcoder/domain/plan.py:341-374 | validation accepts exactly the plans whose items stand for sound items, an item without an active form for its step, and gives those |
| Plan.ValidateFault | reuleauxcoder/domain/plan.py:341-374 | a refused plan is refused for the first thing that is wrong with it |
| Plan.PlanController.UpdatePlan | reuleauxcoder/domain/plan.py:97-148 | the controller and the ledger after an update, or the error |
| Plan.PlanController.ReportProgress | reuleauxcoder/domain/plan.py:150-215 | the controller and the ledger after a report, or the error |
| Plan.PlanController.RecoverFromLedger | reuleauxcoder/domain/plan.py:231-331 | the two passes rebuild the recovered controller, or fail exactly on an invalid plan |
| Plan.RestrippedIff | reuleauxcoder/domain/plan.py:275-277 | stripping the cut explanation again changes it iff the cut falls behind a space |
| Plan.RecoveryExact | reuleauxcoder/domain/plan.py:97-293 | over every run the plan and the progress are those of the ledger, and the rebuilt table of calls is the live one iff every committed call has an id and a clean cut |
| Plan.RecoverIsLive | reuleauxcoder/domain/plan.py:231-293 | recovery succeeds after every run and equals the live controller under that condition |
| Plan.ReplayChangesNothing | reuleauxcoder/domain/plan.py:105-173 | a committed update or report replayed any time later changes nothing; after a recovery iff the call was recallable |
| Plan.OnlyAcceptedCommitted | reuleauxcoder/domain/plan.py:108-137 | over every run the plan is that of the last valid update of this generation with a new id, the progress likewise, each numbered by their count, and the table knows exactly the ids used |
| Plan.CallAnswered | reuleauxcoder/domain/plan.py:108-117 | a valid call is committed iff its id is new and its generation current; any other changes nothing and is answered by what is known of its id |
| Plan.OtherDataRefused | reuleauxcoder/domain/plan.py:109-114 | a committed id made again with other data is refused, however much later |
| Plan.CutCanEndInSpace | reuleauxcoder/domain/plan.py:106 | 499 letters, a space and a letter make the rebuilt table differ |
| Plan.EmptyIdIsForgotten | reuleauxcoder/domain/plan.py:270-272 | a call with an empty id makes the rebuilt table differ |
| Goals.GoalController.CreateGoal | reuleauxcoder/domain/goal.py:77-95 | the new goal, or the error; an unfinished goal is kept |
| Goals.GoalController.UpdateGoal | reuleauxcoder/domain/goal.py:97-139 | the edited goal, stopped at its budget, or the error |
| Goals.GoalController.StopGoal | reuleauxcoder/domain/goal.py:141-147 | only an active goal changes status |
| Goals.GoalController.Charge | reuleauxcoder/domain/goal.py:174-196 | usage is added to the goal it belongs to, which stops at its budget |
| Goals.GoalController.Restore | reuleauxcoder/domain/goal.py:154-172 | the backward loop chooses between snapshot and ledger by the last settling event |
| Goals.RestoreFindsLast | reuleauxcoder/domain/goal.py:154-172 | where the stamps tell commits apart, any snapshot ever taken restores to the goal last committed, up to active time |
| Goals.RestoreExactIff | reuleauxcoder/domain/goal.py:154-172 | every snapshot that can have been taken restores to the last commit iff each commit in the ledger with the stamp of the last one differs from it by active time only |
| Goals.EqualStampsLoseUsage | reuleauxcoder/domain/goal.py:160-168 | usage committed with the stamp of the commit before it is lost to a snapshot of that one |
| Goals.RunKeeps | reuleauxcoder/domain/goal.py:63-196 | over every run whose restarts come at ledgers whose stamps tell, the live goal is the committed one and recorded usage of a goal only grows |
| Goals.NoRestartIsSafe | reuleauxcoder/domain/goal.py:63-196 | so it holds in every run without a restart, whatever the stamps |
| Goals.DistinctIsSafe | reuleauxcoder/domain/goal.py:154-172 | and in every run whose commits have distinct stamps |
| Goals.ActiveUnderBudget | reuleauxcoder/domain/goal.py:77-196 | in every run, with equal stamps and any restarts, no goal is active at or over its budget: not the live one, none in the ledger and none in a snapshot |
| Goals.GoalIsLastCommitted | reuleauxcoder/domain/goal.py:52-69 | the goal is the last committed one, and where the stamps tell every snapshot taken in the run restores to it |
| Goals.CompleteStays | reuleauxcoder/domain/goal.py:120-123 | a complete goal stays complete under every step but create, clear and reset |
| Goals.GoneUntilCreated | reuleauxcoder/domain/goal.py:149-172 | over every run with safe restarts, a goal that was cleared or reset stays gone until one is created |
| Goals.UsageNeverDecreases | reuleauxcoder/domain/goal.py:174-196 | between any two points of a run the usage of one goal does not go down |
| Goals.UpdateGivesAsked | reuleauxcoder/domain/goal.py:97-139 | an update is accepted iff it is sensible and fits the goal; the goal then has what was asked for and keeps the rest, stopped if that leaves it active with its budget used up |
| Goals.CreateGivesGoal | reuleauxcoder/domain/goal.py:77-95 | a goal is created iff objective and budget are valid and no unfinished goal is in the way; a refusal changes nothing |
| Goals.StopGivesStatus | reuleauxcoder/domain/goal.py:141-147 | only an active goal is stopped, and it keeps all but its status and its time |
| Goals.UsageIsSpent | reuleauxcoder/domain/goal.py:174-196 | over every run with safe restarts a goal has used exactly the uncached input plus the output of the requests charged to it |
| Goals.TimeIsWorked | reuleauxcoder/domain/goal.py:52-69 | in every run without a restart the time of a goal is the sum of the intervals in which it was active |
| RowPainter.PaintWrite | reuleauxcoder-tui/renderer/compose-row.js:32-48 | one write painted in place, with a cut head or tail cleared |
| RowPainter.RowShows | reuleauxcoder-tui/renderer/compose-row.js:32-48 | every cell shows its topmost write, and a character shows only if all of its cells are on top |
| RowPainter.RowPaired | reuleauxcoder-tui/renderer/compose-row.js:35-47 | in the composed row each empty cell directly follows a wide head and each wide head is followed by one |
| RowPainter.RowKeepsWidth | reuleauxcoder-tui/renderer/compose-row.js:29-48 | the composed row is as wide as asked, less one for each cell that shows a character without width |
| RowPainter.VisibleKeepsWidth | reuleauxcoder-tui/renderer/compose-row.js:29-48 | so it is exactly as wide as asked when every character has a width |
| RowPainter.ComposeRow | reuleauxcoder-tui/renderer/compose-row.js:25-52 | the cached result is the uncached one, and the cache stays valid and right |
| BoundedCache.BoundedCache.Get | reuleauxcoder-tui/renderer/cache.js:11-17 | a hit moves to the most recent place and is returned; a miss changes nothing |
| BoundedCache.BoundedCache.Set | reuleauxcoder-tui/renderer/cache.js:18-29 | exact weight, both bounds and distinct keys are kept; an oversized entry only removes its predecessor |
| BoundedCache.EvictedIsLongest | reuleauxcoder-tui/renderer/cache.js:24-28 | eviction keeps the longest stretch of recent entries that fits |
| BoundedCache.JustSetIffFits | reuleauxcoder-tui/renderer/cache.js:18-29 | what was just set is there iff it fits and entries may be kept at all |
| BoundedCache.RunKeeps | reuleauxcoder-tui/renderer/cache.js:11-29 | over every log of operations, the entries have distinct keys, keep both bounds, stand in order of last use, hold the values last set, and every key without an entry was used before every key with one |
| BoundedCache.HitsAreExact | reuleauxcoder-tui/renderer/cache.js:11-17 | a hit is the value of the last set of that key in the log |
| BoundedCache.DroppedBeforeKept | reuleauxcoder-tui/renderer/cache.js:24-28 | a dropped key was used before every kept one |
| BoundedCache.MissIsNoUse | reuleauxcoder-tui/renderer/cache.js:11-17 | set 1, set 2, get 1 with room for one entry keeps 2, where a cache without bounds has 1 last |
| BoundedCache.AlwaysRecentIff | reuleauxcoder-tui/renderer/cache.js:11-29 | the entries are at every point of a log the most recent ones of a cache without bounds iff every get hits, or misses there too, or finds no entries, and every set is light enough or leaves no other entry |
| ImageMarkers.MarkersApart | reuleauxcoder/domain/images.py:123-141 | two markers at different places, or different ones anywhere, never overlap |
| ImageMarkers.SplitContent | reuleauxcoder/domain/images.py:154-174 | the loop over the sorted markers gives the parts of the input |
| ImageMarkers.ContentKeepsText | reuleauxcoder/domain/images.py:154-174 | the text parts of the content concatenate to the text of the input |
| ImageMarkers.ImageFollowsMarker | reuleauxcoder/domain/images.py:157-169 | each image directly follows a text that ends in its own marker |
| ImageMarkers.DisplayContent | reuleauxcoder/domain/images.py:177-194 | the loop shows the parts as the fold over them does |
| ImageMarkers.DisplayIsText | reuleauxcoder/domain/images.py:150-152 | a labelled or image-free input is displayed as its text |
| ImageMarkers.ImagesInOrder | reuleauxcoder/domain/images.py:154-174 | every image comes once, in the order of the markers, or without markers in the order given |
| ImageMarkers.UnlabelledDisplay | reuleauxcoder/domain/images.py:177-194 | images without markers are shown as numbered lines behind the text; a text that ends in a marker labels the first |
| ImageMarkers.ShownLabelIsMarker | reuleauxcoder/domain/images.py:190 | the label shown is a marker that reads back as its number |
| ImageProjection.ProjectImages | reuleauxcoder/domain/images.py:272-351 | the nested loops with their countdown give the projection |
| ImageProjection.LatestTwoSurvive | reuleauxcoder/domain/images.py:282-322 | at recovery level 1 exactly the last min(2, n) eligible images are sent, in order; at level 0 all |
| ImageProjection.UnsupportedSendsNone | reuleauxcoder/domain/images.py:312-313 | a model without image input gets no image |
| ImageProjection.PositionsKept | reuleauxcoder/domain/images.py:292-351 | messages keep number, order and kind, and parts that are no images stay in place |
| ImageProjection.SentAsDue | reuleauxcoder/domain/images.py:282-349 | every part is sent as it should be: other parts as they are, an image unless a reason holds, and otherwise a note with the first reason that does; at level 1 by its place among the eligible images |
| ImageProjection.ImageRecovery.Advance | reuleauxcoder/domain/images.py:260-269 | the new level and stripped set, and whether anything changed |
| ImageProjection.ExhaustedSendsNone | reuleauxcoder/domain/images.py:260-322 | at level 2 no image of the messages seen is sent |
| ImageProjection.RecoveryShrinksIff | reuleauxcoder/domain/images.py:260-322 | a step that reports success sends strictly fewer images iff the model takes images and there are eligible ones to drop: more than two for the first level, any for the second |
| ImageProjection.HistoryShrinks | reuleauxcoder/domain/images.py:260-322 | so it always does when the whole history is in view |
| ImageProjection.OlderTurnsMislead | reuleauxcoder/domain/images.py:260-292 | two address images and a reference of an older turn under turn retention: the step succeeds and the request stays the same |

## Left out

- Operating-system processes, signals, shells and terminals: a process exit is an arbitrary step.
- HTTP, relay and JSON-RPC transport, the command line, the user interface and configuration menus.
- Real time: clocks, timeouts and retention periods are arbitrary step arguments; shutdown deadlines and report counts are not modelled.
- File-system failures, fsync, symbolic links, git listings and the partial last record that `bind_jsonl` closes with a newline.
- Regular expressions, fnmatch and the order of directory listings: a matcher is a parameter, a directory lists its entries in a given order.
- JSON encoding: fingerprints and cache keys are the data they encode; only the text of a serialized plan is spelled out, for its length.
- Integer width: Go's `int64` offsets and JavaScript numbers are unbounded here.
- StartProtocol.Manager.Reserve: the counts inside the exhaustion message are not modelled.
- ProcessSessions.RunKeeps: the event goes out after the lock is released in the program; here it is logged with the locked section that decides it, so the order of events of different sessions is not captured.
- ApprovalQueue.RunKeeps: an interrupt that ends the wait inside the queue is not modelled.
- ApprovalPolicy.OfferedScopesCover: `commonpath` is modelled by its documented result on canonical relative paths.
- ApprovalPolicy.Evaluate: prompts, judges and configuration loading are not part of this model.
- TextPage.ReadTextPage: the file is given by its decoded characters.
- TextSearch.Visit: file type, exclusion and include checks are one flag.
- WorkspaceScan.GlobEntries: the final sort by modification time and the cut to `max_matches` behind it are not modelled.
- HistoryLedger.RunKeeps: attribution fields other than session and agent, payloads and the provenance index are not modelled.
- OutputJournal.InterruptedOutput: the banner around a recovered text is not modelled, and positions stand for sequence numbers.
- Plan.RecoveryExact: stated within one session generation; entries of other generations and of other kinds may appear anywhere in the ledger.
- Goals.GoalController.Charge: one clock reading serves the elapsed time and the new clock, where the program takes two.
- RowPainter.PaintWrite: writes are clipped and characters take at most two cells, as the renderer's caller guarantees; serialization to escape codes is a parameter.
- ImageMarkers.MarkersApart: marker numbers use ASCII digits, where the program's pattern accepts any decimal digit.
- ImageProjection.ProjectImages: captions and the wording of notes are reduced to the image and the reason.
- `AutoReviewJudge`, `OutputTail`, provenance alignment, sub-agents and model requests are outside this model.
