# A verified model of fleet's remote agent

This project models the parts of the agent whose comments promise something about
every interleaving, every input or every whole run, and proves those promises:

* **The process group** (`GroupPin`, `GroupProtocol`, `GroupReach`): which number a kill
  may name, with any number of goroutines and a kernel that reissues pids, and that an
  adopted group is the one killed.
* **A running command** (`ExecWatch`, `Sink`): the waiter and watcher of one call, and
  its capped output.
* **The byte tunnel** (`Tunnel`, `Pumps`, `CarryResults`): the four pumps of a forwarded
  connection, as loops and composed, and what its two ends report.
* **The file service**: path locks (`LockKeys`, `LockTable`, `PathLocks`), atomic
  writes and edits (`AtomicFile`, `WriteProtocol`, `EditFile`, `EditAnswers`, `Replace`),
  the two composed (`LockedWrites`), the diff (`Lines`, `Diff`, `Hunks`, `DiffShape`,
  `DiffHeaders`), the line-window reader (`ReadLines`), globs (`Pattern`), the walk and
  its ignore stack (`GitIgnore`, `Walk`, `WalkAccount`), grep (`Grep`) and the text sniff
  (`Utf8`).
* **The terminal view's confirmation gate** (`Tui`).

`Bytes` and `Optional` hold what several modules share.

Code that works by mutation is modelled as classes and loops proved against pure
specification functions (`GroupPin.ProcessGroup`, `LockTable.PathLocks`,
`AtomicFile.Temp`, `ReadLines.Emitter`, `Pattern.Matcher`, `GitIgnore.IgnoreStack`,
`Walk.Walker`, `Grep.Search`, `Sink.OutputSink`). Code whose point is concurrency is a
state machine: `Enabled` and `Apply` for one step, and theorems over every sequence of
enabled steps. Where a class and a state machine describe the same code, they use the
same functions (`GroupPin.Aim`, `LockTable.Attached`, `AtomicFile.Renamed`, `EditFile.Edit`),
so a step of the protocol is what the method does.

Five properties are false as one would first state them, and are given with the exact
condition under which they hold:

* The diff is always exact on bytes. Its `@@` line numbers are right for every file if and
  only if the old string does not end in a newline or the new one does, leaving aside
  requests no file accepts (`DiffHeaders.HeadersRightForEveryFileIff`). For one diff they
  are right if and only if every hunk's new region is empty, ends in a newline, or reaches
  the end of the file (`Hunks.HeadersRightIff`; `Hunks.JoinedLineIsMiscounted` is a
  counterexample).
* `readLines` computes its last line in 64 bits. The window is the one asked for if and
  only if `start + limit - 1` does not wrap (`ReadLines.EndIsRightIffItFits`).
* `ignoreStack.ignored` skips rule files for any relative path that starts with two dots,
  names included. It judges a path as the rules say, whatever they are, if and only if no
  component of the path starts that way (`GitIgnore.JudgedRightIff`).
* A head that fills the sniff window may be called text although no text begins with it
  (`Utf8.WindowMayEndInJunk`). It is judged as it should be, text exactly when some text
  begins with it, if and only if it has a NUL or the bytes it is cut at, if any, could go
  on to a character (`Utf8.WindowJudgedRightIff`).
* A write that reports an error may have been committed: the answer is sent after the
  rename and can be lost (`WriteProtocol.LostAnswerHidesACommit`). A reported error means
  that nothing was committed if and only if no answer was lost after a commit
  (`WriteProtocol.FailureMeansUncommittedIff`).

## Assumptions

* The process group: one `Adopt`, before any collection; the leader is reaped only through
  `collect`; `AwaitExit` returning nil means exited and not collected; an `os.Process`
  handle refuses signals once collected; a child configured for its own session calls
  `setsid` before it forks, exits or is moved.
* The tunnel: both sockets are TCP, so each half closes on its own; the stream is a FIFO in
  each direction that may be lost at any time.
* Timers may fire at any time once armed; contexts may end at any time.
* Files: nothing outside the agent touches a target or its temp files; a file read by
  `readLines` or grep does not change meanwhile; paths are resolved, the jail is the
  identity, and symlinks have been followed.
* What a caller is told is what the handler returns; for `WriteFile` that includes whether
  the stream took the answer.
* `path.Match` and the grep expression are arbitrary predicates; a page size and a scroll
  overflow are arbitrary numbers; random temp names are arbitrary names.

## Model

| member | source | states |
|---|---|---|
| GroupPin.Aim | internal/platform/group_unix.go:370-413 | the group id is named exactly when the group is open, adopted and pinned at the group; with the pin at none everything is refused |
| GroupPin.AimLeader | internal/platform/group_unix.go:415-468 | a signal to the leader never names a group |
| GroupPin.AdoptedGroup | internal/platform/group_unix.go:194-254 | the poll stops at the first reading that settles it, at once when no session was configured; the group is the child's own exactly when it reads so or a configured child is gone, and it is late only when a session was configured and not seen by the deadline |
| GroupPin.MarksOnlyGiveUp | internal/platform/group_unix.go:578-640 | giving up the group and releasing it only lower the pin, and absorb each other in either order |
| GroupPin.ProcessGroup.SignalLocked | internal/platform/group_unix.go:370-413 | the signal goes where Aim says; a closed, unadopted or released group refuses with its own error, and otherwise the result says what the kernel answered |
| GroupPin.ProcessGroup.SignalLeader | internal/platform/group_unix.go:446-470 | the same for the leader alone, in its own critical section |
| GroupPin.ProcessGroup.SweepLocked | internal/platform/group_unix.go:504-535 | a sweep is a kill of the same target, an empty group being no error |
| GroupPin.ProcessGroup.ReleaseAfterExit | internal/platform/group_unix.go:600-626 | after an observed exit the sweep is aimed before the pin drops to none, and the pin always drops |
| GroupPin.ProcessGroup.GiveUpGroup | internal/platform/group_unix.go:588-601 | without an observed exit only a pin at the group is lowered, to the leader, which can still be signalled by itself |
| GroupPin.ProcessGroup.MarkCollected | internal/platform/group_unix.go:628-640 | a collection leaves the pin at none |
| GroupPin.ProcessGroup.Configure | internal/platform/group_unix.go:117-122 | configuring records that the child gets a session of its own and changes nothing else |
| GroupPin.ProcessGroup.RecordAdoption | internal/platform/group_unix.go:272-294 | adoption on an open object records the leader and whether its group is its own; from then on a signal names that group if it is, and the leader alone if not; a late session is reported |
| GroupPin.ProcessGroup.Close | internal/platform/group_unix.go:643-648 | closing changes nothing but the closed flag |
| GroupProtocol.EveryKillIsSafe | internal/platform/group_unix.go:355-433 | in every run, every kill of a group happens while the adopted leader is unreaped and names its number; with a configured session it reaches only the leader's descendants |
| GroupProtocol.PinOnlyFalls | internal/platform/group_unix.go:59-76 | over a whole run the pin moves only from group to leader to none |
| GroupProtocol.NoneIsFinal | internal/platform/group_unix.go:370-413 | once the pin is at none it stays there and no signal of any kind is sent again |
| GroupProtocol.CollectionIsFinal | internal/platform/group_unix.go:578-640 | a finished collection leaves the pin at none for good, and nothing is sent after it |
| GroupProtocol.LaterSignalsAreRefused | internal/platform/group_unix.go:340-413 | every signaller that starts after a finished collection is told the group was released or closed |
| GroupProtocol.LockHolderCanStep | internal/platform/group_unix.go:340-368 | whoever holds the mutex can always take its next step |
| GroupProtocol.ReapedNumberIsReissued | internal/platform/group_unix.go:22-57 | after the leader is reaped its number can become a stranger's group, which a kill would then hit |
| GroupProtocol.StepKeepsInv | internal/platform/group_unix.go:340-648 | the protocol's invariant survives every step of every goroutine and of the kernel |
| GroupReach.AdoptedGroupIsNamed | internal/platform/group_unix.go:252-294 | over every run: once the adopter's poll has read the child's own group and it has been recorded, that group is what a signal aims at until it is closed, given up, released or marked |
| GroupReach.SignalKillsTheGroup | internal/platform/group_unix.go:340-433 | every Signal and Sweep that decides in that time, when delivered, kills the group by the number its unreaped leader holds, whatever comes between |
| GroupReach.PollSettles | internal/platform/group_unix.go:194-248 | a poll settles on an isolated adoption exactly when it reads the child's own group, or finds a configured child gone |
| GroupReach.AnswerIsPassedOn | internal/platform/group_unix.go:370-535 | what the kernel answers is what the signaller is told, EPERM being an empty group for a sweep only |
| GroupReach.CollectorCanGoOn | internal/platform/group_unix.go:504-640 | with the leader exited and the mutex free, a collector in any of its stages can take the step that leads on to the sweep, the release and the reaping |
| GroupReach.SomeRunKills | internal/platform/group_unix.go:117-433 | a run from fork to setsid, adoption and signal in which the group is killed |
| ExecWatch.EveryScheduleEnds | internal/agent/exec/exec.go:530-595 | every schedule of one call has at most thirteen steps, by a measure each step decreases |
| ExecWatch.HandlerIsNeverStuck | internal/agent/exec/exec.go:667-771 | until run returns, some step of the handler's own is enabled, even if Wait never returns |
| ExecWatch.RunReturnsWithoutWait | internal/agent/exec/exec.go:530-595 | a schedule that stops only when the handler has nothing to do has returned |
| ExecWatch.ReportedKillsHappened | internal/agent/exec/exec.go:432-456 | a reported timeout or cancellation means a TERM was attempted and not refused as released; the two are never both set, and the audit outcome agrees |
| ExecWatch.AbandonComesAfterTheKill | internal/agent/exec/exec.go:667-785 | abandon is closed only after the kill sequence, or because the group was released |
| ExecWatch.CloseIsOrderedAfterTheWatcher | internal/agent/exec/exec.go:458-595 | the group is closed only after the watcher has finished, so no signal of the watcher finds it closed |
| ExecWatch.ResultIsFinal | internal/agent/exec/exec.go:530-595 | once run has returned, no later step changes its result |
| ExecWatch.FlagsNameTheCause | internal/agent/exec/exec.go:667-720 | over every run a timeout is reported exactly if the timer fired, and a cancellation exactly if the context was seen to end, and a TERM then went out; never both, and the audit agrees |
| ExecWatch.GoneCallerIsKilled | internal/agent/exec/exec.go:667-771 | a caller that is gone can be seen, and the TERM and the KILL after the grace follow and are recorded as a cancellation |
| ExecWatch.ResultNamesTheWait | internal/agent/exec/exec.go:530-595 | a result is Wait's own or, if abandon was taken, a stall |
| Sink.OutputSink.Write | internal/agent/exec/stream.go:70-114 | every write reports its full length; the stream holds a prefix of the output, exactly what the cap allows while no send failed, and the rest is counted in bytes and lines |
| Sink.OutputSink.SendChunks | internal/agent/exec/stream.go:92-112 | what fits goes out in order in chunks of 1 to 32768 bytes until a send fails, and nothing after one has |
| Sink.OutputSink.SendResult | internal/agent/exec/stream.go:135-144 | no result follows a failed send |
| Sink.RunWrites | internal/agent/exec/stream.go:70-125 | for any writes of both outputs: without failure the chunks are the first maxBytes of the serialised output, rightly labelled, and sent plus omitted is the total; with one they are a prefix |
| Tunnel.DeliveredIsAPrefix | internal/tunnel/tunnel.go:311-386 | whatever fails, the bytes written to each far socket are a prefix of those read at the near one, and the audit counters are those lengths |
| Tunnel.ShutOnlyAfterDelivery | internal/agent/forward/service.go:532-608 | without failures a write half is shut only after every byte before it was written |
| Tunnel.HalfClosesAreIndependent | internal/agent/forward/service.go:489-530 | without failures a direction that has not finished sending keeps its whole way through, whatever the other has done |
| Tunnel.CarryIsComplete | internal/tunnel/tunnel.go:174-236 | when Carry returns without failures, both directions are delivered and both half-closes passed on |
| Tunnel.CarryJoinsBoth | internal/tunnel/tunnel.go:195-236 | Carry returns only with both pumps ended and its stream cancelled |
| Tunnel.CarryIsNeverStuck | internal/tunnel/tunnel.go:119-236 | from the moment Carry has to end, one of its own steps is always enabled, waiting for nobody |
| Tunnel.HandlerIsNeverStuck | internal/agent/forward/service.go:489-530 | once the call is lost, the agent's handler always has a step of its own to its return |
| Tunnel.WindingDownIsBounded | internal/tunnel/tunnel.go:195-236 | a side that is winding down takes a bounded number of steps, however the others are scheduled |
| Tunnel.CarryReturns | internal/tunnel/tunnel.go:195-236 | a schedule that stops only when Carry has no step left has returned with both pumps joined |
| CarryResults.CarryReportsTheCause | internal/tunnel/tunnel.go:224-236 | in every run Carry returns the local socket's failure exactly if there was one and its last data went out, else the stream's error exactly if it met one, else success |
| CarryResults.HandlerReportsTheCause | internal/agent/forward/service.go:489-608 | in every run the handler returns an error exactly if a pump met a failed socket, a refused send or a failed stream, or the audit failed |
| CarryResults.CleanRunSucceeds | internal/tunnel/tunnel.go:174-236 | in a run without failures Carry returns success, unless the agent could not write its audit record |
| Tunnel.NextPipeKeepsPipe | internal/tunnel/tunnel.go:311-386 | each pump's step keeps delivered, in hand, queued and unsent bytes in the order they were read |
| Pumps.LocalToStream | internal/tunnel/tunnel.go:311-338 | what was read up to the first end goes out in order and then a close, and a failed socket is what it reports; if a send fails, exactly what was sent before it; each turn is the sending pump's step for that read and that send |
| Pumps.SocketToStream | internal/agent/forward/service.go:563-608 | the same for the agent's sending pump, which reports failed sends too and counts what it read, the read whose send failed included |
| Pumps.StreamToLocal | internal/tunnel/tunnel.go:346-386 | what arrives before the first close is written in order, the write half is then shut, and only the stream's own error is reported; if a write fails, exactly what went before it; each turn is the receiving pump's step for that message and that write |
| Pumps.StreamToSocket | internal/agent/forward/service.go:532-560 | the same for the agent's receiving pump, which a close ends without looking further, and which counts what was written |
| Pumps.SenderMovesAreSteps | internal/tunnel/tunnel.go:311-338 | in every state of the tunnel protocol with this pipe where the world can answer so, a sending loop's move is an enabled step, and the step does to the pipe what the loop did |
| Pumps.ReceiverMovesAreSteps | internal/tunnel/tunnel.go:346-386 | the same for a receiving loop |
| LockKeys.PlansAreOrdered | internal/agent/fs/locks.go:88-123 | whatever folding makes of a path, a two-path caller locks exactly the folded keys of its paths, ascending, once if they are equal, and in the same order for either order of its arguments |
| LockTable.PathLock.TryAcquire | internal/agent/fs/locks.go:65-70 | the select's send goes through exactly when the slot is free, and the slot is full afterwards |
| LockTable.PathLock.Empty | internal/agent/fs/locks.go:73-78 | releasing empties a full slot |
| LockTable.PathLocks.Attach | internal/agent/fs/locks.go:44-60 | looking up a path counts the caller on its entry, made if absent |
| LockTable.PathLocks.Drop | internal/agent/fs/locks.go:56-63 | the last caller to leave takes the entry out of the table |
| LockTable.DropUndoesAttach | internal/agent/fs/locks.go:44-79 | dropping undoes attaching, deletion and re-creation included |
| PathLocks.RefsCountTheAttached | internal/agent/fs/locks.go:44-79 | over every run refs is the number of callers attached, and an entry is in the table exactly while that is positive |
| PathLocks.OneEntryPerKey | internal/agent/fs/locks.go:44-60 | callers attached for one key share one entry, also across deletion and re-creation |
| PathLocks.AtMostOneHolder | internal/agent/fs/locks.go:60-86 | at most one caller holds a key |
| PathLocks.InsideHoldsAll | internal/agent/fs/locks.go:88-116 | a caller inside holds, for every key it asked for, the full slot of the entry the table has for that key at that moment, and nobody else holds it |
| PathLocks.AskedIsHeld | internal/agent/fs/locks.go:44-123 | over every run, a caller inside that called lock with a path, or lockBoth with it for one of the two, alone holds the full slot of that path's folded key |
| PathLocks.OneInsidePerPath | internal/agent/fs/locks.go:88-123 | two callers that named paths folding alike are never inside at once |
| PathLocks.PlannedWasAsked | internal/agent/fs/locks.go:88-123 | a caller locks no key but those of the paths it named |
| PathLocks.EmptyAtQuiescence | internal/agent/fs/locks.go:56-79 | with every caller finished the table is empty |
| PathLocks.NoWaitCycle | internal/agent/fs/locks.go:88-116 | the wait-for relation has no cycle, with any number of one- and two-path callers |
| PathLocks.NeverDeadlocked | internal/agent/fs/locks.go:88-116 | while any caller is unfinished some caller can step, without a cancellation |
| PathLocks.CallersFinish | internal/agent/fs/locks.go:44-116 | each step brings its caller nearer its end and moves nobody else |
| PathLocks.WaiterCanGiveUp | internal/agent/fs/locks.go:56-70 | a caller that waits can always be cancelled, and then drops its entry |
| PathLocks.StepsAreTheObjects | internal/agent/fs/locks.go:44-79 | the protocol's look-up and drop are the lock table's own |
| LockedWrites.OneLock | internal/agent/fs/edit.go:63-67 | over every run of the lock table and of the writers of one file together, the writers' lock holder is the one caller that holds the file's key in the table |
| LockedWrites.TheTableIsTheLock | internal/agent/fs/locks.go:60-86 | whenever the table gives, takes back or stops queueing for that key, it is a step the write protocol allows and takes; the key is only given while no writer is inside |
| LockedWrites.HoldersAfter | internal/agent/fs/locks.go:60-86 | a key's holders change only by taking its slot and by giving it back, and only for the caller that does |
| LockedWrites.SomeWriterGetsIn | internal/agent/fs/edit.go:63-67 | a run in which a writer arrives, is counted on the key, takes its slot and is inside |
| Replace.ReplaceOccurrences | internal/agent/fs/edit.go:197-229 | the result is the leftmost non-overlapping replacement, all of it or the first; recorded ranges hold the old and the new string, and the text between is unchanged and holds no skipped match |
| Replace.AtMatch | internal/agent/fs/edit.go:197-229 | replacing and counting from an offset go on behind the first match after it |
| EditFile.CountLineEndings | internal/agent/fs/edit.go:294-306 | every newline is counted once, as CRLF or bare |
| EditFile.EditContents | internal/agent/fs/edit.go:63-96 | the checks, in the order made, accept or refuse as the pure definition does, and an accepted edit's offsets are exact |
| EditFile.ResultSizeIsExact | internal/agent/fs/edit.go:118-133 | the result is exactly as long as the size check predicted |
| EditFile.PredictionFits | internal/agent/fs/edit.go:118-133 | within the documented bounds the prediction stays below 2^50 |
| EditAnswers.AcceptedIff | internal/agent/fs/edit.go:41-96 | an edit is accepted exactly when the old string is neither empty nor the new one, the file is UTF-8 within the limit, the old string occurs in it, and only once unless all are to be replaced, no second kind of line ending comes in, and the result is within the limit |
| EditAnswers.RefusedIff | internal/agent/fs/edit.go:41-96 | each refusal is the answer exactly when what it names is so and nothing checked before it was |
| EditAnswers.OneMatchIff | internal/agent/fs/edit.go:72-83 | the count is one exactly when one match has every other one across it |
| EditAnswers.EndingsDisagreeIff | internal/agent/fs/edit.go:273-291 | the check on line endings refuses exactly a new string with the kind a one-kind file lacks |
| EditFile.EditedMeansChanged | internal/agent/fs/edit.go:41-96 | an accepted edit changed the file, stays within the limit, and reports how many matches it replaced |
| EditFile.EditKeepsText | internal/agent/fs/edit.go:140-176 | an edit of valid UTF-8 by valid UTF-8 leaves valid UTF-8: no match starts or ends inside a character |
| AtomicFile.CreateAtomic | internal/agent/fs/atomic.go:73-98 | the first free name of ten is created, and only it; otherwise nothing changes |
| AtomicFile.Temp.Write | internal/agent/fs/atomic.go:101-101 | the bytes taken are appended to the temp file and nothing else changes |
| AtomicFile.Temp.Commit | internal/agent/fs/atomic.go:110-141 | either the target becomes the temp file's whole content with the mode asked for, or the target is untouched |
| AtomicFile.Temp.Close | internal/agent/fs/atomic.go:146-159 | closing removes an uncommitted temp file, twice is once, and after a commit it does nothing |
| AtomicFile.CommitAndClose | internal/agent/fs/atomic.go:110-159 | commit with the deferred close ends with the target replaced, or with the directory as it was but for a temp file whose removal failed; it succeeds exactly when nothing fails and the target is no directory |
| AtomicFile.WriteWhole | internal/agent/fs/edit.go:179-193 | all of the data is at the target, or nothing of it and nothing else changed; exactly when a name is free, every byte is taken and nothing fails is it the former |
| AtomicFile.WriteFile | internal/agent/fs/write.go:64-172 | a call that gets as far as its answer leaves the payload, behind the old content for an append, with an existing file's own permission bits, or for a new one those asked for or 0644; it gets there exactly when the name is not a directory, a special file or one that had to be new, the stream is clean and nothing fails or is cancelled; otherwise it leaves the original, and each of those three has its own refusal |
| AtomicFile.Receive | internal/agent/fs/write.go:142-163 | the receive loop appends the stream's chunks in order and counts them, and succeeds exactly when every message is a chunk that is taken whole |
| WriteProtocol.TargetIsAWholeVersion | internal/agent/fs/atomic.go:20-39 | at every moment of every run, crash included, the target is the original or one whole committed version |
| WriteProtocol.NoUpdateIsLost | internal/agent/fs/edit.go:63-96 | each committed version is its caller's own edit, overwrite or append of the version just before it |
| WriteProtocol.WriteVersionsAre | internal/agent/fs/write.go:76-172 | a committed write's version keeps the mode of the file before it, and its content if it appends |
| WriteProtocol.EditVersionsAre | internal/agent/fs/edit.go:63-96 | a committed edit's version is the accepted edit of the file before it, with its mode |
| WriteProtocol.ExamineDecides | internal/agent/fs/write.go:76-98 | what a caller finds under the lock decides: it goes ahead exactly when a write is not refused by what the name is, or the edit is accepted |
| WriteProtocol.HolderCanGoOn | internal/agent/fs/write.go:64-179 | whoever holds the lock can always take the step that brings its call on to its answer |
| WriteProtocol.PartlyWrittenIsPrivate | internal/agent/fs/atomic.go:56-64 | while a file is being written, what there is of it is a prefix of the result, in a file of its own with mode 0600 |
| WriteProtocol.EditsCompose | internal/agent/fs/edit.go:63-96 | an edit committed after another version was computed from that version's text, and changed it |
| WriteProtocol.SuccessMeansCommitted | internal/agent/fs/write.go:166-179 | a call that reports success has its version committed; an edit reports success exactly then |
| WriteProtocol.FailureMeansUncommittedIff | internal/agent/fs/write.go:166-179 | of a call that reports an error, nothing was committed if and only if its answer was not lost after the commit |
| WriteProtocol.LostAnswerHidesACommit | internal/agent/fs/write.go:166-179 | a run in which a write is told of an error and its file is at the target |
| WriteProtocol.NothingIsLeftBehind | internal/agent/fs/atomic.go:143-159 | at every moment the directory differs from the start only in the target, in the one temp file of the caller that holds the lock, and in temp files whose removal failed |
| WriteProtocol.ClosedMeansGone | internal/agent/fs/atomic.go:143-159 | a close whose removal succeeds leaves no temp file and does not touch the target |
| WriteProtocol.CommitIsTheResult | internal/agent/fs/write.go:99-159 | what a commit renames into place is the operation applied to the current version |
| WriteProtocol.StepKeepsInv | internal/agent/fs/edit.go:63-96 | the invariant survives every step of every caller |
| Lines.LineSpans | internal/agent/fs/diff.go:225-241 | the spans are the lines of the text, in order and without gaps |
| Lines.LineOfOffset | internal/agent/fs/diff.go:244-250 | the line found contains the offset |
| Lines.SpansCountLines | internal/agent/fs/diff.go:223-241 | there are as many spans as lines; an empty text has one empty span |
| Lines.LineCountOfLines | internal/agent/fs/diff.go:262-276 | the block from line i to line j renders as exactly those lines |
| Diff.GroupOccurrences | internal/agent/fs/diff.go:195-221 | the groups split the occurrences in order, cover each of them and carry the drift of their ends; occurrences share a group exactly when their hunks, context included, would touch |
| Diff.ReplacementIsEdits | internal/agent/fs/edit.go:197-229 | what the replacement records is what the diff needs to be told |
| Hunks.UnifiedDiff | internal/agent/fs/diff.go:52-130 | the hunks are those of the groups, in whole lines with their context; put together they give the new content, they lie as the header arithmetic needs, and they show every replacement |
| Hunks.PatchIsExact | internal/agent/fs/diff.go:52-96 | putting each hunk's new region in place of its old one gives exactly the new content |
| Hunks.GapIsUntouched | internal/agent/fs/diff.go:78-85 | between groups the text is unchanged and has moved by the drift recorded on both sides of the gap |
| Hunks.LaterIsFurther | internal/agent/fs/diff.go:187-221 | hunks with their three lines of context never overlap, in bytes or in lines |
| Hunks.HunkIsOldText | internal/agent/fs/diff.go:74-98 | context and removed lines are the old file's text at the place claimed |
| Hunks.HunkIsNewText | internal/agent/fs/diff.go:74-98 | context and added lines are the new file's text at the shifted place |
| Hunks.HeaderRightWhen | internal/agent/fs/diff.go:100-125 | a header's four numbers are right exactly when no earlier hunk was left open and this one is closed or reaches the end |
| Hunks.HeadersRightIff | internal/agent/fs/diff.go:100-125 | all headers are right exactly when every new region is empty, ends in a newline, or reaches the end of the file |
| Hunks.NewLineOf | internal/agent/fs/diff.go:100-125 | the new line number is the true one plus one for each earlier hunk left open |
| Hunks.JoinedLineIsMiscounted | internal/agent/fs/diff.go:100-125 | replacing a line by an unterminated one is counted as two lines where the new file has one |
| DiffShape.ThreeLinesOfContext | internal/agent/fs/diff.go:70-96 | every hunk shows three lines before and after its change, or all there are |
| DiffShape.SharedIffNear | internal/agent/fs/diff.go:187-221 | two neighbouring replacements are in one hunk exactly when at most seven line ends lie between them |
| DiffHeaders.HeadersRightForEveryFileIff | internal/agent/fs/diff.go:78-125 | for a request in UTF-8 the line numbers are right for every file exactly when the old string does not end in a newline or the new one does, requests no file accepts aside |
| DiffHeaders.SafeHeadersAreRight | internal/agent/fs/diff.go:78-125 | a region the edit leaves closed keeps every header right, on any file |
| DiffHeaders.JoiningIsWrong | internal/agent/fs/diff.go:78-125 | replacing a line's end by a string without one gives a wrong header in every accepted file that does not end in a newline |
| DiffHeaders.MixedIsRefused | internal/agent/fs/edit.go:273-291 | a lone newline is never replaced, once, by a string with both kinds of line ending |
| Hunks.EditAndDiff | internal/agent/fs/edit.go:63-96 | from the loaded contents to the diff: an accepted edit's hunks turn the old contents into the new, and are those of the groups of exactly the matches that were replaced |
| ReadLines.Read | internal/agent/fs/read.go:173-314 | however the reads split the file: chunks of 1 to under twice ChunkBytes, together a prefix of the first maxBytes of the window, and on success all of it with a right answer |
| ReadLines.Conclude | internal/agent/fs/read.go:288-313 | lines returned, total lines, omitted bytes and lines are the true ones, and a non-empty answer is marked truncated exactly when bytes after it remain |
| ReadLines.WindowIsTheLines | internal/agent/fs/read.go:252-266 | the window, defined byte by byte, is the wanted lines end to end |
| ReadLines.WindowIsWhatWasAsked | internal/agent/fs/read.go:178-183 | the window is the `limit_lines` lines, or the default many for zero, from line `offset_lines` on, the first for zero, as far as the file goes |
| ReadLines.EndIsRightIffItFits | internal/agent/fs/read.go:178-183 | the 64-bit last line names the window asked for exactly when the sum does not wrap |
| ReadLines.Emitter.Emit | internal/agent/fs/read.go:219-236 | as much of a segment as there is room for is emitted, and the cap is set exactly when some was not |
| ReadLines.CountedLines | internal/agent/fs/read.go:268-297 | the count is exact when the file is read through, and the lesser of the window's end and the true count otherwise |
| ReadLines.LinesRemain | internal/agent/fs/read.go:300-313 | a window that ends before the file leaves lines uncounted by it |
| Pattern.Compile | internal/agent/fs/pattern.go:31-64 | a pattern compiles exactly when it has segments and each is acceptable, into its segments with runs of double stars made one |
| Pattern.CollapseKeepsMatches | internal/agent/fs/pattern.go:47-56 | making runs of double stars one leaves the set of matched paths unchanged |
| Pattern.MatchesIffLayout | internal/agent/fs/pattern.go:91-106 | the recursion matches exactly when the segments can be laid over the components, one each except for a double star |
| Pattern.Matcher.Match | internal/agent/fs/pattern.go:119-130 | the memoised answer is the plain recursion's, from any valid table |
| Pattern.Matcher.Compute | internal/agent/fs/pattern.go:132-151 | the same, and it is never called for a pair it was called for before |
| Pattern.MatchPath | internal/agent/fs/pattern.go:67-82 | a whole match agrees with the plain recursion and computes at most (P+1)(N+1) times |
| Pattern.KeyIsInjective | internal/agent/fs/pattern.go:107-122 | the flat table key tells every pair of positions apart |
| Pattern.CallsAreBounded | internal/agent/fs/pattern.go:91-106 | in any valid table compute ran at most once per cell |
| Pattern.PruningIsSafe | internal/agent/fs/pattern.go:153-194 | every ancestor directory of a matching path is accepted by the prefix test |
| Pattern.PruningIsExact | internal/agent/fs/pattern.go:176-194 | where every segment can be satisfied, a directory is accepted exactly when some path at or below it matches |
| GitIgnore.IgnoreStack.TrimTo | internal/agent/fs/gitignore.go:47-51 | frames are dropped from the top until one contains the directory |
| GitIgnore.IgnoreStack.Push | internal/agent/fs/gitignore.go:54-60 | a directory's rules go on top, and a directory without rules adds nothing |
| GitIgnore.IgnoreStack.Ignored | internal/agent/fs/gitignore.go:63-87 | the loop's verdict is the recursive definition's |
| GitIgnore.TrimsExactly | internal/agent/fs/gitignore.go:47-51 | trimming leaves exactly the rule files that contain the directory when the rest lie below it |
| GitIgnore.ExcludedIff | internal/agent/fs/gitignore.go:38-41 | a path is excluded exactly when the last matching rule of the deepest file with a match is not negated |
| GitIgnore.DirOnlyIsForDirs | internal/agent/fs/gitignore.go:72-80 | a rule for directories only counts for a directory like any other and for a file not at all |
| GitIgnore.RulesAreRelative | internal/agent/fs/gitignore.go:66-71 | what a rule file says of a path depends only on the path below the file's directory |
| GitIgnore.OneRuleExcludes | internal/agent/fs/gitignore.go:63-87 | a single rule excludes exactly what its pattern matches below its directory, unless negated or for directories only |
| GitIgnore.JudgedRightIff | internal/agent/fs/gitignore.go:66-69 | the verdict is the rules' for every set of rules exactly when no component starts with two dots |
| Walk.Walker.WalkRoot | internal/agent/fs/walk.go:48-131 | the walk with its mutable stack yields exactly the first files of the recursive definition and makes exactly its visits, in order, and at each one the stack holds exactly the rule files of the directories above, outermost first |
| Walk.Walker.Callback | internal/agent/fs/walk.go:52-117 | the callback enters, skips or yields as the definition says, from a stack with leftovers below the parent |
| Walk.YieldedIffKept | internal/agent/fs/walk.go:71-110 | a file is yielded exactly when every directory on its way is entered and it is not itself refused |
| WalkAccount.YieldedIff | internal/agent/fs/walk.go:48-117 | a file is yielded exactly when it is regular or a link to a regular file inside the jail, not excluded by the rules in force, and each directory on the way is readable, not one of the four left out by name, not excluded and not pruned |
| WalkAccount.InForceIff | internal/agent/fs/walk.go:71-95 | the rule files in force below a directory are those of it and of the directories above it that have rules |
| WalkAccount.OutermostFirst | internal/agent/fs/gitignore.go:33-41 | they are in order of depth |
| WalkAccount.TakesTheFirst | internal/agent/fs/walk.go:112-117 | a limited walk takes the first so many files and stops at the last of them |
| Walk.GlobLosesNothing | internal/agent/fs/glob.go:64-75 | pruning by the pattern yields the same matching files as walking everywhere |
| Grep.Search.Scan | internal/agent/fs/grep.go:148-223 | one pass sends the file's matches in line order, as many as may still be reported, each with its full context |
| Grep.Search.FlushComplete | internal/agent/fs/grep.go:226-235 | only matches whose context will not change are sent, in order |
| Grep.Search.Run | internal/agent/fs/grep.go:122-146 | across the walk exactly the first max matches are sent, counted, and the cap is set exactly when that many exist; a failed send leaves a prefix |
| Grep.HitsAreTheMatchingLines | internal/agent/fs/grep.go:163-206 | the reported lines are all the matching ones, once each, in order |
| Grep.LineMatchesAre | internal/agent/fs/grep.go:186-223 | each match shows up to c lines before and after its line, cut only at the ends of the file |
| Grep.FileMatchesShow | internal/agent/fs/grep.go:163-223 | a file reports its matching lines one for one, each with its number, its text and up to c lines on each side; for names only, one match without a line if any line matches |
| Utf8.TrimPartialRune | internal/agent/fs/meta.go:76-94 | what is kept is the head less an unfinished last character |
| Utf8.LooksBinary | internal/agent/fs/meta.go:62-72 | the sniff's decision is the definition's |
| Utf8.BinaryExactly | internal/agent/fs/meta.go:62-94 | a short head is text exactly when it is valid UTF-8 without NUL; a full one when that holds up to a cut of at most three bytes |
| Utf8.TextIsNeverBinary | internal/agent/fs/meta.go:52-94 | NUL-free text valid under sections 3 and 4 of RFC 3629 is never judged binary, wherever the window cuts it |
| Utf8.WindowJudgedRightIff | internal/agent/fs/meta.go:62-94 | a full window is called text exactly when some NUL-free text begins with it, if and only if it has a NUL or what it is cut at is the beginning of a character |
| Utf8.BeginsTextIff | internal/agent/fs/meta.go:67-94 | NUL-free text begins with a head exactly when the head is whole characters, or those and the beginning of one more, and has no NUL |
| Utf8.WindowMayEndInJunk | internal/agent/fs/meta.go:62-94 | a full window that ends in a byte no text contains is still judged text |
| Utf8.ValidIffEncoded | internal/agent/fs/meta.go:62-72 | what the validity test accepts is exactly the encodings of scalar values |
| Tui.MutationsAreConfirmed | internal/tui/model.go:228-261 | over every run a signal or restart leaves only at y or Y, equal to what an earlier key proposed and unchanged since; its sandbox and process id came from one listing, its address from one reading of the fleet |
| Tui.MutationsWereUnderTheCursor | internal/tui/model.go:431-489 | over every run the key that proposed a mutation was pressed with its process and sandbox under the cursors |
| Tui.StopAsksFor | internal/tui/model.go:441-461 | x proposes a graceful TERM for the process under the cursor, exactly if there is one and it is live |
| Tui.RestartAsksFor | internal/tui/model.go:463-479 | r proposes a restart of it, live or not |
| Tui.DigitAsksFor | internal/tui/model.go:400-413 | a digit proposes the signal it numbers, not as a graceful stop |
| Tui.EnterAsksFor | internal/tui/model.go:385-400 | enter proposes the signal of the picker's row |
| Tui.FocusFollowsTheName | internal/tui/model.go:699-732 | a new reading of the fleet keeps the focus on its sandbox by name, and drops what was read only if it is gone |
| Tui.SelectionFollowsTheId | internal/tui/model.go:734-758 | a new listing keeps the selection on its process by id |
| Tui.LateAnswersAreDropped | internal/tui/model.go:734-800 | an answer about anything but what is under the cursor changes nothing |
| Tui.OnlyAYesMutates | internal/tui/model.go:372-383 | a step emits a mutating effect only by answering a prompt with yes, and then just that effect |
| Tui.AYesActs | internal/tui/model.go:372-383 | a yes emits exactly the effect the prompt was put up for |
| Tui.PromptIsStable | internal/tui/model.go:431-438 | a prompt is unchanged by whatever arrives, or was put up by this key for the current selection |
| Tui.OnlyTheseKeysPrompt | internal/tui/model.go:354-416 | a step leads to a prompt from normal mode only by x or r, and from the signal picker only by enter or a digit from 1 to 6 |
| Tui.AnythingElseCancels | internal/tui/model.go:372-383 | any other key answers no and does nothing else |
| Tui.ListIsTheFocused | internal/tui/model.go:699-758 | at every moment the process list is the focused sandbox's or nobody's |
| Tui.MoveKeeps | internal/tui/model.go:866-899 | moving to another sandbox drops everything read from the last one, and no move proposes anything |
| Tui.ProcessesWereListed | internal/tui/model.go:734-758 | the process list in hand is, whole, one listing for its sandbox |

## Left out

- The Windows process group, and groups made by `openProcessGroup`, whose ownership claim is its caller's.
- The goroutines of `run` are steps of a state machine rather than methods, because what is proved is their interleaving; the pumps are both, and the reuse of their buffers between reads is not captured.
- The opening exchange of a tunnel (`onOpen`, dial errors, allow rules), its audit record's text, and connections that are not TCP.
- Sweeping at session level, log lines and error wording; a result is one of the error kinds the code distinguishes.
- Hunks.UnifiedDiff: trimming the body at 160 lines, eliding long lines, sorting the occurrences (they arrive sorted) and printing are not modelled.
- ReadLines.Read: `readRaw`, metadata and a file that changes while it is read are not modelled.
- Pattern.Compile: trimming, backslashes, splitting at slashes and case folding happen before the model starts.
- Walk.Walker.WalkRoot: an error that aborts the walk and a cancelled context are not modelled; a directory that cannot be read is.
- GitIgnore.IgnoreStack.Push: parsing a rule file into rules is not modelled.
- Grep.Search.Run: the count of files searched, a read error inside a file and lines over the scanner's limit; a file is the lines its scanner yields.
- AtomicFile.Temp.Commit: flushing the directory entry and durability across power loss; a crash is a stop between steps.
- WriteProtocol: temp names are fresh and never the target's own; Go's exclusive create refuses a name that exists, and the random suffix is taken not to spell a target that does not.
- Creating parent directories, symlinked targets, removal and moves across devices.
- The hints of a failed edit (near misses by whitespace or line endings, line numbers of matches).
- Tui: which fetch is in flight, when one is due, the status line and all rendering; strings other than keys are only compared, so they are numbers.
- The client pool, registry, configuration, gRPC, TLS, policy and jail packages.
