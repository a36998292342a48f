# A verified model of the CTF agent platform

The platform runs CTF challenges in containers: a Go service queues tasks, drives one OpenCode bridge per container and
keeps every task's metadata and log in files; the Python bridge inside the container reads OpenCode's event stream and
reports back through the log. This project models the parts of both sides whose correctness depends on more than one
function and proves what they promise. `dafny verify dfyconfig.toml` checks all of it.

## What is modelled

- **The dispatcher** (`Dispatcher*.dfy`, `Commitments.dfy`, `Continuations.dfy`, `Finality.dfy`, `LockFinality.dfy`,
  `FullQueue.dfy`, `Service.dfy`, `Recovery.dfy`, `Outcome.dfy`; task updates in `Tasks.dfy` and, field by field,
  `TaskFields.dfy`). Callers, workers and the retention cleaner are threads of one state
  machine. Every store method and every section under the run lock is a step, and coarser steps take a check together with the
  mark it guards. Each theorem says at which of the two it holds; for those that fail at the finer one there are concrete runs
  that show it. `Service.dfy` has the object with its fields, each lock section tied to its step; `Recovery.dfy` is what happens
  before workers dequeue; `Outcome.dfy` is what one queue entry comes to when nobody stops it.
- **The durable store** (`DurableStore.dfy`, `LogRotation.dfy`). Metadata writes go through a temporary file, a rename and a
  directory sync, and a crash may leave any directory state since the last sync. JSON is an abstract document, or bytes that
  do not decode. Logs rotate over the slots `logs.txt`, `logs.txt.1`, ..., with every removal, rename, open and write free to
  fail.
- **The bridge and the protocol it shares with the service** (`Text.dfy`, `FinalOutput.dfy`, `WriteupNames.dfy`, `Stream.dfy`,
  `Descendants.dfy`, `Durations.dfy`, `DurationSyntax.dfy`, `Decimal.dfy`).
- **WebSocket frames** (`Framing.dfy`, `WebSocket.dfy`). `Framing.dfy` has a decoder, and an encoder for clients, written from
  section 5 of RFC 6455 alone; the service's writer and reader are both proved against it.
- **Attachment uploads** (`Uploads.dfy`, `Names.dfy`).

## What the proofs found

- Closing a container frees the task's slot even when a message is under way. After that two workers can execute the task at
  once, whether the close then fails (`DispatcherRaces.FailedCloseDoublesExecution`) or succeeds
  (`SuccessfulCloseDoublesExecution`). It does not happen as long as every close finds the slot free
  (`DispatcherRuns.NoDoubleExecution`), or with check and mark as one step; and it comes about exactly when a check succeeds
  while another worker is past one (`Commitments.ContentionComesFromChecks`, `CommitmentsDecide`).
- A stopped task can still end completed if the stop comes between a worker's check and its mark
  (`DispatcherRaces.MarkOvertakesStop`), or if it was decided while the task was queued and written while a worker was about to
  report its container (`DispatcherRaces.ReportOvertakesStop`). `LockFinality.StopIsFinalAtLocks` says exactly what can
  still move a stopped task.
- A submission that found the queue full fails its task after the fact, even if somebody stopped it in between
  (`DispatcherRaces.RefusalOvertakesStop`). With check and mark as one step nothing else moves a stopped task: it stays as it is
  exactly if its submission is over (`Finality.StopIsFinal`).
- The bridge and the service disagree on a flag if the marker line ends the text (the service takes the bridge's completion
  line for a flag), if a blank line follows the first marker and a flag a later one, and on U+001C to U+001F, which only Python
  strips (`FinalOutput.MarkerAtTheEnd`, `SeparatorsDiffer`); `FinalOutput.FlagsAgree` has the exact condition for every text.
- `docs/DATA_MODEL.md` describes `log_size` as the size of the log and its archives. The code counts all
  that was ever appended, dropped text included, while it runs, and replaces that by the size of `logs.txt` on every start (`LogRotation.TaskLog.ReloadedSizeIsPartial`). The model follows the code.
- If a writeup cannot be removed, clearing results leaves a solved task without its flag in memory while the file still has
  it (`DurableStore.ClearingKeepsCoupling`, `DispatcherRaces.FlagCanBeLost`).
- A close that read a task as queued stops it even if a worker has solved it since: the task is failed and has a flag
  (`DispatcherRaces.StopKeepsFlag`), and the next start makes it solved again (`DurableStore.StraysComeBackSolved`). As long as
  every close finds the slot free, these are the only two ways in which flag and status come apart
  (`DispatcherRuns.FlagsMatchStatus`).
- The two sides derive writeup names alike from every name that has a stem, but fall back differently
  (`WriteupNames.FilenamesAgree`).
- Startup ignores whether a recovered task fitted into the queue; the tasks beyond its capacity stay queued without an entry
  (`Recovery.NoneIsStranded`).

## Model

| member | source | states |
|---|---|---|
| DispatcherRuns.NoDoubleExecution | internal/app/service.go:403-463 | in every interleaving of lock sections, closing and cleaning included, in which no close frees a slot that is taken, at most one worker is between marking a task running and its terminal mark |
| DispatcherRuns.SlotIsHeldByOne | internal/app/service.go:518-550 | in the same runs a task's slot is taken exactly while one party (sender, queue entry or worker) stands for a continuation of it; never two; messages only under taken slots |
| DispatcherRuns.MessagesAreConserved | internal/app/service.go:465-495 | in the same runs acknowledged messages are those workers took, in order and unaltered, followed by the one still pending |
| DispatcherRuns.EntriesFindTheirOwn | internal/app/service.go:414-426 | in the same runs a worker that dequeued an initial run finds no message, one that dequeued a continuation finds one |
| DispatcherRuns.FlagsMatchStatus | internal/app/store.go:345-386 | in the same runs a task is solved without a flag iff a clearing found it solved, could not remove its writeup, and neither a clearing nor a stop got to it since; it has a flag without being solved iff a close that had read it as queued stopped it with its flag and no clearing took the flag since; otherwise it is consistent |
| DispatcherStops.NoDoubleExecutionUnderClose | internal/app/service.go:810-837 | with closing and cleaning at any point, but each check taken with the running mark it guards: no double execution, and an executed task is running or was failed with its container gone |
| Finality.FlagsMatchStatusUnderClose | internal/app/store.go:345-386 | with closing and cleaning, when checks are taken with their marks, every task is consistent, and solved without a flag iff a clearing lost it in that way |
| Finality.StopHoldsExactly | internal/app/service.go:137-155 | no step moves a stopped task's status, flag, container, kept bit or last step iff no submission of it is waiting to be rolled back |
| Finality.StopIsFinal | internal/app/service.go:137-155 | in every reachable state a stopped task's outcome stays the same for every continuation of the run iff its submission is over |
| LockFinality.StopHoldsAtLocks | internal/app/service.go:750-754 | with every lock section a step of its own, no step of any kind moves a stopped task iff it has no flag and no thread is past a check on it whose write would change it |
| LockFinality.StopIsFinalAtLocks | internal/app/service.go:810-837 | from any state and for all later steps, a stopped task's outcome stays the same iff it has no flag and no thread is past such a check, about to free the slot before such a write, or about to enqueue the task's submission |
| Finality.NeverQueuedAgain | internal/app/store.go:196-204 | at every granularity, a task that left the queued status never returns to it within one service lifetime |
| Continuations.WorkComesFromReadyTasks | internal/app/service.go:429-440 | in every run of any steps, a thread that works on an entry it did not work on at first has awaited its check, at some moment, with the task queued (initial run), or resting with a kept container, its name, and a session with a visible character (continuation), and has worked on that entry ever since |
| Continuations.ContinuationsAreChecked | internal/app/service.go:497-505 | a picked continuation goes on iff the task has exactly those fields, and else gives its slot up |
| Continuations.SendsAreChecked | internal/app/service.go:465-484 | a send goes on to reserve the slot iff its message is not empty and the task has those fields |
| TaskFields.StepHasItsEffect | internal/app/store.go:196-429 | every step, at every granularity, leaves a task as it is or changes it to what is written out field by field for that kind of step |
| TaskFields.WritesLand | internal/app/store.go:196-267 | a running mark and a terminal mark that are written do have that effect, and touch no other task |
| TaskFields.CleanerSpares | internal/app/service.go:867-920 | cleaning removes a kept container iff it is gone already, or its task is not running, it is past its time and Docker removes it; it changes nothing else |
| TaskFields.IdentityIsKept | internal/app/store.go:475-493 | in every run a task keeps its id, schema, challenge, attachment directory and creation time, and its log size grows by exactly what is logged for it |
| TaskFields.NothingFromNowhere | internal/app/store.go:269-326 | in every run a session, writeup, flag or container that a task did not have at first was brought by a step of the run: the session trimmed, the writeup under a safe name, both for this task |
| TaskFields.ReportsAreComplete | internal/app/store.go:196-267 | in every run a task has an error exactly while it is failed, a finishing time whenever it is completed, solved or failed, a starting time while it is running, and an exit code whenever it is completed or solved |
| DispatcherRaces.FailedCloseDoublesExecution | internal/app/service.go:815-830 | from every resting state with a continuable task there is a run with one close, which frees the slot and fails to remove the container, after which two workers execute the task |
| DispatcherRaces.SuccessfulCloseDoublesExecution | internal/app/service.go:815-837 | the same with one close, which succeeds: the old worker later frees the slot of a new message |
| Commitments.CommitmentsDecide | internal/app/service.go:429-440 | in every reachable state: no task is executed twice in any continuation without further checks iff no two workers are past a check on one task |
| Commitments.ContentionComesFromChecks | internal/app/service.go:497-505 | throughout any run no two workers are past a check on one task iff every check that succeeds finds nobody else past one |
| DispatcherRaces.MarkOvertakesStop | internal/app/service.go:622-629 | a run of an empty service in which a task that was stopped ends completed with its container kept |
| DispatcherRaces.ReportOvertakesStop | internal/app/service.go:810-824 | a run of an empty service in which a close that read the task as queued stops it under its worker, whose container report then makes it count as not stopped, so that it ends completed |
| DispatcherRaces.RefusalOvertakesStop | internal/app/service.go:137-155 | a run of an empty service, every check taken with its mark, in which a stopped task is failed by the rollback of its submission |
| DispatcherRaces.StopKeepsFlag | internal/app/service.go:810-824 | a run of an empty service after which a stopped task has a flag and no thread has anything to do; clearing the results then takes the flag |
| DispatcherRaces.FlagCanBeLost | internal/app/store.go:345-386 | a run of an empty service without closing that leaves a solved task without a flag |
| Service.Service.ReserveTaskMessage | internal/app/service.go:518-533 | one lock section is the machine's reserve step; succeeds iff the slot was free, and changes nothing otherwise |
| Service.Service.TakeQueuedMessage | internal/app/service.go:535-543 | one lock section is the machine's take step; the message is returned and removed, or there was none |
| Service.Service.ReleaseTaskSlot | internal/app/service.go:545-550 | one lock section is the machine's release step or a sender's rollback |
| Service.Service.Enqueue | internal/app/service.go:384-393 | the non-blocking send of a submitter or a sender is the machine's enqueue step; refused iff the queue is full |
| Service.Service.Receive | internal/app/service.go:411-414 | a worker's receive is the machine's dequeue step |
| Service.Service.SendTaskMessage | internal/app/service.go:465-495 | an uninterrupted send is a run of the machine's steps; it ends with slot, message and entry all in place, with nothing changed, or, if the queue was full, with slot and message released; each error exactly when and in the order the source gives it; no error only if the message has a visible character and the task rests, is kept, and has a container name and a session with a visible character; a resting task that lacks one of these three is refused as such |
| Service.Service.Submit | internal/app/service.go:137-155 | an uninterrupted submission is a run of the machine's two steps, or leaves no trace; each error in the source's order |
| Service.Service.CloseTaskContainer | internal/app/service.go:810-837 | an uninterrupted close is the machine's close step, whether the store's write succeeds or not; on success the task is, field by field, the stopped one if it was queued, else the one without its container and session, failed if it was running; it frees slot and message of every known task |
| Recovery.Startup.Start | internal/app/service.go:88-102 | recovery of a loaded store with any writes refused: every task's new state, and the queue as the oldest recoverable ids up to its capacity |
| Recovery.Startup.RecoverInterrupted | internal/app/service.go:839-850 | exactly the running tasks with a container become failed and kept, unless the write is refused |
| Recovery.Startup.RecoverableIDs | internal/app/store.go:431-448 | all queued tasks and running ones without a container, each once, in creation order |
| Recovery.RecoveryPartitions | internal/app/store.go:450-473 | with writes that succeed nothing stays running: interrupted tasks with a container are failed and kept, the other running ones are queued without session and starting time, all others are untouched; every field written out |
| Recovery.QueuedTasksAreEnqueued | internal/app/service.go:95-102 | recoverable ids are enqueued once each, and exactly the first ones up to the queue's capacity |
| Recovery.NoneIsStranded | internal/app/service.go:101 | every queued task has an entry iff there are no more of them than the queue holds |
| Recovery.TheOldestAreEnqueued | internal/app/service.go:95-102 | whichever writes are refused, the queue holds distinct recoverable tasks that were written, oldest first; one that was written and got no entry is no older than any of them, and the queue is full |
| Recovery.RecoveryIsFresh | internal/app/service.go:88-102 | whichever writes are refused, what recovery leaves behind is a state from which the dispatcher's theorems start iff the loaded tasks were consistent |
| Recovery.SurvivorsStartFresh | internal/app/store.go:58-77 | so it is after every crash, over directories in which only consistent versions were written |
| Outcome.RunUntilSolved | internal/app/service.go:637-674 | the loop ends with the verdict that an independent definition gives to the sequence of answers, after at most the configured rounds; a result it ends with is the last answer's, in which a flag in the log solves the task and wins, a missing container name is the store's with its kept bit, and the file the log names is read iff the task is solved, a container is named and there is no writeup yet |
| Outcome.VerdictIsUnique | internal/app/service.go:641-669 | the answers determine the number of executed rounds and the verdict |
| Outcome.LastRoundDecides | internal/app/service.go:713-732 | solved iff the last executed round had a flag, whatever its exit status; completed iff all allowed rounds ran and exited cleanly without one; failed in exactly the three remaining cases |
| Outcome.OnlyAMissingSessionGivesUp | internal/app/service.go:652-658 | with results that name a kept container, as the container runner's do, a run is given up as impossible to continue iff another round was due and the task had no session |
| Outcome.FinishRun | internal/app/service.go:580-635 | over the answers alone: another round was executed exactly after clean exits without a flag in answer or log, with a session and a kept container; if the terminal mark is written the task is, field by field, solved with the log's flag or else the answer's, failed with the answer's message, completed if no round was left, or failed as impossible to continue; otherwise it is untouched; its container is taken away iff it was marked solved and its writeup, if any, has a safe name and was saved |
| DurableStore.Record.AtomicWrite | internal/app/atomicfile.go:9-41 | at every moment the target holds the old content or all of the new; after success no crash brings the old back; after failure only a failed directory sync leaves the new one visible |
| DurableStore.Record.WriteTask | internal/app/store.go:495-516 | every moment of a write is the old directory, the one with the backup taken, or the finished one |
| DurableStore.Record.Commit | internal/app/store.go:495-516 | whatever crash comes during a write, a restart finds the last acknowledged version, one attempted since, or the new one; after success only the new one |
| DurableStore.Record.Update | internal/app/store.go:475-493 | memory changes only if the write succeeds; the crash guarantee holds at every moment of the call |
| DurableStore.Record.Add | internal/app/store.go:79-96 | the same for a task's first version, before which a restart may find none |
| DurableStore.Record.ClearResultData | internal/app/store.go:345-386 | the entry changes in place before the write, to what is written out field by field; a refused removal stops it half cleared with nothing written |
| DurableStore.ClearingKeepsCoupling | internal/app/store.go:359-366 | clearing keeps flag and status coupled iff it is not a solved task whose writeup cannot be removed |
| DurableStore.Record.Crash | internal/app/atomicfile.go:37-40 | any directory state since the last sync satisfies the guarantee again |
| DurableStore.Record.Start | internal/app/store.go:58-77 | a start after a crash finds an allowed version, changed in no field but those that loading replaces, and surely one if any write was ever acknowledged; so does the next start if this one crashes in the middle of repair or migration |
| DurableStore.Record.ReadTask | internal/app/store.go:518-569 | reading returns what the directory's documents determine, changed in no field but those that loading replaces, repairs and migrates the primary, and writes nothing if there is nothing to mend |
| DurableStore.LoadKeepsTheDocument | internal/app/store.go:538-568 | for the primary, or the backup of a primary that does not decode: it is accepted iff it has the right, safe id and a schema up to 1; the task loaded from it equals it in every field but schema 0 (now 1), log size, an empty attachment directory, and, with a flag, status, error and kept bit; the primary left equals it but for schema 0 |
| DurableStore.NothingOffered | internal/app/store.go:519-537 | a directory without such a document loads nothing and stays as it is |
| DurableStore.Record.RestartGivesBackTheTask | internal/app/store.go:475-493 | after a successful update every crash and restart give back the entry in memory, up to its log size |
| DurableStore.LoadGivesBackTheTask | internal/app/store.go:557-568 | a stored task is read back unchanged up to its log size iff it has an attachment directory and no flag without being solved |
| DurableStore.StraysComeBackSolved | internal/app/store.go:563-567 | a task stored with a flag and another status is loaded as solved, with its flag and last step |
| DurableStore.LoadIsIdempotent | internal/app/store.go:518-569 | a second read with unchanged logs returns the same task and finds nothing to write, across repair, migration and normalisation |
| DurableStore.ForeignDocumentsAreRejected | internal/app/store.go:538-546 | newer schemas and other ids are rejected, whatever the backup holds, and the directory stays as it is |
| DurableStore.CorruptionLosesOneVersion | internal/app/store.go:525-537 | invalid bytes in the primary after a write give back exactly the version before it, and put it in place again |
| LogRotation.TaskLog.RotateIfNeeded | internal/app/store.go:172-194 | whatever file operation fails, at most the last slot's text is lost and the rest keeps its order; without faults every slot moves up one and exactly the last slot is dropped |
| LogRotation.TaskLog.AppendLog | internal/app/store.go:126-147 | dropped text and retained text are always all that was ever written; a failed append adds nothing or an uncounted part; without faults the log size is the length of everything appended; every file is within the limit or a single append, and without faults two adjacent ones exceed it |
| LogRotation.TaskLog.Logs | internal/app/store.go:149-170 | what was dropped followed by the returned text is everything ever written; unreadable slots make it fail |
| LogRotation.TaskLog.RetainedIsLong | internal/app/store.go:172-194 | as long as no append failed, once anything was dropped the retained text is longer than floor((B+1)/2) times the limit |
| LogRotation.TaskLog.RetainedIsBounded | internal/app/store.go:172-194 | whatever failed, the retained text is at most B+1 times the limit or the longest single append |
| LogRotation.TaskLog.ReloadedSizeIsPartial | internal/app/store.go:560-562 | the size after a restart equals the one before iff nothing was dropped and every archive is empty |
| FinalOutput.ParseFlag | internal/app/result_parser.go:18-49 | the service's loop finds the line after the first marker line of the last block, unless it is blank or missing; it finds a flag only in a log that contains the final-output marker |
| FinalOutput.NoFlagWithoutMarker | internal/app/result_parser.go:43-49 | a log in which the final-output marker does not occur gives no flag |
| FinalOutput.FlagOfTheLastBlock | internal/app/result_parser.go:43-49 | any other log gives the flag of the text after the marker's last occurrence |
| FinalOutput.ExtractSolvedFlag | runtime/opencode/bridge.py:788-799 | the bridge's loop finds the line after the first marker line that is followed by a visible one |
| FinalOutput.ServiceReads | internal/app/result_parser.go:43-49 | what the service makes of an emitted text, trimming and line ends included, for every text and everything logged after it |
| FinalOutput.FlagsAgree | runtime/opencode/bridge.py:782-799 | for every text and everything logged later: service and bridge see the same flag iff what the bridge's lines announce is what follows the service's first marker line |
| FinalOutput.SettledTextsAgree | runtime/opencode/bridge.py:788-799 | if both sides see the same on every line, they agree iff nothing is declared after a text without marker, and the first marker neither ends the text nor is followed by a blank line with a flag declared further down |
| FinalOutput.PlainTextsAreUnambiguous | runtime/opencode/bridge.py:792 | without U+001C to U+001F both sides see the same on every line |
| FinalOutput.LogCarriesTheFlag | internal/app/result_parser.go:18-49 | the exact condition of agreement for whole logs in which the block is the last one |
| FinalOutput.OnlyTheLastBlockCounts | internal/app/result_parser.go:43-49 | nothing before the last final-output marker matters |
| FinalOutput.MarkerAtTheEnd | internal/app/result_parser.go:29-38 | for every text that ends in the first line the service takes for the marker, the service takes the completion line for a flag; the bridge sees none iff no earlier line is a marker for it alone and followed by a visible one |
| FinalOutput.SeparatorsDiffer | runtime/opencode/bridge.py:792 | a text about which the two sides disagree because of U+001F |
| WriteupNames.SafeFilenameStem | internal/app/result_parser.go:81-116 | the service's loop and checks compute its stem function |
| WriteupNames.SafeFilenameStemInBridge | runtime/opencode/bridge.py:242-264 | the bridge's loop computes its stem function |
| WriteupNames.SquashWord | internal/app/result_parser.go:88-103 | Latin letters, digits, Chinese characters and three signs stay, and whatever is between two words of them becomes one dash |
| WriteupNames.StemIsTheName | internal/app/result_parser.go:104-115 | for every name the stem is those words joined, trimmed at both ends, up to 80 characters, and of anything longer the first 80 trimmed at their end; it is empty iff the name has no character of a word |
| WriteupNames.OrdinaryNamesStay | internal/app/result_parser.go:81-116 | names of up to 80 such characters without signs at their ends are their own stems |
| WriteupNames.StemsAgree | internal/app/result_parser.go:81-116 | both sides compute the same stem for every name |
| WriteupNames.FilenamesAgree | internal/app/result_parser.go:67-79 | both sides use the same writeup file iff the name has a stem, or the id's stem is the bridge's default |
| WriteupNames.WriteupNamesAreSafe | runtime/opencode/bridge.py:267-270 | every name the bridge composes passes the store's check of file names |
| WriteupNames.LatestWriteupFileName | internal/app/result_parser.go:52-65 | the backward loop finds the last line that names a safe file |
| WriteupNames.LatestIsTheLastNamed | internal/app/result_parser.go:52-65 | the name is that of the last line whose visible part is the marker followed by a name the store accepts, and empty iff there is no such line |
| WriteupNames.WriteupIsReadBack | internal/app/result_parser.go:52-65 | a name announced by the bridge is read back unless a later line names another safe file |
| Names.PlainNames | internal/app/store.go:575-608 | the checks by path base, white space and separators come down to which characters a name has |
| Names.TaskIDs | internal/app/store.go:575-598 | a task id is safe iff it is not empty, names no directory, and has Latin letters, digits and three signs only |
| Stream.RunOnce | runtime/opencode/bridge.py:685-766 | text, session and logged notices of a run are those of the lines of the concatenated stream, however it was cut into chunks; the rows below say what they are |
| Stream.LinesAreTheCutStream | runtime/opencode/bridge.py:730-746 | the lines contain no line break and rebuild the stream, a last empty piece dropped |
| Stream.LastNamedSession | runtime/opencode/bridge.py:736-738 | the returned session is the last one any line named, else the given one |
| Stream.BlocksAreTheTexts | runtime/opencode/bridge.py:739-744 | for every run, the blocks are exactly the non-empty texts of the lines, in the order of the lines |
| Stream.FinalTextOfTheRun | runtime/opencode/bridge.py:763 | the final text joins the distinct non-empty texts of the lines in the order in which they first appear, and is stripped at both ends |
| Stream.JoinOneMore | runtime/opencode/bridge.py:763 | one block more adds a blank line and the block, and nothing else |
| Stream.LogTellsTheChanges | runtime/opencode/bridge.py:736-743 | the log has exactly the sessions that differ from the one before and the texts that differ from the last one shown, in the order of the lines, a line's session before its text |
| Stream.DedupePreserveOrder | runtime/opencode/bridge.py:524-533 | the loop with its set computes the recursive definition |
| Stream.DedupeKeepsFirsts | runtime/opencode/bridge.py:524-533 | every value once, in the order of first occurrences |
| Descendants.DescendantProcessIDs | runtime/opencode/bridge.py:558-570 | exactly the processes whose chain of parents reaches the root in one or more steps, cycles included |
| Durations.ParseDurationSeconds | runtime/opencode/bridge.py:104-119 | the loop over leftmost matches sums them iff they make up the whole text, and falls back otherwise |
| DurationSyntax.ParsedIsTheSum | runtime/opencode/bridge.py:104-119 | a text is understood iff, stripped and in lower case, it is a sequence of one or more numbers with units, and stands for their sum in seconds, the units being a thousandth of one, 1, 60 and 3600 |
| DurationSyntax.AnySpellingIsRead | runtime/opencode/bridge.py:108 | upper case in any place and white space around such a sequence make no difference |
| Durations.TimeoutsArriveExactly | internal/app/docker.go:275-276 | every duration of zero or at least a millisecond is parsed back exactly from what the service prints; every other one, negative ones included, gives the fallback |
| Decimal.ValueOfNumeral | internal/app/storage.go:61 | decimal printing is inverted by reading, hence injective |
| Framing.ClientFrameDecodes | internal/app/websocket.go:228-269 | a client's final frame of any opcode and payload, encoded by sections 5.2 and 5.3 of RFC 6455 under any key, decodes to exactly that frame |
| Framing.FramesAreUnique | internal/app/websocket.go:187-206 | octets decode to one sequence of frames only |
| WebSocket.Connection.WriteAll | internal/app/websocket.go:208-220 | short writes lose nothing: on success exactly the payload was appended, and steady connections succeed |
| WebSocket.FrameDecodes | internal/app/websocket.go:187-206 | for every opcode and payload length the written octets are exactly one final unmasked frame of section 5.2 of RFC 6455, minimally encoded |
| WebSocket.Connection.WriteFrame | internal/app/websocket.go:187-206 | after any sequence of successful writes the output decodes to exactly the frames sent, in order |
| WebSocket.Connection.WriteControl | internal/app/websocket.go:180-185 | control payloads above 125 octets are refused with nothing written |
| WebSocket.Unmask | internal/app/websocket.go:267-269 | the in-place loop applies the mask of section 5.3 of RFC 6455 |
| WebSocket.Connection.NextFrame | internal/app/websocket.go:228-269 | one round reads what the specification of a client frame says, consumes exactly it, and never reserves more than 65536 octets |
| WebSocket.Connection.ReadUntilClose | internal/app/websocket.go:222-282 | on any input the reading ends as the transcript says, with exactly its pongs written, and no buffer above 65536 octets |
| WebSocket.ReaderFollowsDecoder | internal/app/websocket.go:228-269 | every frame that the standard's decoder finds is taken iff it is final, masked and up to 65536 octets, and refused for the first of these that fails |
| WebSocket.UnwelcomeFrameStops | internal/app/websocket.go:222-282 | any frames decoded in order are taken, their pings answered, up to the first that is not final, not masked, too large, a close frame, a ping above 125 octets or of an unknown opcode; the reading stops for the first of these reasons |
| WebSocket.CutInputEnds | internal/app/websocket.go:228-266 | input that ends between frames or anywhere inside one ends the reading as such, every ping before it answered |
| WebSocket.PongsAnswerPings | internal/app/websocket.go:272-275 | pongs are final unmasked frames of opcode 10 with the pings' payloads, one each and in order |
| WebSocket.EveryPingIsAnswered | internal/app/websocket.go:222-282 | a client that encodes any acceptable frames under any keys by sections 5.2 and 5.3 of RFC 6455, and then a close frame, gets one pong per ping, in order, with its payload; no error, and nothing read beyond |
| Uploads.FreeName | internal/app/storage.go:56-62 | the search ends in every directory, with the first candidate that is free |
| Uploads.CandidatesDiffer | internal/app/storage.go:60-62 | no two candidates are the same name |
| Uploads.CandidatesKeepTheExtension | internal/app/storage.go:56-62 | a candidate's number stands between the name and its extension, which starts at the last point |
| Uploads.ReplaceWord | internal/app/storage.go:81-91 | safe characters stay, and whatever is between two of them becomes one underscore |
| Uploads.SafeNamesStay | internal/app/storage.go:81-91 | names of safe characters are kept, up to their first 180 |
| Uploads.DirectoriesAreDropped | internal/app/storage.go:82 | only the part of a path after its last slash counts |
| Uploads.NamelessUploads | internal/app/storage.go:83-85 | an upload named by nothing but slashes, white space or a point is saved as attachment |
| Uploads.ChosenNamesAreSafe | internal/app/storage.go:81-91 | whatever the upload is called, its file lies directly in the directory under a name the store's check accepts |
| Uploads.Attachments.SaveUploadedFile | internal/app/storage.go:46-79 | each way of failing, in order; too large iff the header's size or, if all is copied, the content exceeds 268435456 octets; the directory gains the whole file under a free name, nothing, or a part that could not be removed |
| Uploads.Attachments.SaveUploadedFiles | internal/app/storage.go:32-44 | saving k named files without error adds k distinct new entries with their contents and overwrites none; it succeeds iff each can be saved |

## Left out

- Docker CLI calls, container flags, memory probing: what a bridge run returned is an input.
- HTTP routing, authentication, CORS, SSE, readiness and provider probing: plumbing over libraries and the network.
- The WebSocket handshake, deadlines and the ping ticker: library and timing behaviour.
- `hub.go`: a lossy fan-out over buffered channels that would only add easy members.
- Session detection in log chunks on the service's side: it depends on chunk boundaries, so sessions change arbitrarily in the dispatcher.
- Cancellation bookkeeping and shutdown (`runs`, `done`): a cancelled run is a run that returned an error.
- Wall-clock time: only the order of creation times and an arbitrary answer to whether a container expired are kept.
- Recovery.Startup.Start: the workers of the source may already dequeue while recovery still marks tasks; the model lets them start afterwards.
- Outcome.FinishRun: nobody stops or cancels the run.
- FinalOutput.ExtractSolvedFlag: the theorems are about the text as emitted, that is its last 12000 characters; the bridge itself asks about the whole text before that cut.
- Stream.RunOnce: a notice of a text stands for it as a whole; the bridge prints its last 1200 characters without white space around them, and nothing if there are none. Time-outs, and the exit of the process while its output queue is empty, are not part of it; how one line is parsed as an event is an arbitrary function.
- Durations.ParseDurationSeconds: sums are exact reals instead of floating point, and digits and upper case are ASCII only.
- Descendants.DescendantProcessIDs: the map of parents is given; reading it from `/proc` and signalling are left out.
- DurableStore.Record.Add: creating the task's directory is durable at once; the root directory is never synced by the source.
- DurableStore.Record.ReadTask: JSON that is valid but has values of other types in it is excluded; a document stands for all its formattings.
- LogRotation.TaskLog.AppendLog: files are the map from slots to contents; durability of log text under crashes is not claimed, as the source does not sync it.
- WebSocket.Connection.ReadUntilClose: what is consumed before an error is not claimed, only what is consumed up to a close frame.
- `MarkFalseLiveCapture`, `MarkFlag` and `MarkInvalidFlag`: the service does not call them. `SaveWriteup` is a step that changes the entry whether its write succeeds or not, as in the source.
- Service.Service.SendTaskMessage: without interruption between its sections; their interleavings are runs of the state machine.
- Service.Service.Submit: likewise; the check that the queue has room is not a step of the machine, which lets a task be stored at any moment.
- Service.Service.CloseTaskContainer: likewise.
- Prompts, skill loading, category guidance, configuration loading, the frontend and the scripts: text and presentation.
