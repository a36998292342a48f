/** Task metadata and the updates that the store's Mark methods apply to it. */
module Tasks {
  import opened Decimal
  import opened Names
  import opened Options
  import Text

  datatype Status = Queued | Running | Completed | Solved | Failed

  /** What the submitter wrote; no operation changes it. */
  datatype Challenge = Challenge(
    name: string,
    category: string,
    description: string,
    targetIp: string,
    attachmentCount: int)

  datatype Task = Task(
    schemaVersion: int,
    id: string,
    challenge: Challenge,
    attachmentsDir: string,
    status: Status,
    flag: Option<string>,
    exitCode: Option<int>,
    error: Option<string>,
    lastStep: string,
    writeup: string,
    containerName: string,
    containerKept: bool,
    session: string,
    createdAt: int,
    startedAt: Option<int>,
    finishedAt: Option<int>,
    logSize: int)

  const CONTAINER_CLOSED_MESSAGE := "容器已关闭"
  const TASK_STOPPED_MESSAGE := "任务已停止"
  const RUNNING_STEP := "任务正在执行"
  const FLAG_STEP := "Flag已捕获"
  const ROUND_ENDED_STEP := "OpenCode本轮执行结束"
  const CLEARED_STEP := "历史Flag/WP结果已清理"
  const INTERRUPTED_STEP := "service restarted while task was running; container retained for manual inspection"
  const TASK_QUEUE_FULL_MESSAGE := "任务队列已满，请稍后再提交"
  const CURRENT_SCHEMA := 1

  lemma MessagesDiffer()
    ensures TASK_QUEUE_FULL_MESSAGE != CONTAINER_CLOSED_MESSAGE && TASK_QUEUE_FULL_MESSAGE != TASK_STOPPED_MESSAGE
    ensures TASK_STOPPED_MESSAGE != CONTAINER_CLOSED_MESSAGE
  {
    assert TASK_QUEUE_FULL_MESSAGE[2] == '队' && TASK_STOPPED_MESSAGE[2] == '已';
    assert CONTAINER_CLOSED_MESSAGE[0] == '容' && TASK_STOPPED_MESSAGE[0] == '任' && TASK_QUEUE_FULL_MESSAGE[0] == '任';
  }

  function MarkRunning(t: Task, now: int): Task {
    t.(status := Running, startedAt := Some(now), error := None, lastStep := RUNNING_STEP)
  }

  function MarkCompleted(t: Task, now: int, exitCode: int, lastStep: string, name: string, kept: bool): Task {
    var step := Text.TrimSpace(lastStep);
    t.(status := Completed, exitCode := Some(exitCode), flag := None, error := None, finishedAt := Some(now),
       lastStep := if step == "" then ROUND_ENDED_STEP else step, containerName := name, containerKept := kept)
  }

  /** The message of a failed run that gives none itself. */
  function ExitMessage(exitCode: int): string {
    "runner exited with status " + if exitCode < 0 then "-" + Numeral(-exitCode) else Numeral(exitCode)
  }

  /** MarkFinishedWithFailureMessage */
  function MarkFinished(t: Task, now: int, exitCode: int, flag: Option<string>, lastStep: string, name: string,
                        kept: bool, failure: string): Task {
    var u := t.(exitCode := Some(exitCode), flag := flag, finishedAt := Some(now), lastStep := lastStep,
                containerName := name, containerKept := kept);
    if flag.Some? then u.(status := Solved, error := None)
    else u.(status := Failed,
            error := if Text.TrimSpace(failure) != "" then Some(Text.TrimSpace(failure))
                     else if t.error.None? then Some(ExitMessage(exitCode)) else t.error)
  }

  function MarkFailed(t: Task, now: int, message: string): Task {
    t.(status := Failed, error := Some(message), lastStep := message, finishedAt := Some(now))
  }

  function MarkRuntimeContainer(t: Task, name: string): Task {
    t.(containerName := name)
  }

  function MarkSession(t: Task, session: string): Task {
    t.(session := Text.TrimSpace(session))
  }

  function MarkContainerClosed(t: Task, now: int): Task {
    var u := t.(containerKept := false, containerName := "", session := "", lastStep := CONTAINER_CLOSED_MESSAGE);
    if t.status == Running || t.status == Queued
    then u.(status := Failed, error := Some(CONTAINER_CLOSED_MESSAGE), finishedAt := Some(now))
    else u
  }

  function MarkStopped(t: Task, now: int, message: string): Task {
    t.(status := Failed, error := Some(message), lastStep := message, finishedAt := Some(now),
       containerKept := false, containerName := "", session := "")
  }

  function MarkRecovered(t: Task): Task {
    if t.status == Running
    then t.(status := Queued, startedAt := None, error := None, containerKept := false, containerName := "",
            session := "")
    else t
  }

  function MarkInterrupted(t: Task, now: int): Task {
    t.(status := Failed, error := Some(INTERRUPTED_STEP), lastStep := INTERRUPTED_STEP, finishedAt := Some(now),
       containerKept := true)
  }

  /** ClearResultData's effect on one task. */
  function ClearResult(t: Task): Task {
    var u := t.(flag := None, writeup := "");
    if t.status == Solved
    then u.(status := Completed, error := None,
            lastStep := if Text.TrimSpace(t.lastStep) == "" || t.lastStep == FLAG_STEP then CLEARED_STEP
                else t.lastStep)
    else u
  }

  /** The task has a writeup whose file ClearResultData must remove before it goes on. */
  predicate HasStoredWriteup(t: Task) {
    t.writeup != "" && SafeStoredFilename(t.writeup)
  }

  /** ClearResultData's effect on a task whose writeup it cannot remove: it stops there, the flag already gone. */
  function HalfCleared(t: Task): Task {
    t.(flag := None)
  }

  function SetWriteup(t: Task, filename: string): Task {
    t.(writeup := filename)
  }

  /** Service.taskWasStopped */
  predicate Stopped(t: Task) {
    && t.status == Failed && t.containerName == ""
    && (t.lastStep == CONTAINER_CLOSED_MESSAGE || t.lastStep == TASK_STOPPED_MESSAGE)
  }

  /** The test that both SendTaskMessage and runContinuation make before they go on. */
  predicate Continuable(t: Task) {
    && t.status != Queued && t.status != Running
    && t.containerKept && t.containerName != "" && Text.TrimSpace(t.session) != ""
  }

  /** The same by its fields, the session having a character that is not white space. */
  ghost predicate Resumable(t: Task) {
    && t.status in {Completed, Solved, Failed}
    && t.containerKept && t.containerName != "" && exists c | c in t.session :: !Text.GoSpace(c)
  }

  lemma ContinuableIsResumable(t: Task)
    ensures Continuable(t) <==> Resumable(t)
  {
    Text.TrimAll(t.session, Text.GoSpace);
  }

  /** The task failed with this message, and otherwise as it was. */
  ghost function Failure(t: Task, now: int, message: string): Task {
    t.(status := Failed, error := Some(message), lastStep := message, finishedAt := Some(now))
  }

  /** CloseTaskContainer's test that there is a container to close. */
  predicate Closable(t: Task) {
    t.containerName != "" && (t.containerKept || t.status == Running)
  }

  /** How the fields of a task that the service wrote hang together. */
  predicate Consistent(t: Task) {
    && (t.flag.Some? ==> t.status == Solved)
    && (t.status == Solved ==> !t.containerKept)
    && (t.status == Queued ==> !t.containerKept && t.containerName == "")
  }

  /** A task that is solved and has no flag. */
  predicate Flagless(t: Task) {
    t.status == Solved && t.flag.None?
  }

  /** Neither solved nor with a flag. */
  predicate Unflagged(t: Task) {
    t.flag.None? && t.status != Solved
  }

  /** A task with a flag that is not solved. */
  predicate Stray(t: Task) {
    t.flag.Some? && t.status != Solved
  }

  /** What holds of every task, stray or not: only an unflagged one may be run, or run again. */
  predicate Tame(t: Task) {
    && (t.containerKept ==> Unflagged(t))
    && (t.status == Queued ==> Unflagged(t) && !t.containerKept && t.containerName == "")
  }

  lemma ConsistentIsTame(t: Task)
    ensures Consistent(t) <==> Tame(t) && !Stray(t)
  {
  }

  /** Consistent, and the flag is set exactly when the task is solved. */
  predicate Coupled(t: Task) {
    Consistent(t) && !Flagless(t)
  }

  /** The fields that must not move once a task was stopped. */
  predicate SameOutcome(t: Task, u: Task) {
    && t.status == u.status && t.flag == u.flag && t.lastStep == u.lastStep
    && t.containerName == u.containerName && t.containerKept == u.containerKept
  }
}
