/** What the steps of the dispatcher do to the fields of a task, and what follows for whole runs. */
module TaskFields {
  import opened Dispatcher
  import opened Names
  import opened Options
  import opened Tasks
  import Text

  // One step

  ghost function Beginning(t: Task, now: int): Task {
    t.(status := Running, startedAt := Some(now), error := None, lastStep := RUNNING_STEP)
  }

  /** The task after its terminal mark. */
  ghost function Conclusion(t: Task, o: Outcome, now: int): Task {
    match o
    case Failing(message) => Failure(t, now, message)
    case Completing(exitCode, step, name, kept) =>
      var last := Text.TrimSpace(step);
      t.(status := Completed, flag := None, exitCode := Some(exitCode), error := None,
         lastStep := if last == "" then ROUND_ENDED_STEP else last, finishedAt := Some(now),
         containerName := name, containerKept := kept)
    case Breaking(exitCode, step, name, kept, message) =>
      var said := Text.TrimSpace(message);
      t.(status := Failed, flag := None, exitCode := Some(exitCode), lastStep := step, finishedAt := Some(now),
         error := if said != "" then Some(said) else if t.error.Some? then t.error else Some(ExitMessage(exitCode)),
         containerName := name, containerKept := kept)
    case Solving(exitCode, flag, name) =>
      t.(status := Solved, flag := Some(flag), exitCode := Some(exitCode), error := None, lastStep := FLAG_STEP,
         finishedAt := Some(now), containerName := name, containerKept := false)
  }

  /** The task without its container; one that was queued or running has failed. */
  ghost function Removal(t: Task, now: int): Task {
    var u := t.(containerKept := false, containerName := "", session := "", lastStep := CONTAINER_CLOSED_MESSAGE);
    if t.status in {Completed, Solved, Failed} then u
    else u.(status := Failed, error := Some(CONTAINER_CLOSED_MESSAGE), finishedAt := Some(now))
  }

  ghost function Stop(t: Task, now: int): Task {
    Failure(t, now, TASK_STOPPED_MESSAGE).(containerKept := false, containerName := "", session := "")
  }

  ghost function Cleansing(t: Task): Task {
    var u := t.(flag := None, writeup := "");
    if t.status != Solved then u
    else u.(status := Completed, error := None,
            lastStep := if t.lastStep == FLAG_STEP || Text.TrimSpace(t.lastStep) == "" then CLEARED_STEP
            else t.lastStep)
  }

  /** What a step makes of a task that it changes. */
  ghost predicate Effect(step: Step, id: Id, t: Task, u: Task) {
    match step
    case SubmitRollback(_, now, _) => u == Failure(t, now, TASK_QUEUE_FULL_MESSAGE)
    case StartRun(_, now, _) => u == Beginning(t, now)
    case InitStart(_, now, _) => u == Beginning(t, now)
    case ContStart(_, now, _) => u == Beginning(t, now)
    case Sink(_, name, _) => u == t.(containerName := name)
    case Finish(_, o, now, _) => u == Conclusion(t, o, now)
    case CheckedFinish(_, o, now, _) => u == Conclusion(t, o, now)
    case CloseMark(_, _, now, _) => u == Stop(t, now) || u == Removal(t, now)
    case Close(_, _, now, _) => u == if t.status == Queued then Stop(t, now) else Removal(t, now)
    case CleanMark(_, _, _, _, now, _) => u == Removal(t, now)
    case Clean(_, _, _, _, now, _) => u == Removal(t, now)
    case Log(i, bytes) => i == id && u == t.(logSize := t.logSize + bytes)
    case Session(i, session) => i == id && u == t.(session := Text.TrimSpace(session))
    case SaveWriteup(i, filename) => i == id && SafeStoredFilename(filename) && u == t.(writeup := filename)
    case ClearResults(_, _) => u == Cleansing(t) || u == t.(flag := None)
    case _ => false
  }

  /** The same by the store's updates. */
  ghost predicate Update(step: Step, id: Id, t: Task, u: Task) {
    match step
    case SubmitRollback(_, now, _) => u == MarkFailed(t, now, TASK_QUEUE_FULL_MESSAGE)
    case StartRun(_, now, _) => u == MarkRunning(t, now)
    case InitStart(_, now, _) => u == MarkRunning(t, now)
    case ContStart(_, now, _) => u == MarkRunning(t, now)
    case Sink(_, name, _) => u == MarkRuntimeContainer(t, name)
    case Finish(_, o, now, _) => u == MarkOutcome(t, o, now)
    case CheckedFinish(_, o, now, _) => u == MarkOutcome(t, o, now)
    case CloseMark(_, _, now, _) => u == MarkStopped(t, now, TASK_STOPPED_MESSAGE) || u == MarkContainerClosed(t, now)
    case Close(_, _, now, _) =>
      u == if t.status == Queued then MarkStopped(t, now, TASK_STOPPED_MESSAGE) else MarkContainerClosed(t, now)
    case CleanMark(_, _, _, _, now, _) => u == MarkContainerClosed(t, now)
    case Clean(_, _, _, _, now, _) => u == MarkContainerClosed(t, now)
    case ClearResults(_, _) => u == ClearResult(t) || u == HalfCleared(t)
    case _ => Notes(step) && step.id == id && u == Noted(t, step)
  }

  lemma UpdateHasItsEffect(step: Step, id: Id, t: Task, u: Task)
    requires Update(step, id, t, u)
    ensures Effect(step, id, t, u) || u == t
  {
  }

  /** Only a submission adds a task; every other step leaves each task as it is or updates it. */
  lemma StepUpdates(s: State, step: Step, id: Id)
    requires !step.SubmitAdd?
    ensures id in Apply(s, step).tasks <==> id in s.tasks
    ensures id in s.tasks ==>
              Apply(s, step).tasks[id] == s.tasks[id] || Update(step, id, s.tasks[id], Apply(s, step).tasks[id])
  {
    if !Writes(step) {
      OthersDoNotWrite(s, step);
    } else if step.SubmitRollback? {
      RollbackUpdates(s, step, id);
    } else if step.CloseMark? {
      CloseMarkUpdates(s, step, id);
    } else if step.Close? {
      CloseUpdates(s, step, id);
    } else if ByCloser(step) {
      CleanUpdates(s, step, id);
    } else if step.Sink? {
      SinkUpdates(s, step, id);
    } else if step.Finish? || step.CheckedFinish? {
      FinisherUpdates(s, step, id);
    } else if step.StartRun? {
      StartRunUpdates(s, step, id);
    } else if ByWorker(step) {
      StarterUpdates(s, step, id);
    } else if step.ClearResults? {
      ClearingUpdates(s, step, id);
    } else {
      NoteUpdates(s, step, id);
    }
  }

  lemma SubmitAdds(s: State, step: Step, id: Id)
    requires step.SubmitAdd?
    ensures id in s.tasks ==> id in Apply(s, step).tasks && Apply(s, step).tasks[id] == s.tasks[id]
    ensures id !in s.tasks && id in Apply(s, step).tasks ==>
              Apply(s, step).tasks[id] == step.task && step.task.status == Queued
  {
  }

  /** Every step leaves a task as it is or has its effect on it. */
  lemma StepHasItsEffect(s: State, step: Step, id: Id)
    requires id in s.tasks
    ensures id in Apply(s, step).tasks
    ensures Apply(s, step).tasks[id] == s.tasks[id] || Effect(step, id, s.tasks[id], Apply(s, step).tasks[id])
  {
    if step.SubmitAdd? {
      SubmitAdds(s, step, id);
    } else {
      StepUpdates(s, step, id);
      if Apply(s, step).tasks[id] != s.tasks[id] {
        UpdateHasItsEffect(step, id, s.tasks[id], Apply(s, step).tasks[id]);
      }
    }
  }

  lemma RollbackUpdates(s: State, step: Step, id: Id)
    requires step.SubmitRollback?
    ensures id in Apply(s, step).tasks <==> id in s.tasks
    ensures id in s.tasks ==>
              Apply(s, step).tasks[id] == s.tasks[id] || Update(step, id, s.tasks[id], Apply(s, step).tasks[id])
  {
  }

  lemma CloseWriteUpdates(s: State, i: Id, seen: Task, dockerOk: bool, now: int, wrote: bool, id: Id)
    ensures var s' := CloseWrite(s, i, seen, dockerOk, now, wrote);
            (id in s'.tasks <==> id in s.tasks)
                && (|| id !in s.tasks
                    || s'.tasks[id] == s.tasks[id]
                    || (seen.status == Queued && i == id
                        && s'.tasks[id] == MarkStopped(s.tasks[id], now, TASK_STOPPED_MESSAGE))
                    || (seen.status != Queued && i == id && s'.tasks[id] == MarkContainerClosed(s.tasks[id], now)))
  {
  }

  lemma CloseUpdates(s: State, step: Step, id: Id)
    requires step.Close?
    ensures id in Apply(s, step).tasks <==> id in s.tasks
    ensures id in s.tasks ==>
              Apply(s, step).tasks[id] == s.tasks[id] || Update(step, id, s.tasks[id], Apply(s, step).tasks[id])
  {
    if step.id in s.tasks {
      CloseWriteUpdates(s.Freed(step.id), step.id, s.tasks[step.id], step.dockerOk, step.now, step.wrote, id);
    }
  }

  lemma CloseMarkUpdates(s: State, step: Step, id: Id)
    requires step.CloseMark?
    ensures id in Apply(s, step).tasks <==> id in s.tasks
    ensures id in s.tasks ==>
              Apply(s, step).tasks[id] == s.tasks[id] || Update(step, id, s.tasks[id], Apply(s, step).tasks[id])
  {
    var pc := s.At(step.t);
    if pc.ClosingFreed? {
      CloseWriteUpdates(s, pc.id, pc.seen, step.dockerOk, step.now, step.wrote, id);
    }
  }

  lemma CleanUpdates(s: State, step: Step, id: Id)
    requires step.CleanGet? || step.CleanMark? || step.Clean?
    ensures id in Apply(s, step).tasks <==> id in s.tasks
    ensures id in s.tasks ==>
              Apply(s, step).tasks[id] == s.tasks[id] || Update(step, id, s.tasks[id], Apply(s, step).tasks[id])
  {
  }

  lemma SinkUpdates(s: State, step: Step, id: Id)
    requires step.Sink?
    ensures id in Apply(s, step).tasks <==> id in s.tasks
    ensures id in s.tasks ==>
              Apply(s, step).tasks[id] == s.tasks[id] || Update(step, id, s.tasks[id], Apply(s, step).tasks[id])
  {
  }

  lemma FinisherUpdates(s: State, step: Step, id: Id)
    requires step.Finish? || step.CheckedFinish?
    ensures id in Apply(s, step).tasks <==> id in s.tasks
    ensures id in s.tasks ==>
              Apply(s, step).tasks[id] == s.tasks[id] || Update(step, id, s.tasks[id], Apply(s, step).tasks[id])
  {
    var pc := s.At(step.t);
    if pc.Executing? || pc.Marking? {
      WriteUpdates(s, step.t, pc.id, pc.origin, step.outcome, step.now, step.wrote, id);
    }
  }

  lemma WriteUpdates(s: State, t: Thread, i: Id, origin: Origin, o: Outcome, now: int, wrote: bool, id: Id)
    ensures var s' := WriteOutcome(s, t, i, origin, o, now, wrote);
            (id in s'.tasks <==> id in s.tasks)
                && (id !in s.tasks || s'.tasks[id] == s.tasks[id] || s'.tasks[id] == MarkOutcome(s.tasks[id], o, now))
  {
  }

  lemma StartUpdates(s: State, t: Thread, i: Id, o: Origin, now: int, wrote: bool, id: Id)
    ensures var s' := Start(s, t, i, o, now, wrote);
            (id in s'.tasks <==> id in s.tasks)
                && (id !in s.tasks || s'.tasks[id] == s.tasks[id] || s'.tasks[id] == MarkRunning(s.tasks[id], now))
  {
  }

  lemma StartRunUpdates(s: State, step: Step, id: Id)
    requires step.StartRun?
    ensures id in Apply(s, step).tasks <==> id in s.tasks
    ensures id in s.tasks ==>
              Apply(s, step).tasks[id] == s.tasks[id] || Update(step, id, s.tasks[id], Apply(s, step).tasks[id])
  {
    var pc := s.At(step.t);
    if pc.InitChecked? {
      StartUpdates(s, step.t, pc.id, Initial, step.now, step.wrote, id);
    } else if pc.ContChecked? {
      StartUpdates(s, step.t, pc.id, Continuation, step.now, step.wrote, id);
    }
  }

  lemma StarterUpdates(s: State, step: Step, id: Id)
    requires step.InitStart? || step.ContStart?
    ensures id in Apply(s, step).tasks <==> id in s.tasks
    ensures id in s.tasks ==>
              Apply(s, step).tasks[id] == s.tasks[id] || Update(step, id, s.tasks[id], Apply(s, step).tasks[id])
  {
    var pc := s.At(step.t);
    if pc.InitPicked? {
      StartUpdates(s, step.t, pc.id, Initial, step.now, step.wrote, id);
    } else if pc.ContPicked? {
      StartUpdates(s, step.t, pc.id, Continuation, step.now, step.wrote, id);
    }
  }

  lemma ClearingUpdates(s: State, step: Step, id: Id)
    requires step.ClearResults?
    ensures id in Apply(s, step).tasks <==> id in s.tasks
    ensures id in s.tasks ==>
              Apply(s, step).tasks[id] in {s.tasks[id], ClearResult(s.tasks[id]), HalfCleared(s.tasks[id])}
  {
    assert id in s.tasks ==> Apply(s, step).tasks[id] == AfterClearing(s.tasks[id], id, step.reached, step.stuck);
  }

  lemma NoteUpdates(s: State, step: Step, id: Id)
    requires Notes(step)
    ensures id in Apply(s, step).tasks <==> id in s.tasks
    ensures id in s.tasks ==>
              || Apply(s, step).tasks[id] == s.tasks[id]
              || (step.id == id && Apply(s, step).tasks[id] == Noted(s.tasks[id], step))
  {
    assert Apply(s, step).tasks
           == if step.id in s.tasks then s.tasks[step.id := Noted(s.tasks[step.id], step)] else s.tasks;
  }

  /** A start that is written does have its effect, and so has a terminal mark. */
  lemma WritesLand(s: State, t: Thread, o: Outcome, now: int)
    ensures var pc := s.At(t);
            && ((pc.InitChecked? || pc.ContChecked?) && pc.id in s.tasks ==>
                  Apply(s, StartRun(t, now, true)).tasks == s.tasks[pc.id := Beginning(s.tasks[pc.id], now)])
            && (pc.Marking? && pc.id in s.tasks ==>
                  Apply(s, Finish(t, o, now, true)).tasks == s.tasks[pc.id := Conclusion(s.tasks[pc.id], o, now)])
  {
  }

  /** The cleaner removes a kept container exactly if it is gone already, or if the task rests, the container is past
      its time and Docker removes it. */
  lemma CleanerSpares(s: State, id: Id, live: bool, expired: bool, dockerOk: bool, now: int, wrote: bool)
    requires id in s.tasks
    ensures var t := s.tasks[id];
            var due := t.containerKept && t.containerName != ""
                       && (!live || (t.status != Running && expired && dockerOk));
            Apply(s, Clean(id, live, expired, dockerOk, now, wrote))
            == if due && wrote then s.(tasks := s.tasks[id := Removal(t, now)]) else s
  {
  }

  // Whole runs

  /** What a step adds to the log of the task. */
  function Bytes(step: Step, id: Id): nat {
    if step.Log? && step.id == id then step.bytes else 0
  }

  function Logged(steps: seq<Step>, id: Id): nat {
    if steps == [] then 0 else Bytes(steps[0], id) + Logged(steps[1..], id)
  }

  predicate SameIdentity(t: Task, u: Task) {
    && t.id == u.id && t.schemaVersion == u.schemaVersion && t.challenge == u.challenge
    && t.attachmentsDir == u.attachmentsDir && t.createdAt == u.createdAt
  }

  lemma EffectKeepsIdentity(step: Step, id: Id, t: Task, u: Task)
    requires Effect(step, id, t, u)
    ensures SameIdentity(t, u) && u.logSize == t.logSize + Bytes(step, id)
  {
  }

  lemma LogLands(s: State, step: Step, id: Id)
    requires id in s.tasks && step.Log?
    ensures id in Apply(s, step).tasks && Apply(s, step).tasks[id].logSize == s.tasks[id].logSize + Bytes(step, id)
  {
  }

  /** In every run a task keeps what it was submitted with, and its log grows by exactly what is logged. */
  lemma {:induction false} IdentityIsKept(s: State, steps: seq<Step>, id: Id)
    requires id in s.tasks
    ensures id in Run(s, steps).tasks && SameIdentity(s.tasks[id], Run(s, steps).tasks[id])
    ensures Run(s, steps).tasks[id].logSize == s.tasks[id].logSize + Logged(steps, id)
    decreases |steps|
  {
    if steps != [] {
      var next := Apply(s, steps[0]);
      StepHasItsEffect(s, steps[0], id);
      if steps[0].Log? {
        LogLands(s, steps[0], id);
      }
      if next.tasks[id] != s.tasks[id] {
        EffectKeepsIdentity(steps[0], id, s.tasks[id], next.tasks[id]);
      }
      IdentityIsKept(next, steps[1..], id);
    }
  }

  ghost predicate NamesSession(step: Step, id: Id, session: string) {
    step.Session? && step.id == id && Text.TrimSpace(step.session) == session
  }

  ghost predicate NamesWriteup(step: Step, id: Id, filename: string) {
    step.SaveWriteup? && step.id == id && step.filename == filename && SafeStoredFilename(filename)
  }

  ghost predicate BringsFlag(step: Step, flag: Option<string>) {
    (step.Finish? || step.CheckedFinish?) && step.outcome.Solving? && flag == Some(step.outcome.flag)
  }

  ghost predicate NamesContainer(step: Step, name: string) {
    || (step.Sink? && step.name == name)
    || ((step.Finish? || step.CheckedFinish?) && !step.outcome.Failing? && step.outcome.name == name)
  }

  /** Each field of `u` that says what a run found is as in `t`, or empty, or some step brought it. */
  ghost predicate Brought(t: Task, steps: seq<Step>, id: Id, u: Task) {
    && (u.session == t.session || u.session == "" || exists step | step in steps :: NamesSession(step, id, u.session))
    && (u.writeup == t.writeup || u.writeup == "" || exists step | step in steps :: NamesWriteup(step, id, u.writeup))
    && (u.flag == t.flag || u.flag == None || exists step | step in steps :: BringsFlag(step, u.flag))
    && (u.containerName == t.containerName || u.containerName == ""
        || exists step | step in steps :: NamesContainer(step, u.containerName))
  }

  lemma EffectBrings(step: Step, id: Id, t: Task, u: Task)
    requires Effect(step, id, t, u)
    ensures u.session == t.session || u.session == "" || NamesSession(step, id, u.session)
    ensures u.writeup == t.writeup || u.writeup == "" || NamesWriteup(step, id, u.writeup)
    ensures u.flag == t.flag || u.flag == None || BringsFlag(step, u.flag)
    ensures u.containerName == t.containerName || u.containerName == "" || NamesContainer(step, u.containerName)
  {
  }

  /** In every run: a session, a writeup, a flag or a container that the task did not have at first is one that some
      step of the run brought. */
  lemma {:induction false} NothingFromNowhere(s: State, steps: seq<Step>, n: nat, id: Id)
    requires id in s.tasks && n <= |steps|
    ensures id in Run(s, steps[..n]).tasks && Brought(s.tasks[id], steps[..n], id, Run(s, steps[..n]).tasks[id])
  {
    if n > 0 {
      NothingFromNowhere(s, steps, n - 1, id);
      RunNext(s, steps, n);
      var before, step := Run(s, steps[..n - 1]), steps[n - 1];
      StepHasItsEffect(before, step, id);
      BroughtOn(s.tasks[id], steps[..n - 1], step, id, before.tasks[id], Apply(before, step).tasks[id]);
      assert steps[..n] == steps[..n - 1] + [step];
    }
  }

  lemma BroughtOn(t: Task, steps: seq<Step>, step: Step, id: Id, u: Task, w: Task)
    requires Brought(t, steps, id, u) && (w == u || Effect(step, id, u, w))
    ensures Brought(t, steps + [step], id, w)
  {
    assert step in steps + [step] && forall x | x in steps :: x in steps + [step];
    if w != u {
      EffectBrings(step, id, u, w);
    }
  }

  /** What the fields report about the status: a message exactly for a failed task, times and an exit code where there
      must be some. */
  predicate Reported(t: Task) {
    && (t.status == Failed <==> t.error.Some?)
    && (t.status in {Completed, Solved, Failed} ==> t.finishedAt.Some?)
    && (t.status == Running ==> t.startedAt.Some?)
    && (t.status in {Completed, Solved} ==> t.exitCode.Some?)
  }

  ghost predicate AllReported(s: State) {
    forall id | id in s.tasks :: Reported(s.tasks[id])
  }

  lemma EffectReports(step: Step, id: Id, t: Task, u: Task)
    requires Effect(step, id, t, u) && Reported(t)
    ensures Reported(u)
  {
  }

  lemma StepAdds(s: State, step: Step, id: Id)
    requires id !in s.tasks && id in Apply(s, step).tasks
    ensures step.SubmitAdd? && Apply(s, step).tasks[id] == step.task && step.task.status == Queued
  {
    if step.SubmitAdd? {
      SubmitAdds(s, step, id);
    } else {
      StepUpdates(s, step, id);
    }
  }

  /** So it is in every run that starts so, as long as tasks are submitted without an error. */
  lemma {:induction false} ReportsAreComplete(s: State, steps: seq<Step>)
    requires AllReported(s) && forall step | step in steps && step.SubmitAdd? :: step.task.error == None
    ensures AllReported(Run(s, steps))
    decreases |steps|
  {
    if steps != [] {
      var next := Apply(s, steps[0]);
      forall id | id in next.tasks
        ensures Reported(next.tasks[id])
      {
        if id in s.tasks {
          StepHasItsEffect(s, steps[0], id);
          if next.tasks[id] != s.tasks[id] {
            EffectReports(steps[0], id, s.tasks[id], next.tasks[id]);
          }
        } else {
          StepAdds(s, steps[0], id);
        }
      }
      assert forall step | step in steps[1..] :: step in steps;
      ReportsAreComplete(next, steps[1..]);
    }
  }
}
