/** What a stop is good for when every lock section is a step of its own: a stopped task stays as it is exactly when no
    thread is past a check on it whose write is still to come. */
module LockFinality {
  import opened Options
  import opened Tasks
  import opened Dispatcher
  import opened FullQueue

  /** A task that was stopped. */
  ghost predicate Rests(s: State, id: Id) {
    id in s.tasks && Stopped(s.tasks[id])
  }

  ghost predicate Unmoved(s: State, r: State, id: Id)
    requires id in s.tasks
  {
    id in r.tasks && SameOutcome(s.tasks[id], r.tasks[id])
  }

  /** Marking the container closed would still change the task. */
  predicate CloseMoves(task: Task) {
    task.lastStep != CONTAINER_CLOSED_MESSAGE || task.containerKept
  }

  /** What CloseTaskContainer writes after it read `seen` would still change the task. */
  predicate StopMoves(seen: Task, task: Task) {
    if seen.status == Queued then task.lastStep != TASK_STOPPED_MESSAGE || task.containerKept
    else Closable(seen) && CloseMoves(task)
  }

  /** The thread's next step may move the stopped task. */
  predicate Threatens(pc: Pc, id: Id, task: Task) {
    !pc.Idle? && pc.id == id &&
    match pc
    case SubmitFull(_) => true
    case InitChecked(_) => true
    case ContChecked(_, _) => true
    case Executing(_, o, sunk) => o == Initial && !sunk
    case Marking(_, _) => true
    case ClosingFreed(_, seen) => StopMoves(seen, task)
    case CleanSeen(_, seen) => seen.containerName != "" && seen.containerKept && CloseMoves(task)
    case _ => false
  }

  ghost predicate Threatened(s: State, id: Id)
    requires id in s.tasks
  {
    exists t :: Threatens(s.At(t), id, s.tasks[id])
  }

  // ---- one step ----

  lemma SubmittersLeave(s: State, step: Step, id: Id)
    requires (step.SubmitAdd? || step.SubmitRollback?) && s.At(step.t) != SubmitFull(id)
    requires Rests(s, id)
    ensures Unmoved(s, Apply(s, step), id)
  {
  }

  lemma StartRunLeaves(s: State, step: Step, id: Id)
    requires step.StartRun? && Rests(s, id) && !Threatens(s.At(step.t), id, s.tasks[id])
    ensures Unmoved(s, Apply(s, step), id)
  {
    var pc := s.At(step.t);
    if pc.InitChecked? {
      StartsElsewhere(s, step.t, pc.id, Initial, step.now, step.wrote, id);
    } else if pc.ContChecked? {
      StartsElsewhere(s, step.t, pc.id, Continuation, step.now, step.wrote, id);
    }
  }

  lemma InitStartLeaves(s: State, step: Step, id: Id)
    requires step.InitStart? && Rests(s, id)
    ensures Unmoved(s, Apply(s, step), id)
  {
    var pc := s.At(step.t);
    if pc.InitPicked? && pc.id != id {
      StartsElsewhere(s, step.t, pc.id, Initial, step.now, step.wrote, id);
    }
  }

  lemma ContStartLeaves(s: State, step: Step, id: Id)
    requires step.ContStart? && Rests(s, id)
    ensures Unmoved(s, Apply(s, step), id)
  {
    var pc := s.At(step.t);
    if pc.ContPicked? && pc.id != id {
      StartsElsewhere(s, step.t, pc.id, Continuation, step.now, step.wrote, id);
    }
  }

  lemma StartsElsewhere(s: State, t: Thread, i: Id, o: Origin, now: int, wrote: bool, id: Id)
    requires id in s.tasks && i != id
    ensures id in Start(s, t, i, o, now, wrote).tasks && Start(s, t, i, o, now, wrote).tasks[id] == s.tasks[id]
  {
  }

  lemma FinishLeaves(s: State, step: Step, id: Id)
    requires step.Finish? && Rests(s, id) && !Threatens(s.At(step.t), id, s.tasks[id])
    ensures Unmoved(s, Apply(s, step), id)
  {
  }

  lemma CheckedFinishLeaves(s: State, step: Step, id: Id)
    requires step.CheckedFinish? && Rests(s, id)
    ensures Unmoved(s, Apply(s, step), id)
  {
  }

  lemma SinkLeaves(s: State, step: Step, id: Id)
    requires step.Sink? && Rests(s, id) && !Threatens(s.At(step.t), id, s.tasks[id])
    ensures Unmoved(s, Apply(s, step), id)
  {
  }

  lemma CloseLeaves(s: State, i: Id, seen: Task, dockerOk: bool, now: int, wrote: bool, id: Id)
    requires Rests(s, id) && (i == id ==> !StopMoves(seen, s.tasks[id]))
    ensures Unmoved(s, CloseWrite(s, i, seen, dockerOk, now, wrote), id)
  {
  }

  lemma CleanLeaves(s: State, i: Id, seen: Task, step: Step, id: Id)
    requires Rests(s, id) && (step.Clean? || step.CleanMark?)
    requires i == id ==> !(seen.containerName != "" && seen.containerKept && CloseMoves(s.tasks[id]))
    ensures Unmoved(s, CleanWrite(s, i, seen, step.live, step.expired, step.dockerOk, step.now, step.wrote), id)
  {
  }

  lemma ClosersLeave(s: State, step: Step, id: Id)
    requires Rests(s, id) && (step.CloseMark? || step.CleanMark?) && !Threatens(s.At(step.t), id, s.tasks[id])
    ensures Unmoved(s, Apply(s, step), id)
  {
    var pc := s.At(step.t);
    if step.CloseMark? && pc.ClosingFreed? {
      CloseLeaves(s, pc.id, pc.seen, step.dockerOk, step.now, step.wrote, id);
    } else if step.CleanMark? && pc.CleanSeen? {
      CleanLeaves(s, pc.id, pc.seen, step, id);
    }
  }

  lemma ShutLeaves(s: State, step: Step, id: Id)
    requires Rests(s, id) && (step.Close? || step.Clean?)
    ensures Unmoved(s, Apply(s, step), id)
  {
    if step.id in s.tasks {
      if step.Close? {
        CloseLeaves(s.Freed(step.id), step.id, s.tasks[step.id], step.dockerOk, step.now, step.wrote, id);
      } else {
        CleanLeaves(s, step.id, s.tasks[step.id], step, id);
      }
    }
  }

  lemma NotesLeave(s: State, step: Step, id: Id)
    requires Rests(s, id) && Notes(step)
    ensures Unmoved(s, Apply(s, step), id)
  {
  }

  lemma ClearingLeaves(s: State, step: Step, id: Id)
    requires Rests(s, id) && step.ClearResults? && s.tasks[id].flag.None?
    ensures Unmoved(s, Apply(s, step), id)
  {
  }

  /** A step that needs no check, or takes one together with its write. */
  lemma CheckedStepLeaves(s: State, step: Step, id: Id)
    requires Rests(s, id) && s.tasks[id].flag.None?
    requires step.InitStart? || step.ContStart? || step.CheckedFinish? || step.Close? || step.Clean? || Notes(step)
             || step.ClearResults?
    ensures Unmoved(s, Apply(s, step), id)
  {
    if step.InitStart? {
      InitStartLeaves(s, step, id);
    } else if step.ContStart? {
      ContStartLeaves(s, step, id);
    } else if step.CheckedFinish? {
      CheckedFinishLeaves(s, step, id);
    } else if step.Close? || step.Clean? {
      ShutLeaves(s, step, id);
    } else if Notes(step) {
      NotesLeave(s, step, id);
    } else {
      ClearingLeaves(s, step, id);
    }
  }

  /** A step of a thread that does not threaten the task, or of none. */
  lemma StepLeaves(s: State, step: Step, id: Id)
    requires Rests(s, id) && !Threatened(s, id) && s.tasks[id].flag.None?
    ensures Unmoved(s, Apply(s, step), id)
  {
    if step.SubmitAdd? || step.SubmitRollback? {
      SubmittersLeave(s, step, id);
    } else if step.StartRun? {
      StartRunLeaves(s, step, id);
    } else if step.Finish? {
      FinishLeaves(s, step, id);
    } else if step.Sink? {
      SinkLeaves(s, step, id);
    } else if step.CloseMark? || step.CleanMark? {
      ClosersLeave(s, step, id);
    } else if Writes(step) {
      CheckedStepLeaves(s, step, id);
    } else {
      OthersDoNotWrite(s, step);
    }
  }

  /** The step with which a thread carries out its threat. */
  function Blow(t: Thread, pc: Pc): Step {
    match pc
    case SubmitFull(_) => SubmitRollback(t, 0, true)
    case Executing(_, _, _) => Sink(t, "container", true)
    case Marking(_, _) => Finish(t, Completing(0, "", "", false), 0, true)
    case ClosingFreed(_, _) => CloseMark(t, true, 0, true)
    case CleanSeen(_, _) => CleanMark(t, false, false, false, 0, true)
    case _ => StartRun(t, 0, true)
  }

  lemma WorkersMove(s: State, t: Thread, id: Id)
    requires Rests(s, id) && Threatens(s.At(t), id, s.tasks[id]) && !s.At(t).ClosingFreed? && !s.At(t).CleanSeen?
    ensures !Unmoved(s, Apply(s, Blow(t, s.At(t))), id)
  {
    var pc, task := s.At(t), s.tasks[id];
    var r := Apply(s, Blow(t, pc));
    match pc
    case SubmitFull(_) =>
      MessagesDiffer();
      assert r == s.Put(id, MarkFailed(task, 0, TASK_QUEUE_FULL_MESSAGE)).Go(t, Idle);
    case InitChecked(_) =>
      assert r == s.Put(id, MarkRunning(task, 0)).Go(t, Executing(id, Initial, false));
    case ContChecked(_, _) =>
      assert r == s.Put(id, MarkRunning(task, 0)).Go(t, Executing(id, Continuation, false));
    case Executing(_, _, _) =>
      assert r == s.Put(id, MarkRuntimeContainer(task, "container")).Go(t, Executing(id, Initial, true));
    case Marking(_, o) =>
      assert r == AfterRun(s.Put(id, MarkCompleted(task, 0, 0, "", "", false)), t, id, o);
  }

  lemma ClosersMove(s: State, t: Thread, id: Id)
    requires Rests(s, id) && Threatens(s.At(t), id, s.tasks[id]) && (s.At(t).ClosingFreed? || s.At(t).CleanSeen?)
    ensures !Unmoved(s, Apply(s, Blow(t, s.At(t))), id)
  {
    var pc, task := s.At(t), s.tasks[id];
    var r := Apply(s, Blow(t, pc));
    MessagesDiffer();
    if pc.CleanSeen? || pc.seen.status != Queued {
      assert r == s.Put(id, MarkContainerClosed(task, 0)).Go(t, Idle);
    } else {
      assert r == s.Put(id, MarkStopped(task, 0, TASK_STOPPED_MESSAGE)).Go(t, Idle);
    }
  }

  lemma ThreatMoves(s: State, t: Thread, id: Id)
    requires Rests(s, id) && Threatens(s.At(t), id, s.tasks[id])
    ensures !Unmoved(s, Apply(s, Blow(t, s.At(t))), id)
  {
    if s.At(t).ClosingFreed? || s.At(t).CleanSeen? {
      ClosersMove(s, t, id);
    } else {
      WorkersMove(s, t, id);
    }
  }

  /** Clearing takes the flag of a task that was stopped with one. */
  lemma ClearingMoves(s: State, id: Id)
    requires Rests(s, id) && s.tasks[id].flag.Some?
    ensures !Unmoved(s, Apply(s, ClearResults({id}, None)), id)
  {
    assert Apply(s, ClearResults({id}, None)).tasks[id] == ClearResult(s.tasks[id]);
  }

  /** No step of any kind moves a stopped task's status, flag, container, kept bit or last step, exactly when no thread
      is past a check on it, and it has no flag. */
  lemma StopHoldsAtLocks(s: State, id: Id)
    requires Rests(s, id)
    ensures (forall step :: Unmoved(s, Apply(s, step), id)) <==> !Threatened(s, id) && s.tasks[id].flag.None?
  {
    if t :| Threatens(s.At(t), id, s.tasks[id]) {
      ThreatMoves(s, t, id);
    } else if s.tasks[id].flag.Some? {
      ClearingMoves(s, id);
    } else {
      forall step ensures Unmoved(s, Apply(s, step), id) {
        StepLeaves(s, step, id);
      }
    }
  }

  // ---- whole runs ----

  /** The thread may come to threaten the task. */
  predicate Endangers(pc: Pc, id: Id, task: Task) {
    || Threatens(pc, id, task)
    || (pc.Submitting? && pc.id == id)
    || (pc.Closing? && pc.id == id && StopMoves(pc.seen, task))
  }

  ghost predicate Endangered(s: State, id: Id)
    requires id in s.tasks
  {
    exists t :: Endangers(s.At(t), id, s.tasks[id])
  }

  /** A step that a thread makes. */
  predicate Moves(step: Step) {
    ByCaller(step) || ByWorker(step) || (ByCloser(step) && !step.Close? && !step.Clean?)
  }

  /** What a thread that does not endanger a stopped task goes on to. */
  ghost predicate StaysSafe(s: State, step: Step, id: Id)
    requires id in s.tasks && Moves(step)
  {
    var r := Apply(s, step);
    r.threads == s.threads
        || (r.threads == s.threads[step.t := r.At(step.t)] && !Endangers(r.At(step.t), id, s.tasks[id]))
  }

  lemma CallersStaySafe(s: State, step: Step, id: Id)
    requires Rests(s, id) && ByCaller(step) && !Endangers(s.At(step.t), id, s.tasks[id])
    ensures StaysSafe(s, step, id)
  {
  }

  lemma FetchersStaySafe(s: State, step: Step, id: Id)
    requires step.Dequeue? || step.Take? || step.Release?
    requires Rests(s, id) && !Endangers(s.At(step.t), id, s.tasks[id])
    ensures StaysSafe(s, step, id)
  {
  }

  lemma CheckersStaySafe(s: State, step: Step, id: Id)
    requires step.InitCheck? || step.ContCheck?
    requires Rests(s, id) && !Endangers(s.At(step.t), id, s.tasks[id])
    ensures StaysSafe(s, step, id)
  {
  }

  lemma StopCheckStaysSafe(s: State, step: Step, id: Id)
    requires step.StopCheck?
    requires Rests(s, id) && !Endangers(s.At(step.t), id, s.tasks[id])
    ensures StaysSafe(s, step, id)
  {
  }

  lemma StartRunStaysSafe(s: State, step: Step, id: Id)
    requires step.StartRun?
    requires Rests(s, id) && !Endangers(s.At(step.t), id, s.tasks[id])
    ensures StaysSafe(s, step, id)
  {
  }

  lemma InitStartStaysSafe(s: State, step: Step, id: Id)
    requires step.InitStart?
    requires Rests(s, id) && !Endangers(s.At(step.t), id, s.tasks[id])
    ensures StaysSafe(s, step, id)
  {
  }

  lemma ContStartStaysSafe(s: State, step: Step, id: Id)
    requires step.ContStart?
    requires Rests(s, id) && !Endangers(s.At(step.t), id, s.tasks[id])
    ensures StaysSafe(s, step, id)
  {
  }

  lemma SinkStaysSafe(s: State, step: Step, id: Id)
    requires step.Sink?
    requires Rests(s, id) && !Endangers(s.At(step.t), id, s.tasks[id])
    ensures StaysSafe(s, step, id)
  {
  }

  lemma FinishStaysSafe(s: State, step: Step, id: Id)
    requires step.Finish?
    requires Rests(s, id) && !Endangers(s.At(step.t), id, s.tasks[id])
    ensures StaysSafe(s, step, id)
  {
  }

  lemma CheckedFinishStaysSafe(s: State, step: Step, id: Id)
    requires step.CheckedFinish?
    requires Rests(s, id) && !Endangers(s.At(step.t), id, s.tasks[id])
    ensures StaysSafe(s, step, id)
  {
  }

  lemma ClosersStaySafe(s: State, step: Step, id: Id)
    requires step.CloseGet? || step.CloseFree? || step.CloseMark?
    requires Rests(s, id) && !Endangers(s.At(step.t), id, s.tasks[id])
    ensures StaysSafe(s, step, id)
  {
  }

  lemma CleanersStaySafe(s: State, step: Step, id: Id)
    requires step.CleanGet? || step.CleanMark?
    requires Rests(s, id) && !Endangers(s.At(step.t), id, s.tasks[id])
    ensures StaysSafe(s, step, id)
  {
  }

  lemma OthersKeepThreads(s: State, step: Step)
    requires step.Close? || step.Clean? || Notes(step) || step.ClearResults?
    ensures Apply(s, step).threads == s.threads
  {
  }

  lemma WorkersStaySafe(s: State, step: Step, id: Id)
    requires ByWorker(step)
    requires Rests(s, id) && !Endangers(s.At(step.t), id, s.tasks[id])
    ensures StaysSafe(s, step, id)
  {
    if step.StartRun? {
      StartRunStaysSafe(s, step, id);
    } else if step.InitStart? {
      InitStartStaysSafe(s, step, id);
    } else if step.ContStart? {
      ContStartStaysSafe(s, step, id);
    } else if step.Sink? {
      SinkStaysSafe(s, step, id);
    } else if step.Finish? {
      FinishStaysSafe(s, step, id);
    } else if step.CheckedFinish? {
      CheckedFinishStaysSafe(s, step, id);
    } else if step.InitCheck? || step.ContCheck? {
      CheckersStaySafe(s, step, id);
    } else if step.StopCheck? {
      StopCheckStaysSafe(s, step, id);
    } else {
      FetchersStaySafe(s, step, id);
    }
  }

  /** A task that is unmoved is stopped as before, and endangered by the same threads. */
  lemma SameDangers(pc: Pc, id: Id, task: Task, now: Task)
    requires SameOutcome(task, now)
    ensures Endangers(pc, id, now) <==> Endangers(pc, id, task)
    ensures Stopped(task) ==> Stopped(now)
  {
  }

  lemma MoverStaysSafe(s: State, step: Step, id: Id)
    requires Rests(s, id) && !Endangered(s, id) && Moves(step)
    ensures StaysSafe(s, step, id)
  {
    assert !Endangers(s.At(step.t), id, s.tasks[id]);
    if ByCaller(step) {
      CallersStaySafe(s, step, id);
    } else if ByWorker(step) {
      WorkersStaySafe(s, step, id);
    } else if step.CleanGet? || step.CleanMark? {
      CleanersStaySafe(s, step, id);
    } else {
      ClosersStaySafe(s, step, id);
    }
  }

  ghost predicate Safe(threads: map<Thread, Pc>, id: Id, task: Task) {
    forall u :: !Endangers(PcAt(threads, u), id, task)
  }

  lemma SafeThreads(threads: map<Thread, Pc>, t: Thread, pc: Pc, id: Id, task: Task)
    requires Safe(threads, id, task) && !Endangers(pc, id, task)
    ensures Safe(threads[t := pc], id, task)
  {
    var after := threads[t := pc];
    forall u ensures !Endangers(PcAt(after, u), id, task) {
      assert !Endangers(PcAt(threads, u), id, task);
    }
  }

  lemma SafeIsUnendangered(s: State, id: Id)
    requires id in s.tasks
    ensures Safe(s.threads, id, s.tasks[id]) <==> !Endangered(s, id)
  {
    if !Endangered(s, id) {
      forall u ensures !Endangers(PcAt(s.threads, u), id, s.tasks[id]) {
        assert !Endangers(s.At(u), id, s.tasks[id]);
      }
    }
  }

  lemma ThreadsStaySafe(s: State, step: Step, id: Id)
    requires Rests(s, id) && !Endangered(s, id)
    ensures Safe(Apply(s, step).threads, id, s.tasks[id])
  {
    SafeIsUnendangered(s, id);
    if Moves(step) {
      MoverStaysSafe(s, step, id);
      SafeThreads(s.threads, step.t, Apply(s, step).At(step.t), id, s.tasks[id]);
    } else {
      OthersKeepThreads(s, step);
    }
  }

  lemma SafeStays(threads: map<Thread, Pc>, id: Id, task: Task, now: Task)
    requires Safe(threads, id, task) && SameOutcome(task, now)
    ensures Safe(threads, id, now)
  {
    forall u ensures !Endangers(PcAt(threads, u), id, now) {
      assert !Endangers(PcAt(threads, u), id, task);
      SameDangers(PcAt(threads, u), id, task, now);
    }
  }

  lemma StepStaysSafe(s: State, step: Step, id: Id)
    requires Rests(s, id) && !Endangered(s, id) && s.tasks[id].flag.None?
    ensures Unmoved(s, Apply(s, step), id) && Rests(Apply(s, step), id) && !Endangered(Apply(s, step), id)
  {
    assert !Threatened(s, id);
    StepLeaves(s, step, id);
    ThreadsStaySafe(s, step, id);
    var r := Apply(s, step);
    SafeStays(r.threads, id, s.tasks[id], r.tasks[id]);
    SafeIsUnendangered(r, id);
    SameDangers(Idle, id, s.tasks[id], r.tasks[id]);
  }

  lemma {:induction false} RunStaysSafe(s: State, steps: seq<Step>, id: Id)
    requires Rests(s, id) && !Endangered(s, id) && s.tasks[id].flag.None?
    ensures Unmoved(s, Run(s, steps), id)
    decreases |steps|
  {
    if steps != [] {
      StepStaysSafe(s, steps[0], id);
      RunStaysSafe(Apply(s, steps[0]), steps[1..], id);
    }
  }

  lemma CloserMoves(s: State, t: Thread, id: Id)
    requires Rests(s, id) && s.At(t).Closing? && s.At(t).id == id && StopMoves(s.At(t).seen, s.tasks[id])
    ensures !Unmoved(s, Run(s, [CloseFree(t), CloseMark(t, true, 0, true)]), id)
  {
    var s1 := Apply(s, CloseFree(t));
    assert s1 == s.Freed(id).Go(t, ClosingFreed(id, s.At(t).seen));
    ClosersMove(s1, t, id);
    RunTwo(s, CloseFree(t), CloseMark(t, true, 0, true));
  }

  lemma DangerMoves(s: State, t: Thread, id: Id) returns (steps: seq<Step>)
    requires Rests(s, id) && Endangers(s.At(t), id, s.tasks[id])
    ensures !Unmoved(s, Run(s, steps), id)
  {
    if s.At(t).Submitting? {
      steps := CanFail(s, t, id);
      MessagesDiffer();
    } else if s.At(t).Closing? {
      steps := [CloseFree(t), CloseMark(t, true, 0, true)];
      CloserMoves(s, t, id);
    } else {
      steps := [Blow(t, s.At(t))];
      RunOne(s, steps[0]);
      ThreatMoves(s, t, id);
    }
  }

  /** Whatever state it was stopped in, and whatever steps follow, a task stays as it was stopped exactly when it has no
      flag, and no thread is past a check on it, on its way to one with a write that would change it, or about to
      enqueue its submission. */
  lemma StopIsFinalAtLocks(s: State, id: Id)
    requires Rests(s, id)
    ensures (forall steps :: Unmoved(s, Run(s, steps), id)) <==> !Endangered(s, id) && s.tasks[id].flag.None?
  {
    if t :| Endangers(s.At(t), id, s.tasks[id]) {
      var steps := DangerMoves(s, t, id);
      assert !Unmoved(s, Run(s, steps), id);
    } else if s.tasks[id].flag.Some? {
      ClearingMoves(s, id);
      RunOne(s, ClearResults({id}, None));
      assert !Unmoved(s, Run(s, [ClearResults({id}, None)]), id);
    } else {
      forall steps ensures Unmoved(s, Run(s, steps), id) {
        RunStaysSafe(s, steps, id);
      }
    }
  }
}
