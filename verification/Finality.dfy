/** What a stop is good for. In runs in which every check is taken together with the mark it guards, flags match
    statuses in every reachable task and a stopped task stays as it is; and at every granularity no task is queued
    twice. */
module Finality {
  import opened Options
  import opened Tasks
  import opened Dispatcher
  import opened DispatcherFlags
  import opened DispatcherStops
  import opened FullQueue
  import L = LockFinality

  // ---- runs in which every check is taken together with the mark it guards ----

  predicate AtomicStep(step: Step) {
    !(step.StartRun? || step.InitCheck? || step.ContCheck? || step.StopCheck? || step.Finish?
      || step.CloseGet? || step.CloseFree? || step.CloseMark? || step.CleanGet? || step.CleanMark?)
  }

  predicate Atomic(steps: seq<Step>) {
    forall i | 0 <= i < |steps| :: AtomicStep(steps[i])
  }

  /** An initial run whose container has not been reported yet. */
  predicate Unreported(pc: Pc, id: Id) {
    pc == Executing(id, Initial, false)
  }

  predicate Bare(task: Task) {
    task.status == Running && task.containerName == "" && !task.containerKept
  }

  ghost predicate Fit(threads: map<Thread, Pc>, tasks: map<Id, Task>) {
    && (forall id | id in tasks :: Consistent(tasks[id]))
    && (forall t, id | Executes(PcAt(threads, t), id) && id in tasks :: tasks[id].flag.None?)
    && (forall t, id | Unreported(PcAt(threads, t), id) && id in tasks :: Bare(tasks[id]))
  }

  ghost predicate Tidy(s: State) {
    Inv(s) && Fit(s.threads, s.tasks)
  }

  lemma FitMoves(threads: map<Thread, Pc>, tasks: map<Id, Task>, t: Thread, pc: Pc)
    requires Fit(threads, tasks)
    requires forall id | Executes(pc, id) && id in tasks :: tasks[id].flag.None?
    requires forall id | Unreported(pc, id) && id in tasks :: Bare(tasks[id])
    ensures Fit(threads[t := pc], tasks)
  {
    Moved(threads, threads[t := pc], t, pc);
  }

  lemma FitChanges(threads: map<Thread, Pc>, tasks: map<Id, Task>, id: Id, task: Task)
    requires Fit(threads, tasks) && Consistent(task)
    requires forall t | Executes(PcAt(threads, t), id) :: task.flag.None?
    requires forall t | Unreported(PcAt(threads, t), id) :: Bare(task)
    ensures Fit(threads, tasks[id := task])
  {
  }

  lemma FitSubmit(s: State, step: Step)
    requires Tidy(s) && (step.SubmitAdd? || step.SubmitRollback?)
    ensures Fit(Apply(s, step).threads, Apply(s, step).tasks)
  {
    var t := step.t;
    var pc := s.At(t);
    if step.SubmitAdd? {
      if pc.Idle? && step.id !in s.tasks && step.task.status == Queued && Coupled(step.task) {
        assert forall u :: !Executes(s.At(u), step.id) && !Unreported(s.At(u), step.id);
        FitChanges(s.threads, s.tasks, step.id, step.task);
        FitMoves(s.threads, s.tasks[step.id := step.task], t, Submitting(step.id));
      }
    } else if pc.SubmitFull? {
      var task := MarkFailed(s.tasks[pc.id], step.now, TASK_QUEUE_FULL_MESSAGE);
      assert forall u :: !Executes(s.At(u), pc.id) && !Unreported(s.At(u), pc.id) by {
        assert forall u | Executes(s.At(u), pc.id) :: Engaged(s.At(u), pc.id);
      }
      assert Submits(pc, pc.id) && Consistent(s.tasks[pc.id]);
      FitChanges(s.threads, s.tasks, pc.id, task);
      FitMoves(s.threads, s.tasks, t, Idle);
      FitMoves(s.threads, s.tasks[pc.id := task], t, Idle);
    }
  }

  lemma FitStart(s: State, t: Thread, id: Id, o: Origin, now: int, wrote: bool)
    requires Tidy(s) && id in s.tasks && Engaged(s.At(t), id) && !Submits(s.At(t), id) && !Underway(s.tasks[id])
    requires s.tasks[id].flag.None? && (o == Initial ==> s.tasks[id].status == Queued)
    ensures var s' := Start(s, t, id, o, now, wrote); Fit(s'.threads, s'.tasks)
  {
    if wrote {
      var task := MarkRunning(s.tasks[id], now);
      assert forall u :: !Executes(s.At(u), id) && (Unreported(s.At(u), id) ==> Executes(s.At(u), id));
      assert Consistent(s.tasks[id]);
      FitChanges(s.threads, s.tasks, id, task);
      FitMoves(s.threads, s.tasks[id := task], t, Executing(id, o, false));
    } else {
      FitMoves(s.threads, s.tasks, t, if o == Continuation then Releasing(id) else Idle);
    }
  }

  lemma FitInitStart(s: State, step: Step)
    requires Tidy(s) && step.InitStart?
    ensures Fit(Apply(s, step).threads, Apply(s, step).tasks)
  {
    var t := step.t;
    var pc := s.At(t);
    if pc.InitPicked? {
      assert Consistent(s.tasks[pc.id]);
      if s.tasks[pc.id].status == Queued {
        FitStart(s, t, pc.id, Initial, step.now, step.wrote);
      } else {
        FitMoves(s.threads, s.tasks, t, Idle);
      }
    }
  }

  lemma FitContStart(s: State, step: Step)
    requires Tidy(s) && step.ContStart?
    ensures Fit(Apply(s, step).threads, Apply(s, step).tasks)
  {
    var t := step.t;
    var pc := s.At(t);
    if pc.ContPicked? {
      assert Consistent(s.tasks[pc.id]);
      if Continuable(s.tasks[pc.id]) {
        FitStart(s, t, pc.id, Continuation, step.now, step.wrote);
      } else {
        FitMoves(s.threads, s.tasks, t, Releasing(pc.id));
      }
    }
  }

  lemma FitSink(s: State, step: Step)
    requires Tidy(s) && step.Sink?
    ensures Fit(Apply(s, step).threads, Apply(s, step).tasks)
  {
    var t := step.t;
    var pc := s.At(t);
    if pc.Executing? && pc.origin == Initial && !pc.sunk {
      var to := Executing(pc.id, Initial, true);
      var task := MarkRuntimeContainer(s.tasks[pc.id], step.name);
      assert Executes(pc, pc.id) && Unreported(pc, pc.id) && Consistent(s.tasks[pc.id]);
      Sole(s, t, pc.id);
      FitMoves(s.threads, s.tasks, t, to);
      Moved(s.threads, s.threads[t := to], t, to);
      assert forall u | Unreported(s.At(u), pc.id) :: Executes(s.At(u), pc.id);
      FitChanges(s.threads[t := to], s.tasks, pc.id, task);
    }
  }

  lemma FitFinish(s: State, step: Step)
    requires Tidy(s) && step.CheckedFinish?
    ensures Fit(Apply(s, step).threads, Apply(s, step).tasks)
  {
    var pc := s.At(step.t);
    if pc.Executing? {
      assert Executes(pc, pc.id);
      FitDone(s, step.t, pc.id, pc.origin, step.outcome, step.now);
    }
  }

  lemma FitDone(s: State, t: Thread, id: Id, o: Origin, x: Outcome, now: int)
    requires Tidy(s) && Executes(s.At(t), id) && id in s.tasks
    ensures var to := if o == Continuation then Releasing(id) else Idle;
            && Fit(s.threads[t := to], s.tasks)
            && Fit(s.threads[t := to], s.tasks[id := MarkOutcome(s.tasks[id], x, now)])
  {
    var to := if o == Continuation then Releasing(id) else Idle;
    Sole(s, t, id);
    FitMoves(s.threads, s.tasks, t, to);
    Moved(s.threads, s.threads[t := to], t, to);
    assert forall u | Unreported(s.At(u), id) :: Executes(s.At(u), id);
    OutcomeConsistent(s.tasks[id], x, now);
    FitChanges(s.threads[t := to], s.tasks, id, MarkOutcome(s.tasks[id], x, now));
  }

  lemma OutcomeConsistent(task: Task, x: Outcome, now: int)
    requires task.flag.None?
    ensures Consistent(MarkOutcome(task, x, now))
  {
  }

  /** A task that can be closed has no worker whose container is still to be reported. */
  lemma FitClosed(s: State, id: Id, now: int)
    requires Tidy(s) && id in s.tasks && Closable(s.tasks[id])
    ensures Fit(s.threads, s.tasks[id := MarkContainerClosed(s.tasks[id], now)])
  {
    assert Consistent(s.tasks[id]);
    assert forall t :: !Unreported(s.At(t), id);
    FitChanges(s.threads, s.tasks, id, MarkContainerClosed(s.tasks[id], now));
  }

  lemma FitStopped(s: State, id: Id, now: int)
    requires Tidy(s) && id in s.tasks && s.tasks[id].status == Queued
    ensures Fit(s.threads, s.tasks[id := MarkStopped(s.tasks[id], now, TASK_STOPPED_MESSAGE)])
  {
    assert Consistent(s.tasks[id]);
    assert forall t :: !Executes(s.At(t), id) && (Unreported(s.At(t), id) ==> Executes(s.At(t), id));
    FitChanges(s.threads, s.tasks, id, MarkStopped(s.tasks[id], now, TASK_STOPPED_MESSAGE));
  }

  lemma FitShut(s: State, step: Step)
    requires Tidy(s) && (step.Close? || step.Clean?)
    ensures Fit(Apply(s, step).threads, Apply(s, step).tasks)
  {
    var id := step.id;
    if id in s.tasks && Closable(s.tasks[id]) {
      FitClosed(s, id, step.now);
    } else if id in s.tasks && s.tasks[id].status == Queued {
      FitStopped(s, id, step.now);
    }
  }

  lemma FitNote(s: State, step: Step)
    requires Tidy(s) && Notes(step)
    ensures Fit(Apply(s, step).threads, Apply(s, step).tasks)
  {
    if step.id in s.tasks {
      assert Consistent(s.tasks[step.id]);
      FitChanges(s.threads, s.tasks, step.id, Apply(s, step).tasks[step.id]);
    }
  }

  lemma FitCleared(s: State, step: Step)
    requires Tidy(s) && step.ClearResults?
    ensures Fit(Apply(s, step).threads, Apply(s, step).tasks)
  {
    FitClearing(s.threads, s.tasks, step.reached, step.stuck);
  }

  lemma ClearingIsFit(t: Task, id: Id, reached: set<Id>, stuck: Option<Id>)
    requires Consistent(t)
    ensures var u := AfterClearing(t, id, reached, stuck);
            Consistent(u) && (t.flag.None? ==> u.flag.None?) && (Bare(t) ==> Bare(u))
  {
  }

  lemma FitClearing(threads: map<Thread, Pc>, tasks: map<Id, Task>, reached: set<Id>, stuck: Option<Id>)
    requires Fit(threads, tasks)
    ensures Fit(threads, (map id | id in tasks :: AfterClearing(tasks[id], id, reached, stuck)))
  {
    forall id | id in tasks
      ensures var u := AfterClearing(tasks[id], id, reached, stuck);
              Consistent(u) && (tasks[id].flag.None? ==> u.flag.None?) && (Bare(tasks[id]) ==> Bare(u))
    {
      ClearingIsFit(tasks[id], id, reached, stuck);
    }
  }

  lemma FitCaller(s: State, step: Step)
    requires Tidy(s)
    requires ByCaller(step) && !step.SubmitAdd? && !step.SubmitRollback?
    ensures Fit(Apply(s, step).threads, Apply(s, step).tasks)
  {
    var s' := Apply(s, step);
    if step.SubmitEnqueue? || step.SendEnqueue? {
      EnqueuersOnlyMove(s, step);
    } else {
      SendersOnlyMove(s, step);
    }
    if s'.threads != s.threads {
      FitMoves(s.threads, s.tasks, step.t, s'.At(step.t));
    }
  }

  /** The step's thread moves on, without a write and without starting or submitting anything. */
  ghost predicate OnlyMoves(s: State, step: Step)
    requires ByCaller(step) || ByWorker(step)
  {
    var s', pc := Apply(s, step), Apply(s, step).At(step.t);
    && s'.tasks == s.tasks
    && (s'.threads == s.threads
        || (s'.threads == s.threads[step.t := pc] && !pc.Executing? && !pc.Marking? && !pc.Submitting?
            && (pc.SubmitFull? ==> s.At(step.t) == Submitting(pc.id))))
  }

  lemma EnqueuersOnlyMove(s: State, step: Step)
    requires step.SubmitEnqueue? || step.SendEnqueue?
    ensures OnlyMoves(s, step)
  {
  }

  lemma SendersOnlyMove(s: State, step: Step)
    requires step.SendCheck? || step.SendReserve? || step.SendRollback?
    ensures OnlyMoves(s, step)
  {
  }

  lemma FitIdler(s: State, step: Step)
    requires Tidy(s) && (step.Dequeue? || step.Take? || step.Release?)
    ensures Fit(Apply(s, step).threads, Apply(s, step).tasks)
  {
    var s' := Apply(s, step);
    IdlersOnlyMove(s, step);
    if s'.threads != s.threads {
      FitMoves(s.threads, s.tasks, step.t, s'.At(step.t));
    }
  }

  lemma IdlersOnlyMove(s: State, step: Step)
    requires step.Dequeue? || step.Take? || step.Release?
    ensures OnlyMoves(s, step)
  {
  }

  lemma TidyStep(s: State, step: Step)
    requires Tidy(s) && AtomicStep(step)
    ensures Tidy(Apply(s, step))
  {
    StepKeeps(s, step);
    match step
    case SubmitAdd(_, _, _) => FitSubmit(s, step);
    case SubmitRollback(_, _, _) => FitSubmit(s, step);
    case InitStart(_, _, _) => FitInitStart(s, step);
    case ContStart(_, _, _) => FitContStart(s, step);
    case Sink(_, _, _) => FitSink(s, step);
    case CheckedFinish(_, _, _, _) => FitFinish(s, step);
    case Close(_, _, _, _) => FitShut(s, step);
    case Clean(_, _, _, _, _, _) => FitShut(s, step);
    case Log(_, _) => FitNote(s, step);
    case Session(_, _) => FitNote(s, step);
    case SaveWriteup(_, _) => FitNote(s, step);
    case ClearResults(_, _) => FitCleared(s, step);
    case Dequeue(_) => FitIdler(s, step);
    case Take(_) => FitIdler(s, step);
    case Release(_) => FitIdler(s, step);
    case _ => FitCaller(s, step);
  }

  lemma {:induction false} TidyRun(s: State, steps: seq<Step>)
    requires Tidy(s) && Atomic(steps)
    ensures Tidy(Run(s, steps))
    decreases |steps|
  {
    if steps != [] {
      TidyStep(s, steps[0]);
      TidyRun(Apply(s, steps[0]), steps[1..]);
    }
  }

  lemma TidyIsOrderly(s: State, step: Step)
    requires Tidy(s) && AtomicStep(step)
    ensures Orderly(s, step)
  {
    forall id | id in s.tasks ensures Tame(s.tasks[id]) {
      ConsistentIsTame(s.tasks[id]);
    }
    if (ByCaller(step) || ByWorker(step)) && Commits(s.At(step.t), step) && s.At(step.t).id in s.tasks {
      CommitterIsUnflagged(s, step);
    }
  }

  lemma CommitterIsUnflagged(s: State, step: Step)
    requires Tidy(s) && AtomicStep(step) && (ByCaller(step) || ByWorker(step))
    requires Commits(s.At(step.t), step) && s.At(step.t).id in s.tasks
    ensures Unflagged(s.tasks[s.At(step.t).id])
  {
    var pc := s.At(step.t);
    if pc.Executing? {
      assert Executes(pc, pc.id);
    } else if pc.SubmitFull? {
      assert Submits(pc, pc.id) && Consistent(s.tasks[pc.id]);
    }
  }

  /** Every task is consistent, and its flag is set exactly when it is solved, unless clearing lost it. */
  lemma {:induction false} FlagsMatchStatusUnderClose(s: State, steps: seq<Step>, id: Id)
    requires Fresh(s) && Atomic(steps) && id in Run(s, steps).tasks
    ensures Consistent(Run(s, steps).tasks[id])
    ensures Coupled(Run(s, steps).tasks[id]) <==> !FlagIsLost(s, steps, id)
  {
    TidyRun(s, steps);
    forall i | 0 <= i < |steps| ensures Orderly(Run(s, steps[..i]), steps[i]) {
      TidyRun(s, steps[..i]);
      TidyIsOrderly(Run(s, steps[..i]), steps[i]);
    }
    FlagRun(s, steps, id);
  }

  /** No thread is about to fail the task because the queue refused it. */
  ghost predicate NotRefused(s: State, id: Id) {
    forall t :: s.At(t) != SubmitFull(id)
  }

  /** One step cannot move a stopped task, except the rollback of its own submission. */
  lemma StopHolds(s: State, step: Step, id: Id)
    requires Tidy(s) && AtomicStep(step) && id in s.tasks && Stopped(s.tasks[id])
    requires step.SubmitRollback? ==> s.At(step.t) != SubmitFull(id)
    ensures id in Apply(s, step).tasks && SameOutcome(s.tasks[id], Apply(s, step).tasks[id])
  {
    assert L.Rests(s, id);
    if step.Sink? {
      assert !Unreported(s.At(step.t), id);
      if L.Threatens(s.At(step.t), id, s.tasks[id]) {
        OthersOnlyStay(s, step);
      } else {
        L.SinkLeaves(s, step, id);
      }
    } else if step.SubmitAdd? || step.SubmitRollback? {
      if s.At(step.t) == SubmitFull(id) {
        OthersOnlyStay(s, step);
      } else {
        L.SubmittersLeave(s, step, id);
      }
    } else if Writes(step) {
      L.CheckedStepLeaves(s, step, id);
    } else {
      OthersDoNotWrite(s, step);
    }
  }

  /** A thread that is not ready for the step stays where it is. */
  lemma OthersOnlyStay(s: State, step: Step)
    requires (step.Sink? && !s.At(step.t).Executing?) || (step.SubmitAdd? && !s.At(step.t).Idle?)
    ensures Apply(s, step) == s
  {
  }

  /** Exactly when no submission of it is being rolled back, no step of any worker, sender, closer or cleaner moves a
      stopped task's status, flag, container or last step. */
  lemma StopHoldsExactly(s: State, id: Id)
    requires Tidy(s) && id in s.tasks && Stopped(s.tasks[id])
    ensures NotRefused(s, id) <==>
            forall step | AtomicStep(step) :: id in Apply(s, step).tasks
                && SameOutcome(s.tasks[id], Apply(s, step).tasks[id])
  {
    if NotRefused(s, id) {
      forall step | AtomicStep(step)
        ensures id in Apply(s, step).tasks && SameOutcome(s.tasks[id], Apply(s, step).tasks[id])
      {
        StopHolds(s, step, id);
      }
    } else {
      var t :| s.At(t) == SubmitFull(id);
      var step := SubmitRollback(t, 0, true);
      MessagesDiffer();
      assert AtomicStep(step) && Apply(s, step).tasks[id].lastStep == TASK_QUEUE_FULL_MESSAGE;
    }
  }

  /** No submission of the task is in flight. */
  ghost predicate Submitted(s: State, id: Id) {
    forall t :: !Submits(PcAt(s.threads, t), id)
  }

  lemma StaysSubmitted(s: State, step: Step, id: Id)
    requires AtomicStep(step) && id in s.tasks && Submitted(s, id)
    ensures Submitted(Apply(s, step), id)
  {
    var s' := Apply(s, step);
    if step.SubmitEnqueue? || step.SendEnqueue? {
      EnqueuersOnlyMove(s, step);
    } else if step.SendCheck? || step.SendReserve? || step.SendRollback? {
      SendersOnlyMove(s, step);
    } else if step.Dequeue? || step.Take? || step.Release? {
      IdlersOnlyMove(s, step);
    } else if step.InitStart? || step.ContStart? || step.Sink? || step.CheckedFinish? {
      WorkersNeverSubmit(s, step);
    } else {
      SubmittersMove(s, step, id);
    }
    if s'.threads != s.threads {
      Moved(s.threads, s'.threads, step.t, s'.At(step.t));
      assert !Submits(s.At(step.t), id);
    }
  }

  ghost predicate NeverSubmits(s: State, s': State, t: Thread) {
    s'.threads == s.threads
        || (s'.threads == s.threads[t := s'.At(t)] && !s'.At(t).Submitting? && !s'.At(t).SubmitFull?)
  }

  lemma WorkersNeverSubmit(s: State, step: Step)
    requires step.InitStart? || step.ContStart? || step.Sink? || step.CheckedFinish?
    ensures NeverSubmits(s, Apply(s, step), step.t)
  {
    if step.InitStart? {
      InitStartNeverSubmits(s, step);
    } else if step.ContStart? {
      ContStartNeverSubmits(s, step);
    } else if step.Sink? {
      SinkNeverSubmits(s, step);
    } else {
      FinishNeverSubmits(s, step);
    }
  }

  lemma InitStartNeverSubmits(s: State, step: Step)
    requires step.InitStart?
    ensures NeverSubmits(s, Apply(s, step), step.t)
  {
  }

  lemma ContStartNeverSubmits(s: State, step: Step)
    requires step.ContStart?
    ensures NeverSubmits(s, Apply(s, step), step.t)
  {
  }

  lemma SinkNeverSubmits(s: State, step: Step)
    requires step.Sink?
    ensures NeverSubmits(s, Apply(s, step), step.t)
  {
  }

  lemma FinishNeverSubmits(s: State, step: Step)
    requires step.CheckedFinish?
    ensures NeverSubmits(s, Apply(s, step), step.t)
  {
  }

  lemma SubmittersMove(s: State, step: Step, id: Id)
    requires id in s.tasks
    requires step.SubmitAdd? || step.SubmitRollback? || step.Close? || step.Clean? || Notes(step) || step.ClearResults?
    ensures var s' := Apply(s, step);
            s'.threads == s.threads
                || ((step.SubmitAdd? || step.SubmitRollback?) && s'.threads == s.threads[step.t := s'.At(step.t)]
                                        && !Submits(s'.At(step.t), id))
  {
  }

  lemma {:induction false} StopHoldsOn(s: State, steps: seq<Step>, id: Id)
    requires Tidy(s) && Atomic(steps) && id in s.tasks && Stopped(s.tasks[id]) && Submitted(s, id)
    ensures id in Run(s, steps).tasks && SameOutcome(s.tasks[id], Run(s, steps).tasks[id])
    decreases |steps|
  {
    if steps != [] {
      var s' := Apply(s, steps[0]);
      assert AtomicStep(steps[0]);
      StopHolds(s, steps[0], id);
      TidyStep(s, steps[0]);
      StaysSubmitted(s, steps[0], id);
      StopHoldsOn(s', steps[1..], id);
    }
  }

  /** A submission still under way can move a stopped task. */
  lemma RefusalFollows(s: State, id: Id) returns (after: seq<Step>)
    requires id in s.tasks && Stopped(s.tasks[id]) && !Submitted(s, id)
    ensures Atomic(after) && id in Run(s, after).tasks && !SameOutcome(s.tasks[id], Run(s, after).tasks[id])
  {
    var t :| Submits(PcAt(s.threads, t), id);
    after := CanFail(s, t, id);
    MessagesDiffer();
  }

  /** A stopped task stays as it is for the rest of the service's life exactly when its submission is over: one that is
      still under way may meet a full queue. */
  lemma {:induction false} StopIsFinal(s: State, before: seq<Step>, id: Id)
    requires Fresh(s) && Atomic(before) && id in Run(s, before).tasks && Stopped(Run(s, before).tasks[id])
    ensures var r := Run(s, before);
            Submitted(r, id) <==>
            forall after | Atomic(after) :: id in Run(r, after).tasks
                && SameOutcome(r.tasks[id], Run(r, after).tasks[id])
  {
    var r := Run(s, before);
    TidyRun(s, before);
    if Submitted(r, id) {
      forall after | Atomic(after)
        ensures id in Run(r, after).tasks && SameOutcome(r.tasks[id], Run(r, after).tasks[id])
      {
        StopHoldsOn(r, after, id);
      }
    } else {
      var after := RefusalFollows(r, id);
    }
  }

  // ---- at every granularity ----

  lemma {:induction false} NeverQueuedAgain(s: State, steps: seq<Step>, id: Id)
    requires id in s.tasks && s.tasks[id].status != Queued
    ensures id in Run(s, steps).tasks && Run(s, steps).tasks[id].status != Queued
    decreases |steps|
  {
    if steps != [] {
      LeavesQueued(s, steps[0], id);
      NeverQueuedAgain(Apply(s, steps[0]), steps[1..], id);
    }
  }

  lemma LeavesQueued(s: State, step: Step, id: Id)
    requires id in s.tasks && s.tasks[id].status != Queued
    ensures id in Apply(s, step).tasks && Apply(s, step).tasks[id].status != Queued
  {
    if step.StartRun? || step.InitStart? || step.ContStart? {
      StartLeavesQueued(s, step, id);
    } else if step.Finish? || step.CheckedFinish? || step.Sink? {
      FinishLeavesQueued(s, step, id);
    } else if Writes(step) {
      OtherLeavesQueued(s, step, id);
    } else {
      OthersDoNotWrite(s, step);
    }
  }

  lemma StartLeavesQueued(s: State, step: Step, id: Id)
    requires id in s.tasks && s.tasks[id].status != Queued && (step.StartRun? || step.InitStart? || step.ContStart?)
    ensures id in Apply(s, step).tasks && Apply(s, step).tasks[id].status != Queued
  {
    var pc := s.At(step.t);
    if step.StartRun? {
      assert Apply(s, step).tasks == s.tasks
             || Apply(s, step).tasks == s.tasks[pc.id := MarkRunning(s.tasks[pc.id], step.now)];
    } else if step.InitStart? {
      assert Apply(s, step).tasks == s.tasks
             || Apply(s, step).tasks == s.tasks[pc.id := MarkRunning(s.tasks[pc.id], step.now)];
    } else {
      assert Apply(s, step).tasks == s.tasks
             || Apply(s, step).tasks == s.tasks[pc.id := MarkRunning(s.tasks[pc.id], step.now)];
    }
  }

  lemma FinishLeavesQueued(s: State, step: Step, id: Id)
    requires id in s.tasks && s.tasks[id].status != Queued && (step.Finish? || step.CheckedFinish? || step.Sink?)
    ensures id in Apply(s, step).tasks && Apply(s, step).tasks[id].status != Queued
  {
  }

  lemma ClosingLeavesQueued(s: State, i: Id, seen: Task, live: bool, expired: bool, dockerOk: bool, now: int,
                            wrote: bool, id: Id)
    requires id in s.tasks && s.tasks[id].status != Queued
    ensures var e := CloseWrite(s, i, seen, dockerOk, now, wrote).tasks; id in e && e[id].status != Queued
    ensures var e := CleanWrite(s, i, seen, live, expired, dockerOk, now, wrote).tasks;
            id in e && e[id].status != Queued
  {
  }

  lemma CloseLeavesQueued(s: State, step: Step, id: Id)
    requires id in s.tasks && s.tasks[id].status != Queued && (step.CloseMark? || step.Close?)
    ensures id in Apply(s, step).tasks && Apply(s, step).tasks[id].status != Queued
  {
    if step.CloseMark? {
      var pc := s.At(step.t);
      if pc.ClosingFreed? {
        ClosingLeavesQueued(s, pc.id, pc.seen, false, false, step.dockerOk, step.now, step.wrote, id);
      }
    } else if step.id in s.tasks {
      ClosingLeavesQueued(s.Freed(step.id), step.id, s.tasks[step.id], false, false, step.dockerOk, step.now,
                          step.wrote, id);
    }
  }

  lemma CleanLeavesQueued(s: State, step: Step, id: Id)
    requires id in s.tasks && s.tasks[id].status != Queued && (step.CleanMark? || step.Clean?)
    ensures id in Apply(s, step).tasks && Apply(s, step).tasks[id].status != Queued
  {
    if step.CleanMark? {
      var pc := s.At(step.t);
      if pc.CleanSeen? {
        ClosingLeavesQueued(s, pc.id, pc.seen, step.live, step.expired, step.dockerOk, step.now, step.wrote, id);
      }
    } else if step.id in s.tasks {
      ClosingLeavesQueued(s, step.id, s.tasks[step.id], step.live, step.expired, step.dockerOk, step.now, step.wrote,
                          id);
    }
  }

  lemma NotesLeaveQueued(s: State, step: Step, id: Id)
    requires id in s.tasks && s.tasks[id].status != Queued
    requires Notes(step) || step.ClearResults?
    ensures id in Apply(s, step).tasks && Apply(s, step).tasks[id].status != Queued
  {
  }

  lemma OtherLeavesQueued(s: State, step: Step, id: Id)
    requires id in s.tasks && s.tasks[id].status != Queued
    requires step.SubmitAdd? || step.SubmitRollback? || step.CloseMark? || step.Close? || step.CleanMark? || step.Clean?
             || Notes(step) || step.ClearResults?
    ensures id in Apply(s, step).tasks && Apply(s, step).tasks[id].status != Queued
  {
    if step.SubmitAdd? || step.SubmitRollback? {
      assert Apply(s, step) == CallerStep(s, step);
    } else if Notes(step) || step.ClearResults? {
      NotesLeaveQueued(s, step, id);
    } else if step.CloseMark? || step.Close? {
      CloseLeavesQueued(s, step, id);
    } else {
      CleanLeavesQueued(s, step, id);
    }
  }
}
