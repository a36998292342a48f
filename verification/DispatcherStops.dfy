/** Runs in which containers are closed and cleaned at any point. Every lock section is a step of its own, except that a
    check and the MarkRunning it guards are one. */
module DispatcherStops {
  import opened Options
  import opened Tasks
  import opened Dispatcher

  /** A check and the MarkRunning it guards are one step. */
  predicate AtomicStarts(steps: seq<Step>) {
    forall i | 0 <= i < |steps| :: !steps[i].StartRun?
  }

  /** A thread that acts for a submission or a continuation of `id`. */
  predicate Engaged(pc: Pc, id: Id) {
    !pc.Idle? && pc.id == id && !pc.Closing? && !pc.ClosingFreed? && !pc.CleanSeen?
  }

  predicate Submits(pc: Pc, id: Id) {
    (pc.Submitting? || pc.SubmitFull?) && pc.id == id
  }

  /** A task that is being executed is running, or was closed under the worker. */
  predicate Underway(task: Task) {
    task.status == Running || (task.status == Failed && !task.containerKept)
  }

  predicate Unkept(task: Task) {
    (task.status == Queued || task.status == Failed) && !task.containerKept
  }

  ghost predicate Good(threads: map<Thread, Pc>, tasks: map<Id, Task>, queue: seq<Entry>) {
    && (forall t | !PcAt(threads, t).Idle? :: PcAt(threads, t).id in tasks)
    && (forall e | e in queue :: e.id in tasks)
    && (forall t, id | Executes(PcAt(threads, t), id) && id in tasks :: Underway(tasks[id]))
    && (forall t, u, id | Executes(PcAt(threads, t), id) && Executes(PcAt(threads, u), id) :: t == u)
    && (forall t, id | Submits(PcAt(threads, t), id) && id in tasks :: Unkept(tasks[id]))
    && (forall t, u, id | Submits(PcAt(threads, t), id) && Engaged(PcAt(threads, u), id) :: t == u)
    && (forall t, e | e in queue :: !Submits(PcAt(threads, t), e.id))
  }

  ghost predicate Inv(s: State) {
    Good(s.threads, s.tasks, s.queue)
  }

  /** Nothing in flight but queue entries of stored tasks, whatever the tasks look like. */
  ghost predicate Quiet(s: State) {
    s.threads == map[] && (forall e | e in s.queue :: e.id in s.tasks)
  }

  lemma Moved(threads: map<Thread, Pc>, threads': map<Thread, Pc>, t: Thread, pc: Pc)
    requires threads' == threads[t := pc]
    ensures forall u :: PcAt(threads', u) == if u == t then pc else PcAt(threads, u)
  {
  }

  /** A thread moves on within its work for one task, or turns to a task that no submission is under way for. */
  lemma Moves(threads: map<Thread, Pc>, tasks: map<Id, Task>, queue: seq<Entry>, t: Thread, pc: Pc)
    requires Good(threads, tasks, queue)
    requires pc.Idle? || pc.id in tasks
    requires forall id | Submits(pc, id) :: Submits(PcAt(threads, t), id)
    requires forall id | Executes(pc, id) :: Executes(PcAt(threads, t), id)
    requires forall id | Engaged(pc, id) :: Engaged(PcAt(threads, t), id) || forall u :: !Submits(PcAt(threads, u), id)
    ensures Good(threads[t := pc], tasks, queue)
  {
    Moved(threads, threads[t := pc], t, pc);
  }

  /** A worker starts to execute a task that nobody executes. */
  lemma Starts(threads: map<Thread, Pc>, tasks: map<Id, Task>, queue: seq<Entry>, t: Thread, pc: Pc, id: Id)
    requires Good(threads, tasks, queue)
    requires Engaged(PcAt(threads, t), id) && !Submits(PcAt(threads, t), id) && Executes(pc, id)
    requires id in tasks && Underway(tasks[id])
    requires forall u :: !Executes(PcAt(threads, u), id)
    ensures Good(threads[t := pc], tasks, queue)
  {
    Moved(threads, threads[t := pc], t, pc);
  }

  /** A task changes such that its executor and its submitter, if any, find it as they must. */
  lemma Changes(threads: map<Thread, Pc>, tasks: map<Id, Task>, queue: seq<Entry>, id: Id, task: Task)
    requires Good(threads, tasks, queue) && id in tasks
    requires Underway(tasks[id]) ==> Underway(task) || forall u :: !Executes(PcAt(threads, u), id)
    requires Unkept(tasks[id]) ==> Unkept(task) || forall u :: !Submits(PcAt(threads, u), id)
    ensures Good(threads, tasks[id := task], queue)
  {
  }

  /** A new task, stored by a thread that had nothing to do. */
  lemma Admits(threads: map<Thread, Pc>, tasks: map<Id, Task>, queue: seq<Entry>, t: Thread, id: Id, task: Task)
    requires Good(threads, tasks, queue) && PcAt(threads, t).Idle? && id !in tasks && Unkept(task)
    ensures Good(threads[t := Submitting(id)], tasks[id := task], queue)
  {
    var threads' := threads[t := Submitting(id)];
    Moved(threads, threads', t, Submitting(id));
    assert forall u :: !PcAt(threads, u).Idle? ==> PcAt(threads, u).id != id;
    assert forall e | e in queue :: e.id != id;
  }

  lemma Queues(threads: map<Thread, Pc>, tasks: map<Id, Task>, queue: seq<Entry>, e: Entry)
    requires Good(threads, tasks, queue) && e.id in tasks && forall t :: !Submits(PcAt(threads, t), e.id)
    ensures Good(threads, tasks, queue + [e])
  {
  }

  /** Whoever is engaged with a task, no other thread submits it; and a worker alone executes it. */
  lemma Sole(s: State, t: Thread, id: Id)
    requires Inv(s) && Engaged(s.At(t), id) && !Submits(s.At(t), id)
    ensures forall u :: !Submits(s.At(u), id)
    ensures Executes(s.At(t), id) ==> forall u | u != t :: !Executes(s.At(u), id)
  {
  }

  lemma SubmitAddKeeps(s: State, step: Step)
    requires Inv(s) && step.SubmitAdd?
    ensures Inv(Apply(s, step))
  {
    var t := step.t;
    var pc := s.At(t);
    if pc.Idle? && step.id !in s.tasks && step.task.status == Queued && Coupled(step.task) {
      Admits(s.threads, s.tasks, s.queue, t, step.id, step.task);
    }
  }

  lemma SubmitEnqueueKeeps(s: State, step: Step)
    requires Inv(s) && step.SubmitEnqueue?
    ensures Inv(Apply(s, step))
  {
    var t := step.t;
    var pc := s.At(t);
    if pc.Submitting? {
      Moved(s.threads, s.threads[t := Idle], t, Idle);
      if |s.queue| < s.capacity {
        Moves(s.threads, s.tasks, s.queue, t, Idle);
        Queues(s.threads[t := Idle], s.tasks, s.queue, Entry(pc.id, Initial));
      } else {
        Moves(s.threads, s.tasks, s.queue, t, SubmitFull(pc.id));
      }
    }
  }

  lemma SubmitRollbackKeeps(s: State, step: Step)
    requires Inv(s) && step.SubmitRollback?
    ensures Inv(Apply(s, step))
  {
    var t := step.t;
    var pc := s.At(t);
    if pc.SubmitFull? {
      if step.wrote {
        var task := MarkFailed(s.tasks[pc.id], step.now, TASK_QUEUE_FULL_MESSAGE);
        Changes(s.threads, s.tasks, s.queue, pc.id, task);
        Moves(s.threads, s.tasks[pc.id := task], s.queue, t, Idle);
      } else {
        Moves(s.threads, s.tasks, s.queue, t, Idle);
      }
    }
  }

  lemma SendCheckKeeps(s: State, step: Step)
    requires Inv(s) && step.SendCheck?
    ensures Inv(Apply(s, step))
  {
    var t := step.t;
    var pc := s.At(t);
    if pc.Idle? && step.id in s.tasks && step.message != "" && Continuable(s.tasks[step.id]) {
      Moves(s.threads, s.tasks, s.queue, t, SendChecked(step.id, step.message));
    }
  }

  lemma SendReserveKeeps(s: State, step: Step)
    requires Inv(s) && step.SendReserve?
    ensures Inv(Apply(s, step))
  {
    var t := step.t;
    var pc := s.At(t);
    if pc.SendChecked? {
      Sole(s, t, pc.id);
      Moves(s.threads, s.tasks, s.queue, t, if pc.id in s.busy then Idle else SendReserved(pc.id, pc.message));
    }
  }

  lemma SendEnqueueKeeps(s: State, step: Step)
    requires Inv(s) && step.SendEnqueue?
    ensures Inv(Apply(s, step))
  {
    var t := step.t;
    var pc := s.At(t);
    if pc.SendReserved? {
      Sole(s, t, pc.id);
      if |s.queue| < s.capacity {
        Moved(s.threads, s.threads[t := Idle], t, Idle);
        Moves(s.threads, s.tasks, s.queue, t, Idle);
        Queues(s.threads[t := Idle], s.tasks, s.queue, Entry(pc.id, Continuation));
      } else {
        Moves(s.threads, s.tasks, s.queue, t, SendFull(pc.id, pc.message));
      }
    }
  }

  lemma SendRollbackKeeps(s: State, step: Step)
    requires Inv(s) && step.SendRollback?
    ensures Inv(Apply(s, step))
  {
    var t := step.t;
    var pc := s.At(t);
    if pc.SendFull? {
      Moves(s.threads, s.tasks, s.queue, t, Idle);
    }
  }

  lemma DequeueKeeps(s: State, step: Step)
    requires Inv(s) && step.Dequeue?
    ensures Inv(Apply(s, step))
  {
    var t := step.t;
    var pc := s.At(t);
    if pc.Idle? && s.queue != [] {
      var e := s.queue[0];
      assert e in s.queue;
      Moves(s.threads, s.tasks, s.queue, t, Popped(e.id, e.origin));
      assert forall x | x in s.queue[1..] :: x in s.queue;
    }
  }

  lemma TakeKeeps(s: State, step: Step)
    requires Inv(s) && step.Take?
    ensures Inv(Apply(s, step))
  {
    var t := step.t;
    var pc := s.At(t);
    if pc.Popped? {
      Sole(s, t, pc.id);
      Moves(s.threads, s.tasks, s.queue, t, if pc.id in s.queued then ContPicked(pc.id, s.queued[pc.id])
          else InitPicked(pc.id));
    }
  }

  lemma InitCheckKeeps(s: State, step: Step)
    requires Inv(s) && step.InitCheck?
    ensures Inv(Apply(s, step))
  {
    var t := step.t;
    var pc := s.At(t);
    if pc.InitPicked? {
      Sole(s, t, pc.id);
      Moves(s.threads, s.tasks, s.queue, t, if s.tasks[pc.id].status == Queued then InitChecked(pc.id) else Idle);
    }
  }

  lemma ContCheckKeeps(s: State, step: Step)
    requires Inv(s) && step.ContCheck?
    ensures Inv(Apply(s, step))
  {
    var t := step.t;
    var pc := s.At(t);
    if pc.ContPicked? {
      Sole(s, t, pc.id);
      Moves(s.threads, s.tasks, s.queue, t, if Continuable(s.tasks[pc.id]) then ContChecked(pc.id, pc.message)
          else Releasing(pc.id));
    }
  }

  /** A worker whose check and MarkRunning are one finds the task executed by nobody. */
  lemma StartKeeps(s: State, t: Thread, id: Id, o: Origin, now: int, wrote: bool)
    requires Inv(s) && id in s.tasks && Engaged(s.At(t), id) && !Submits(s.At(t), id) && !Underway(s.tasks[id])
    ensures Inv(Start(s, t, id, o, now, wrote))
  {
    Sole(s, t, id);
    if wrote {
      var task := MarkRunning(s.tasks[id], now);
      Changes(s.threads, s.tasks, s.queue, id, task);
      Starts(s.threads, s.tasks[id := task], s.queue, t, Executing(id, o, false), id);
    } else {
      Moves(s.threads, s.tasks, s.queue, t, if o == Continuation then Releasing(id) else Idle);
    }
  }

  lemma InitStartKeeps(s: State, step: Step)
    requires Inv(s) && step.InitStart?
    ensures Inv(Apply(s, step))
  {
    var t := step.t;
    var pc := s.At(t);
    if pc.InitPicked? {
      if s.tasks[pc.id].status == Queued {
        StartKeeps(s, t, pc.id, Initial, step.now, step.wrote);
      } else {
        Moves(s.threads, s.tasks, s.queue, t, Idle);
      }
    }
  }

  lemma ContStartKeeps(s: State, step: Step)
    requires Inv(s) && step.ContStart?
    ensures Inv(Apply(s, step))
  {
    var t := step.t;
    var pc := s.At(t);
    if pc.ContPicked? {
      if Continuable(s.tasks[pc.id]) {
        StartKeeps(s, t, pc.id, Continuation, step.now, step.wrote);
      } else {
        Sole(s, t, pc.id);
        Moves(s.threads, s.tasks, s.queue, t, Releasing(pc.id));
      }
    }
  }

  lemma SinkKeeps(s: State, step: Step)
    requires Inv(s) && step.Sink?
    ensures Inv(Apply(s, step))
  {
    var t := step.t;
    var pc := s.At(t);
    if pc.Executing? && pc.origin == Initial && !pc.sunk {
      Sole(s, t, pc.id);
      if step.wrote {
        var task := MarkRuntimeContainer(s.tasks[pc.id], step.name);
        Changes(s.threads, s.tasks, s.queue, pc.id, task);
        Moves(s.threads, s.tasks[pc.id := task], s.queue, t, Executing(pc.id, Initial, true));
      } else {
        Moves(s.threads, s.tasks, s.queue, t, Executing(pc.id, Initial, true));
      }
    }
  }

  /** A worker that is done with a task, having written its outcome or not. */
  lemma DoneKeeps(s: State, t: Thread, id: Id, o: Origin, task: Task)
    requires Inv(s) && Executes(s.At(t), id) && id in s.tasks
    ensures Inv(AfterRun(s.Put(id, task), t, id, o)) && Inv(AfterRun(s, t, id, o))
  {
    Sole(s, t, id);
    var to := if o == Continuation then Releasing(id) else Idle;
    Moves(s.threads, s.tasks, s.queue, t, to);
    Moved(s.threads, s.threads[t := to], t, to);
    Changes(s.threads[t := to], s.tasks, s.queue, id, task);
  }

  lemma StopCheckKeeps(s: State, step: Step)
    requires Inv(s) && step.StopCheck?
    ensures Inv(Apply(s, step))
  {
    var t := step.t;
    var pc := s.At(t);
    if pc.Executing? {
      Sole(s, t, pc.id);
      DoneKeeps(s, t, pc.id, pc.origin, s.tasks[pc.id]);
      Moves(s.threads, s.tasks, s.queue, t, Marking(pc.id, pc.origin));
    }
  }

  lemma FinishKeeps(s: State, step: Step)
    requires Inv(s) && step.Finish?
    ensures Inv(Apply(s, step))
  {
    var t := step.t;
    var pc := s.At(t);
    if pc.Marking? {
      DoneKeeps(s, t, pc.id, pc.origin, MarkOutcome(s.tasks[pc.id], step.outcome, step.now));
    }
  }

  lemma CheckedFinishKeeps(s: State, step: Step)
    requires Inv(s) && step.CheckedFinish?
    ensures Inv(Apply(s, step))
  {
    var t := step.t;
    var pc := s.At(t);
    if pc.Executing? {
      DoneKeeps(s, t, pc.id, pc.origin, MarkOutcome(s.tasks[pc.id], step.outcome, step.now));
    }
  }

  lemma ReleaseKeeps(s: State, step: Step)
    requires Inv(s) && step.Release?
    ensures Inv(Apply(s, step))
  {
    var t := step.t;
    var pc := s.At(t);
    if pc.Releasing? {
      Moves(s.threads, s.tasks, s.queue, t, Idle);
    }
  }

  /** A task may be stopped or its container closed at any moment. */
  lemma ShutKeeps(s: State, id: Id, now: int)
    requires Inv(s) && id in s.tasks
    ensures Inv(s.Put(id, MarkStopped(s.tasks[id], now, TASK_STOPPED_MESSAGE)))
    ensures Inv(s.Put(id, MarkContainerClosed(s.tasks[id], now)))
  {
    Changes(s.threads, s.tasks, s.queue, id, MarkStopped(s.tasks[id], now, TASK_STOPPED_MESSAGE));
    Changes(s.threads, s.tasks, s.queue, id, MarkContainerClosed(s.tasks[id], now));
  }

  lemma CloseGetKeeps(s: State, step: Step)
    requires Inv(s) && step.CloseGet?
    ensures Inv(Apply(s, step))
  {
    var t := step.t;
    var pc := s.At(t);
    if pc.Idle? && step.id in s.tasks {
      Moves(s.threads, s.tasks, s.queue, t, Closing(step.id, s.tasks[step.id]));
    }
  }

  lemma CloseFreeKeeps(s: State, step: Step)
    requires Inv(s) && step.CloseFree?
    ensures Inv(Apply(s, step))
  {
    var t := step.t;
    var pc := s.At(t);
    if pc.Closing? {
      Moves(s.threads, s.tasks, s.queue, t, ClosingFreed(pc.id, pc.seen));
    }
  }

  lemma CloseMarkKeeps(s: State, step: Step)
    requires Inv(s) && step.CloseMark?
    ensures Inv(Apply(s, step))
  {
    var t := step.t;
    var pc := s.At(t);
    if pc.ClosingFreed? {
      ShutKeeps(s, pc.id, step.now);
      var w := CloseWrite(s, pc.id, pc.seen, step.dockerOk, step.now, step.wrote);
      Moves(w.threads, w.tasks, w.queue, t, Idle);
    }
  }

  lemma CleanGetKeeps(s: State, step: Step)
    requires Inv(s) && step.CleanGet?
    ensures Inv(Apply(s, step))
  {
    var t := step.t;
    var pc := s.At(t);
    if pc.Idle? && step.id in s.tasks {
      Moves(s.threads, s.tasks, s.queue, t, CleanSeen(step.id, s.tasks[step.id]));
    }
  }

  lemma CleanMarkKeeps(s: State, step: Step)
    requires Inv(s) && step.CleanMark?
    ensures Inv(Apply(s, step))
  {
    var t := step.t;
    var pc := s.At(t);
    if pc.CleanSeen? {
      ShutKeeps(s, pc.id, step.now);
      var w := CleanWrite(s, pc.id, pc.seen, step.live, step.expired, step.dockerOk, step.now, step.wrote);
      Moves(w.threads, w.tasks, w.queue, t, Idle);
    }
  }

  lemma OtherKeeps(s: State, step: Step)
    requires Inv(s) && (step.Close? || step.Clean? || Notes(step))
    ensures Inv(Apply(s, step))
  {
    if step.id in s.tasks {
      var s' := Apply(s, step);
      if step.Close? || step.Clean? {
        ShutKeeps(s, step.id, step.now);
      } else {
        Changes(s.threads, s.tasks, s.queue, step.id, s'.tasks[step.id]);
      }
    }
  }

  lemma ClearResultsKeeps(s: State, step: Step)
    requires Inv(s) && step.ClearResults?
    ensures Inv(Apply(s, step))
  {
    ClearedGood(s.threads, s.tasks, s.queue, step.reached, step.stuck);
  }

  lemma ClearedGood(threads: map<Thread, Pc>, tasks: map<Id, Task>, queue: seq<Entry>, reached: set<Id>,
                    stuck: Option<Id>)
    requires Good(threads, tasks, queue)
    ensures Good(threads, (map id | id in tasks :: AfterClearing(tasks[id], id, reached, stuck)), queue)
  {
  }

  lemma StepKeeps(s: State, step: Step)
    requires Inv(s) && !step.StartRun?
    ensures Inv(Apply(s, step))
  {
    match step
    case SubmitAdd(_, _, _) => SubmitAddKeeps(s, step);
    case SubmitEnqueue(_) => SubmitEnqueueKeeps(s, step);
    case SubmitRollback(_, _, _) => SubmitRollbackKeeps(s, step);
    case SendCheck(_, _, _) => SendCheckKeeps(s, step);
    case SendReserve(_) => SendReserveKeeps(s, step);
    case SendEnqueue(_) => SendEnqueueKeeps(s, step);
    case SendRollback(_) => SendRollbackKeeps(s, step);
    case Dequeue(_) => DequeueKeeps(s, step);
    case Take(_) => TakeKeeps(s, step);
    case InitCheck(_) => InitCheckKeeps(s, step);
    case ContCheck(_) => ContCheckKeeps(s, step);
    case InitStart(_, _, _) => InitStartKeeps(s, step);
    case ContStart(_, _, _) => ContStartKeeps(s, step);
    case Sink(_, _, _) => SinkKeeps(s, step);
    case StopCheck(_) => StopCheckKeeps(s, step);
    case Finish(_, _, _, _) => FinishKeeps(s, step);
    case CheckedFinish(_, _, _, _) => CheckedFinishKeeps(s, step);
    case Release(_) => ReleaseKeeps(s, step);
    case CloseGet(_, _) => CloseGetKeeps(s, step);
    case CloseFree(_) => CloseFreeKeeps(s, step);
    case CloseMark(_, _, _, _) => CloseMarkKeeps(s, step);
    case CleanGet(_, _) => CleanGetKeeps(s, step);
    case CleanMark(_, _, _, _, _, _) => CleanMarkKeeps(s, step);
    case ClearResults(_, _) => ClearResultsKeeps(s, step);
    case _ => OtherKeeps(s, step);
  }

  // ---- whole runs in which only MarkRunning is taken together with its check ----

  lemma {:induction false} RunKeeps(s: State, steps: seq<Step>)
    requires Inv(s) && AtomicStarts(steps)
    ensures Inv(Run(s, steps))
    decreases |steps|
  {
    if steps != [] {
      StepKeeps(s, steps[0]);
      RunKeeps(Apply(s, steps[0]), steps[1..]);
    }
  }

  /** Closing and cleaning may come at any point, even on what was read long before: as long as no check is
      separated from its MarkRunning, no task is executed twice at once, and an executed task is running or was
      failed with its container gone. */
  lemma {:induction false} NoDoubleExecutionUnderClose(s: State, steps: seq<Step>)
    requires Quiet(s) && AtomicStarts(steps)
    ensures var r := Run(s, steps);
            && MutualExclusion(r)
            && forall t, id | Executes(r.At(t), id) :: id in r.tasks && Underway(r.tasks[id])
  {
    RunKeeps(s, steps);
  }
}
