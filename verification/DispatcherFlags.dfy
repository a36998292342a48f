/** How flags and statuses come apart. A solved task can lack its flag: ClearResultData takes the flag from the entry
    in memory before it finds that the task's writeup cannot be removed. And a task that is not solved can have one: a
    close stops a task it had read as queued, whatever became of it. */
module DispatcherFlags {
  import opened Options
  import opened Tasks
  import opened Dispatcher

  /** The step clears the task completely. */
  predicate Clears(step: Step, id: Id) {
    step.ClearResults? && id in step.reached
  }

  /** The step stops at the task: it is solved, and removing its writeup is refused. */
  predicate HalfClears(s: State, step: Step, id: Id) {
    && step.ClearResults? && id !in step.reached && step.stuck == Some(id)
    && id in s.tasks && s.tasks[id].status == Solved && HasStoredWriteup(s.tasks[id])
  }

  /** A close that had read the task as queued stops it now. */
  predicate StopsRead(s: State, step: Step, id: Id) {
    && step.CloseMark? && step.wrote && s.At(step.t).ClosingFreed?
    && s.At(step.t).id == id && s.At(step.t).seen.status == Queued && id in s.tasks
  }

  /** Clearing takes the task's flag, whether it can remove the writeup or not. */
  predicate Unflags(s: State, step: Step, id: Id) {
    && step.ClearResults?
    && (id in step.reached || (step.stuck == Some(id) && id in s.tasks && HasStoredWriteup(s.tasks[id])))
  }

  /** Step `i` of the run takes the flag of a solved task and leaves it solved. */
  ghost predicate Loses(s: State, steps: seq<Step>, id: Id, i: nat) {
    i < |steps| && HalfClears(Run(s, steps[..i]), steps[i], id)
  }

  /** Step `i` makes a task that is solved without a flag one that is not solved. */
  ghost predicate Mends(s: State, steps: seq<Step>, id: Id, i: nat) {
    i < |steps| && (Clears(steps[i], id) || StopsRead(Run(s, steps[..i]), steps[i], id))
  }

  /** Step `i` stops a task that has a flag. */
  ghost predicate Strands(s: State, steps: seq<Step>, id: Id, i: nat) {
    i < |steps| && StopsRead(Run(s, steps[..i]), steps[i], id) && Run(s, steps[..i]).tasks[id].flag.Some?
  }

  ghost predicate Collects(s: State, steps: seq<Step>, id: Id, i: nat) {
    i < |steps| && Unflags(Run(s, steps[..i]), steps[i], id)
  }

  /** The task lost its flag, in the run or before, and nothing put that right since. */
  ghost predicate FlagIsLost(s: State, steps: seq<Step>, id: Id) {
    || (id in s.tasks && Flagless(s.tasks[id]) && forall j: nat | j < |steps| :: !Mends(s, steps, id, j))
    || exists i: nat | i < |steps| :: Loses(s, steps, id, i) && forall j | i < j < |steps| :: !Mends(s, steps, id, j)
  }

  /** The task was stopped with its flag, in the run or before, and no clearing took the flag since. */
  ghost predicate FlagIsStray(s: State, steps: seq<Step>, id: Id) {
    || (id in s.tasks && Stray(s.tasks[id]) && forall j: nat | j < |steps| :: !Collects(s, steps, id, j))
    || exists i: nat | i < |steps| ::
         Strands(s, steps, id, i) && forall j | i < j < |steps| :: !Collects(s, steps, id, j)
  }

  /** A thread that may write to its task without looking at it again. */
  predicate Commits(pc: Pc, step: Step) {
    || (step.SubmitRollback? && pc.SubmitFull?)
    || (step.StartRun? && (pc.InitChecked? || pc.ContChecked?))
    || (step.Sink? && pc.Executing?)
    || (step.CheckedFinish? && pc.Executing?)
    || (step.Finish? && pc.Marking?)
  }

  /** Nobody writes an outcome over a task that is solved or has a flag. */
  ghost predicate Orderly(s: State, step: Step) {
    && (forall id | id in s.tasks :: Tame(s.tasks[id]))
    && ((ByCaller(step) || ByWorker(step)) && Commits(s.At(step.t), step) && s.At(step.t).id in s.tasks
        ==> Unflagged(s.tasks[s.At(step.t).id]))
  }

  /** A change that leaves it open whether a task is solved without a flag, or has one without being solved. */
  predicate KeepsFlag(t: Task, u: Task) {
    (Flagless(u) <==> Flagless(t)) && (Stray(u) <==> Stray(t))
  }

  /** The step leaves every task's flag alone; a new task is as it should be. */
  ghost predicate Leaves(s: State, r: State, id: Id) {
    id in r.tasks ==> if id in s.tasks then KeepsFlag(s.tasks[id], r.tasks[id]) else Coupled(r.tasks[id])
  }

  lemma SubmittersLeave(s: State, step: Step, id: Id)
    requires Orderly(s, step) && (step.SubmitAdd? || step.SubmitRollback?)
    ensures Leaves(s, Apply(s, step), id)
  {
    assert Apply(s, step) == CallerStep(s, step);
  }

  lemma StartLeaves(s: State, t: Thread, i: Id, o: Origin, now: int, wrote: bool, id: Id)
    requires i in s.tasks ==> Unflagged(s.tasks[i])
    ensures Leaves(s, Start(s, t, i, o, now, wrote), id)
  {
  }

  lemma OutcomeKeepsFlag(t: Task, o: Outcome, now: int)
    requires Unflagged(t)
    ensures KeepsFlag(t, MarkOutcome(t, o, now))
  {
  }

  lemma OutcomeLeaves(s: State, t: Thread, i: Id, o: Origin, x: Outcome, now: int, wrote: bool, id: Id)
    requires i in s.tasks ==> Unflagged(s.tasks[i])
    ensures Leaves(s, WriteOutcome(s, t, i, o, x, now, wrote), id)
  {
    if wrote && i in s.tasks {
      OutcomeKeepsFlag(s.tasks[i], x, now);
    }
  }

  lemma StartRunLeaves(s: State, step: Step, id: Id)
    requires Orderly(s, step) && step.StartRun?
    ensures Leaves(s, Apply(s, step), id)
  {
    var pc := s.At(step.t);
    if pc.InitChecked? {
      StartLeaves(s, step.t, pc.id, Initial, step.now, step.wrote, id);
    } else if pc.ContChecked? {
      StartLeaves(s, step.t, pc.id, Continuation, step.now, step.wrote, id);
    }
  }

  lemma InitStartLeaves(s: State, step: Step, id: Id)
    requires Orderly(s, step) && step.InitStart?
    ensures Leaves(s, Apply(s, step), id)
  {
    var pc := s.At(step.t);
    if pc.InitPicked? && pc.id in s.tasks && s.tasks[pc.id].status == Queued {
      StartLeaves(s, step.t, pc.id, Initial, step.now, step.wrote, id);
    }
  }

  lemma ContStartLeaves(s: State, step: Step, id: Id)
    requires Orderly(s, step) && step.ContStart?
    ensures Leaves(s, Apply(s, step), id)
  {
    var pc := s.At(step.t);
    if pc.ContPicked? && pc.id in s.tasks && Continuable(s.tasks[pc.id]) {
      StartLeaves(s, step.t, pc.id, Continuation, step.now, step.wrote, id);
    }
  }

  lemma FinishersLeave(s: State, step: Step, id: Id)
    requires Orderly(s, step) && (step.Finish? || step.CheckedFinish?)
    ensures Leaves(s, Apply(s, step), id)
  {
    var pc := s.At(step.t);
    if Apply(s, step).tasks != s.tasks {
      assert Apply(s, step) == WriteOutcome(s, step.t, pc.id, pc.origin, step.outcome, step.now, step.wrote);
      OutcomeLeaves(s, step.t, pc.id, pc.origin, step.outcome, step.now, step.wrote, id);
    }
  }

  lemma SinkLeaves(s: State, step: Step, id: Id)
    requires step.Sink?
    ensures Leaves(s, Apply(s, step), id)
  {
  }

  lemma WorkersLeave(s: State, step: Step, id: Id)
    requires Orderly(s, step) && ByWorker(step)
    ensures Leaves(s, Apply(s, step), id)
  {
    if step.StartRun? {
      StartRunLeaves(s, step, id);
    } else if step.InitStart? {
      InitStartLeaves(s, step, id);
    } else if step.ContStart? {
      ContStartLeaves(s, step, id);
    } else if step.Finish? || step.CheckedFinish? {
      FinishersLeave(s, step, id);
    } else if step.Sink? {
      SinkLeaves(s, step, id);
    } else {
      OthersDoNotWrite(s, step);
    }
  }

  lemma CallersLeave(s: State, step: Step, id: Id)
    requires Orderly(s, step) && ByCaller(step)
    ensures Leaves(s, Apply(s, step), id)
  {
    if step.SubmitAdd? || step.SubmitRollback? {
      SubmittersLeave(s, step, id);
    } else {
      OthersDoNotWrite(s, step);
    }
  }

  /** A close leaves the flag alone unless it stops a task that it had read as queued and that is so no more. */
  lemma CloseLeaves(s: State, i: Id, seen: Task, dockerOk: bool, now: int, wrote: bool, id: Id)
    requires i in s.tasks ==> Tame(s.tasks[i])
    requires !wrote || seen.status != Queued || (i in s.tasks && s.tasks[i].status == Queued) || i != id
    ensures Leaves(s, CloseWrite(s, i, seen, dockerOk, now, wrote), id)
  {
  }

  lemma CleanLeaves(s: State, i: Id, seen: Task, step: Step, id: Id)
    requires (step.Clean? || step.CleanMark?) && (i in s.tasks ==> Tame(s.tasks[i]))
    ensures Leaves(s, CleanWrite(s, i, seen, step.live, step.expired, step.dockerOk, step.now, step.wrote), id)
  {
  }

  lemma ClosersLeave(s: State, step: Step, id: Id)
    requires Orderly(s, step) && (step.Close? || step.Clean? || step.CleanMark?)
    ensures Leaves(s, Apply(s, step), id)
  {
    if Apply(s, step).tasks != s.tasks {
      if step.Close? {
        CloseLeaves(s.Freed(step.id), step.id, s.tasks[step.id], step.dockerOk, step.now, step.wrote, id);
      } else if step.Clean? {
        CleanLeaves(s, step.id, s.tasks[step.id], step, id);
      } else {
        CleanLeaves(s, s.At(step.t).id, s.At(step.t).seen, step, id);
      }
    }
  }

  lemma NotesLeave(s: State, step: Step, id: Id)
    requires Notes(step)
    ensures Leaves(s, Apply(s, step), id)
  {
  }

  /** What the two steps do that do not leave flags alone: clearing, and a close whose reading is out of date. */
  ghost predicate Moves(s: State, step: Step, id: Id)
    requires id in s.tasks && id in Apply(s, step).tasks
  {
    var t, u := s.tasks[id], Apply(s, step).tasks[id];
    && (Flagless(u) <==>
        HalfClears(s, step, id) || (Flagless(t) && !Clears(step, id) && !StopsRead(s, step, id)))
    && (Stray(u) <==> (StopsRead(s, step, id) && t.flag.Some?) || (Stray(t) && !Unflags(s, step, id)))
  }

  lemma ClearingMoves(s: State, step: Step, id: Id)
    requires step.ClearResults? && id in s.tasks && id in Apply(s, step).tasks
    ensures Moves(s, step, id)
  {
  }

  lemma ClosingMoves(s: State, step: Step, id: Id)
    requires Orderly(s, step) && step.CloseMark? && id in s.tasks && id in Apply(s, step).tasks
    ensures Moves(s, step, id)
  {
    var pc := s.At(step.t);
    if pc.ClosingFreed? {
      assert Apply(s, step).tasks == CloseWrite(s, pc.id, pc.seen, step.dockerOk, step.now, step.wrote).tasks;
      if StopsRead(s, step, id) {
        assert Apply(s, step).tasks[id] == MarkStopped(s.tasks[id], step.now, TASK_STOPPED_MESSAGE);
      } else {
        CloseLeaves(s, pc.id, pc.seen, step.dockerOk, step.now, step.wrote, id);
      }
    }
  }

  lemma OthersLeave(s: State, step: Step, id: Id)
    requires Orderly(s, step) && !step.ClearResults? && !step.CloseMark?
    ensures Leaves(s, Apply(s, step), id)
  {
    if ByCaller(step) {
      CallersLeave(s, step, id);
    } else if ByWorker(step) {
      WorkersLeave(s, step, id);
    } else if step.Close? || step.Clean? || step.CleanMark? {
      ClosersLeave(s, step, id);
    } else if Notes(step) {
      NotesLeave(s, step, id);
    } else {
      OthersDoNotWrite(s, step);
    }
  }

  lemma NoNewTask(s: State, step: Step, id: Id)
    requires (step.ClearResults? || step.CloseMark?) && id in Apply(s, step).tasks
    ensures id in s.tasks
  {
  }

  /** One step. */
  lemma FlagStep(s: State, step: Step, id: Id)
    requires Orderly(s, step) && id in Apply(s, step).tasks
    ensures id in s.tasks ==> Moves(s, step, id)
    ensures id !in s.tasks ==> Coupled(Apply(s, step).tasks[id])
  {
    if step.ClearResults? || step.CloseMark? {
      NoNewTask(s, step, id);
      if step.ClearResults? {
        ClearingMoves(s, step, id);
      } else {
        ClosingMoves(s, step, id);
      }
    } else {
      OthersLeave(s, step, id);
    }
  }

  /** A condition that steps set and reset holds in the end exactly if it was set, at first or by some step, and not
      reset since. */
  lemma {:induction false} Latch(x: nat -> bool, sets: nat -> bool, resets: nat -> bool, n: nat)
    requires forall i: nat | i < n :: x(i + 1) <==> sets(i) || (x(i) && !resets(i))
    ensures x(n) <==> || (x(0) && forall j: nat | j < n :: !resets(j))
                      || exists i: nat | i < n :: sets(i) && forall j | i < j < n :: !resets(j)
  {
    if n > 0 {
      Latch(x, sets, resets, n - 1);
      assert x(n - 1 + 1) <==> sets(n - 1) || (x(n - 1) && !resets(n - 1));
    }
  }

  ghost predicate IsFlagless(s: State, steps: seq<Step>, id: Id, i: nat) {
    i <= |steps| && id in Run(s, steps[..i]).tasks && Flagless(Run(s, steps[..i]).tasks[id])
  }

  ghost predicate IsStray(s: State, steps: seq<Step>, id: Id, i: nat) {
    i <= |steps| && id in Run(s, steps[..i]).tasks && Stray(Run(s, steps[..i]).tasks[id])
  }

  /** One step of a run. */
  lemma {:induction false} FlagLink(s: State, steps: seq<Step>, id: Id, i: nat)
    requires i < |steps| && Orderly(Run(s, steps[..i]), steps[i])
    ensures IsFlagless(s, steps, id, i + 1) <==>
            Loses(s, steps, id, i) || (IsFlagless(s, steps, id, i) && !Mends(s, steps, id, i))
    ensures IsStray(s, steps, id, i + 1) <==>
            Strands(s, steps, id, i) || (IsStray(s, steps, id, i) && !Collects(s, steps, id, i))
  {
    var r, step := Run(s, steps[..i]), steps[i];
    assert steps[..i + 1] == steps[..i] + [step];
    RunMore(s, steps[..i], step);
    if id in r.tasks {
      StepKeepsTask(r, step, id);
      FlagStep(r, step, id);
    } else if id in Apply(r, step).tasks {
      FlagStep(r, step, id);
    }
  }

  lemma {:induction false} LostRun(s: State, steps: seq<Step>, id: Id)
    requires forall i | 0 <= i < |steps| :: Orderly(Run(s, steps[..i]), steps[i])
    ensures IsFlagless(s, steps, id, |steps|) <==>
            || (IsFlagless(s, steps, id, 0) && forall j: nat | j < |steps| :: !Mends(s, steps, id, j))
            || exists i: nat | i < |steps| ::
                 Loses(s, steps, id, i) && forall j | i < j < |steps| :: !Mends(s, steps, id, j)
  {
    var x, sets, resets :=
      (i: nat) => IsFlagless(s, steps, id, i), (i: nat) => Loses(s, steps, id, i), (i: nat) => Mends(s, steps, id, i);
    forall i: nat | i < |steps| ensures x(i + 1) <==> sets(i) || (x(i) && !resets(i)) {
      FlagLink(s, steps, id, i);
    }
    Latch(x, sets, resets, |steps|);
    assert forall i: nat :: sets(i) == Loses(s, steps, id, i) && resets(i) == Mends(s, steps, id, i);
  }

  lemma {:induction false} StrayRun(s: State, steps: seq<Step>, id: Id)
    requires forall i | 0 <= i < |steps| :: Orderly(Run(s, steps[..i]), steps[i])
    ensures IsStray(s, steps, id, |steps|) <==>
            || (IsStray(s, steps, id, 0) && forall j: nat | j < |steps| :: !Collects(s, steps, id, j))
            || exists i: nat | i < |steps| ::
                 Strands(s, steps, id, i) && forall j | i < j < |steps| :: !Collects(s, steps, id, j)
  {
    var x, sets, resets :=
      (i: nat) => IsStray(s, steps, id, i), (i: nat) => Strands(s, steps, id, i), (i: nat) => Collects(s, steps, id, i);
    forall i: nat | i < |steps| ensures x(i + 1) <==> sets(i) || (x(i) && !resets(i)) {
      FlagLink(s, steps, id, i);
    }
    Latch(x, sets, resets, |steps|);
    assert forall i: nat :: sets(i) == Strands(s, steps, id, i) && resets(i) == Collects(s, steps, id, i);
  }

  /** A whole run. */
  lemma {:induction false} FlagRun(s: State, steps: seq<Step>, id: Id)
    requires forall i | 0 <= i < |steps| :: Orderly(Run(s, steps[..i]), steps[i])
    requires id in Run(s, steps).tasks
    ensures Flagless(Run(s, steps).tasks[id]) <==> FlagIsLost(s, steps, id)
    ensures Stray(Run(s, steps).tasks[id]) <==> FlagIsStray(s, steps, id)
  {
    LostRun(s, steps, id);
    StrayRun(s, steps, id);
    assert steps[..0] == [] && Run(s, []) == s && steps[..|steps|] == steps;
  }
}
