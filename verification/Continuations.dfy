/** Where the work on a task comes from, in every interleaving of every step: each run of a worker goes back to a check
    that found the task queued, or that found everything a continuation needs. */
module Continuations {
  import opened Dispatcher
  import opened Tasks
  import Text

  /** The thread is past the check of such an entry, up to its terminal mark. */
  predicate Works(pc: Pc, id: Id, origin: Origin) {
    || (pc.InitChecked? && origin == Initial && pc.id == id)
    || (pc.ContChecked? && origin == Continuation && pc.id == id)
    || ((pc.Executing? || pc.Marking?) && pc.origin == origin && pc.id == id)
  }

  /** The thread is about to make that check. */
  predicate Awaits(pc: Pc, id: Id, origin: Origin) {
    if origin == Initial then pc.InitPicked? && pc.id == id else pc.ContPicked? && pc.id == id
  }

  /** A task that was submitted and never run since; or one that rests with a kept container, its name, and a session
      that has a visible character. */
  ghost predicate Ready(t: Task, origin: Origin) {
    if origin == Initial then t.status == Queued
    else t.status != Queued && t.status != Running
         && t.containerKept && t.containerName != "" && exists c | c in t.session :: !Text.GoSpace(c)
  }

  /** A worker goes to work only by its own step, and on a task that is ready. */
  lemma WorkStartsReady(s: State, step: Step, t: Thread, id: Id, origin: Origin)
    requires Works(Apply(s, step).At(t), id, origin) && !Works(s.At(t), id, origin)
    ensures ByWorker(step) && step.t == t && Awaits(s.At(t), id, origin)
    ensures id in s.tasks && Ready(s.tasks[id], origin)
  {
    if step.InitCheck? || step.ContCheck? {
      ChecksFindReady(s, step, t, id, origin);
    } else if step.InitStart? {
      InitStartFindsReady(s, step, t, id, origin);
    } else if step.ContStart? {
      ContStartFindsReady(s, step, t, id, origin);
    } else if step.Sink? || step.StopCheck? {
      ReportersStay(s, step, t, id, origin);
    } else if step.Finish? || step.CheckedFinish? {
      FinishersStay(s, step, t, id, origin);
    } else if step.StartRun? {
      StartRunStays(s, step, t, id, origin);
    } else if ByWorker(step) {
      IdlersStay(s, step, t, id, origin);
    } else if step.SubmitAdd? || step.SubmitEnqueue? || step.SubmitRollback? {
      SubmittersStay(s, step, t, id, origin);
    } else if ByCaller(step) {
      SendersStay(s, step, t, id, origin);
    } else if CloseStep(step) {
      ClosesStay(s, step, t, id, origin);
    } else if ByCloser(step) {
      CleansStay(s, step, t, id, origin);
    }
  }

  lemma ChecksFindReady(s: State, step: Step, t: Thread, id: Id, origin: Origin)
    requires step.InitCheck? || step.ContCheck?
    requires Works(Apply(s, step).At(t), id, origin) && !Works(s.At(t), id, origin)
    ensures step.t == t && Awaits(s.At(t), id, origin) && id in s.tasks && Ready(s.tasks[id], origin)
  {
    if id in s.tasks {
      ContinuableIsResumable(s.tasks[id]);
    }
  }

  lemma InitStartFindsReady(s: State, step: Step, t: Thread, id: Id, origin: Origin)
    requires step.InitStart? && Works(Apply(s, step).At(t), id, origin) && !Works(s.At(t), id, origin)
    ensures step.t == t && Awaits(s.At(t), id, origin) && id in s.tasks && Ready(s.tasks[id], origin)
  {
  }

  lemma ContStartFindsReady(s: State, step: Step, t: Thread, id: Id, origin: Origin)
    requires step.ContStart? && Works(Apply(s, step).At(t), id, origin) && !Works(s.At(t), id, origin)
    ensures step.t == t && Awaits(s.At(t), id, origin) && id in s.tasks && Ready(s.tasks[id], origin)
  {
    if id in s.tasks {
      ContinuableIsResumable(s.tasks[id]);
    }
  }

  lemma ReportersStay(s: State, step: Step, t: Thread, id: Id, origin: Origin)
    requires (step.Sink? || step.StopCheck?) && Works(Apply(s, step).At(t), id, origin)
    ensures Works(s.At(t), id, origin)
  {
  }

  lemma FinishersStay(s: State, step: Step, t: Thread, id: Id, origin: Origin)
    requires (step.Finish? || step.CheckedFinish?) && Works(Apply(s, step).At(t), id, origin)
    ensures Works(s.At(t), id, origin)
  {
  }

  lemma StartRunStays(s: State, step: Step, t: Thread, id: Id, origin: Origin)
    requires step.StartRun? && Works(Apply(s, step).At(t), id, origin)
    ensures Works(s.At(t), id, origin)
  {
    var pc := s.At(step.t);
    if pc.InitChecked? || pc.ContChecked? {
      StartStays(s, step.t, pc.id, if pc.InitChecked? then Initial else Continuation, step.now, step.wrote, t);
    }
  }

  lemma StartStays(s: State, starter: Thread, id: Id, origin: Origin, now: int, wrote: bool, t: Thread)
    ensures var pc := Start(s, starter, id, origin, now, wrote).At(t);
            if t != starter then pc == s.At(t) else pc == Executing(id, origin, false) || pc.Idle? || pc.Releasing?
  {
  }

  lemma IdlersStay(s: State, step: Step, t: Thread, id: Id, origin: Origin)
    requires step.Dequeue? || step.Take? || step.Release?
    requires Works(Apply(s, step).At(t), id, origin)
    ensures Works(s.At(t), id, origin)
  {
  }

  lemma SubmittersStay(s: State, step: Step, t: Thread, id: Id, origin: Origin)
    requires (step.SubmitAdd? || step.SubmitEnqueue? || step.SubmitRollback?)
             && Works(Apply(s, step).At(t), id, origin)
    ensures Works(s.At(t), id, origin)
  {
  }

  lemma SendersStay(s: State, step: Step, t: Thread, id: Id, origin: Origin)
    requires (step.SendCheck? || step.SendReserve? || step.SendEnqueue? || step.SendRollback?)
             && Works(Apply(s, step).At(t), id, origin)
    ensures Works(s.At(t), id, origin)
  {
  }

  lemma ClosesStay(s: State, step: Step, t: Thread, id: Id, origin: Origin)
    requires CloseStep(step) && Works(Apply(s, step).At(t), id, origin)
    ensures Works(s.At(t), id, origin)
  {
  }

  lemma CleansStay(s: State, step: Step, t: Thread, id: Id, origin: Origin)
    requires (step.CleanGet? || step.CleanMark? || step.Clean?) && Works(Apply(s, step).At(t), id, origin)
    ensures Works(s.At(t), id, origin)
  {
  }

  /** A continuation is checked exactly by those fields: it goes on, or gives its slot up. */
  lemma ContinuationsAreChecked(s: State, t: Thread)
    requires s.At(t).ContPicked?
    ensures var id := s.At(t).id;
            Apply(s, ContCheck(t)).At(t)
            == if id in s.tasks && Ready(s.tasks[id], Continuation) then ContChecked(id, s.At(t).message)
               else Releasing(id)
  {
    if s.At(t).id in s.tasks {
      ContinuableIsResumable(s.tasks[s.At(t).id]);
    }
  }

  /** And so is the send that asks for one. */
  lemma SendsAreChecked(s: State, t: Thread, id: Id, message: string)
    requires s.At(t).Idle?
    ensures Apply(s, SendCheck(t, id, message)).At(t)
            == if id in s.tasks && message != "" && Ready(s.tasks[id], Continuation) then SendChecked(id, message)
               else Idle
  {
    if id in s.tasks {
      ContinuableIsResumable(s.tasks[id]);
    }
  }

  /** In every run, whatever its steps: a thread that works on an entry after n of them, and did not at first, has at
      some moment awaited its check with the task ready, and worked on that entry ever since. */
  lemma {:induction false} WorkComesFromReadyTasks(s: State, steps: seq<Step>, n: nat, t: Thread, id: Id,
                                                   origin: Origin)
    returns (i: nat)
    requires n <= |steps| && Works(Run(s, steps[..n]).At(t), id, origin) && !Works(s.At(t), id, origin)
    ensures i < n
    ensures var before := Run(s, steps[..i]);
            Awaits(before.At(t), id, origin) && id in before.tasks && Ready(before.tasks[id], origin)
    ensures forall j | i < j <= n :: Works(Run(s, steps[..j]).At(t), id, origin)
  {
    if n > 0 {
      RunNext(s, steps, n);
      if Works(Run(s, steps[..n - 1]).At(t), id, origin) {
        i := WorkComesFromReadyTasks(s, steps, n - 1, t, id, origin);
      } else {
        WorkStartsReady(Run(s, steps[..n - 1]), steps[n - 1], t, id, origin);
        i := n - 1;
      }
    }
  }
}
