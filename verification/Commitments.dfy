/** When exactly a task can come to be executed twice: a worker is committed to a task from its check on, and what
    counts is that no check succeeds while somebody else is committed. */
module Commitments {
  import opened Tasks
  import opened Dispatcher

  /** A worker that saw the task fit to run, or runs it. */
  predicate Committed(pc: Pc, id: Id) {
    Executes(pc, id) || ((pc.InitChecked? || pc.ContChecked?) && pc.id == id)
  }

  /** No two workers are committed to one task. */
  ghost predicate Uncontended(s: State) {
    forall t, u, id | Committed(s.At(t), id) && Committed(s.At(u), id) :: t == u
  }

  /** Workers are committed to tasks that there are. */
  ghost predicate Known(s: State) {
    forall t, id | Committed(s.At(t), id) :: id in s.tasks
  }

  /** A step that looks whether a task is fit to run. */
  predicate Checks(step: Step) {
    step.InitCheck? || step.ContCheck? || step.InitStart? || step.ContStart?
  }

  predicate WithoutChecks(steps: seq<Step>) {
    forall i | 0 <= i < |steps| :: !Checks(steps[i])
  }

  /** The step commits its thread to no task that it was not committed to before. */
  ghost predicate CommitsNobody(s: State, r: State) {
    && (forall t, id | Committed(r.At(t), id) :: Committed(s.At(t), id))
    && (forall id | id in s.tasks :: id in r.tasks)
  }

  /** One thread moves on, to a task that it was committed to before if it is committed to any. */
  ghost predicate OneMoves(s: State, r: State, t: Thread) {
    && (r.threads == s.threads || r.threads == s.threads[t := r.At(t)])
    && forall id | Committed(r.At(t), id) :: Committed(s.At(t), id)
  }

  lemma MoverCommitsNobody(s: State, r: State, t: Thread)
    requires OneMoves(s, r, t) && forall id | id in s.tasks :: id in r.tasks
    ensures CommitsNobody(s, r)
  {
    forall u, id | Committed(r.At(u), id) ensures Committed(s.At(u), id) {
      if u != t {
        assert r.At(u) == s.At(u);
      }
    }
  }

  lemma SubmittersCommitNobody(s: State, step: Step)
    requires step.SubmitAdd? || step.SubmitEnqueue? || step.SubmitRollback?
    ensures OneMoves(s, Apply(s, step), step.t)
  {
  }

  lemma SendersCommitNobody(s: State, step: Step)
    requires step.SendCheck? || step.SendReserve? || step.SendEnqueue? || step.SendRollback?
    ensures OneMoves(s, Apply(s, step), step.t)
  {
  }

  lemma FetchersCommitNobody(s: State, step: Step)
    requires step.Dequeue? || step.Take? || step.Release?
    ensures OneMoves(s, Apply(s, step), step.t)
  {
  }

  lemma StopCheckCommitsNobody(s: State, step: Step)
    requires step.StopCheck?
    ensures OneMoves(s, Apply(s, step), step.t)
  {
  }

  lemma StartRunCommitsNobody(s: State, step: Step)
    requires step.StartRun?
    ensures OneMoves(s, Apply(s, step), step.t)
  {
  }

  lemma SinkCommitsNobody(s: State, step: Step)
    requires step.Sink?
    ensures OneMoves(s, Apply(s, step), step.t)
  {
  }

  lemma FinishCommitsNobody(s: State, step: Step)
    requires step.Finish?
    ensures OneMoves(s, Apply(s, step), step.t)
  {
  }

  lemma CheckedFinishCommitsNobody(s: State, step: Step)
    requires step.CheckedFinish?
    ensures OneMoves(s, Apply(s, step), step.t)
  {
  }

  lemma ClosersCommitNobody(s: State, step: Step)
    requires step.CloseGet? || step.CloseFree? || step.CloseMark? || step.CleanGet? || step.CleanMark?
    ensures OneMoves(s, Apply(s, step), step.t)
  {
  }

  lemma OthersMoveNobody(s: State, step: Step)
    requires step.Close? || step.Clean? || Notes(step) || step.ClearResults?
    ensures Apply(s, step).threads == s.threads
  {
  }

  lemma MoversCommitNobody(s: State, step: Step)
    requires !Checks(step) && (ByCaller(step) || ByWorker(step))
    ensures OneMoves(s, Apply(s, step), step.t)
  {
    if step.SubmitAdd? || step.SubmitEnqueue? || step.SubmitRollback? {
      SubmittersCommitNobody(s, step);
    } else if ByCaller(step) {
      SendersCommitNobody(s, step);
    } else if step.StartRun? {
      StartRunCommitsNobody(s, step);
    } else if step.Sink? {
      SinkCommitsNobody(s, step);
    } else if step.Finish? {
      FinishCommitsNobody(s, step);
    } else if step.CheckedFinish? {
      CheckedFinishCommitsNobody(s, step);
    } else if step.StopCheck? {
      StopCheckCommitsNobody(s, step);
    } else {
      FetchersCommitNobody(s, step);
    }
  }

  lemma TasksStay(s: State, step: Step)
    ensures forall id | id in s.tasks :: id in Apply(s, step).tasks
  {
    forall id | id in s.tasks ensures id in Apply(s, step).tasks {
      StepKeepsTask(s, step, id);
    }
  }

  lemma UncheckedCommitsNobody(s: State, step: Step)
    requires !Checks(step)
    ensures CommitsNobody(s, Apply(s, step))
  {
    TasksStay(s, step);
    if step.Close? || step.Clean? || Notes(step) || step.ClearResults? {
      OthersMoveNobody(s, step);
      SameThreads(s, Apply(s, step));
    } else {
      if ByCloser(step) {
        ClosersCommitNobody(s, step);
      } else {
        MoversCommitNobody(s, step);
      }
      MoverCommitsNobody(s, Apply(s, step), step.t);
    }
  }

  lemma SameThreads(s: State, r: State)
    requires r.threads == s.threads && forall id | id in s.tasks :: id in r.tasks
    ensures CommitsNobody(s, r)
  {
    forall u, id | Committed(r.At(u), id) ensures Committed(s.At(u), id) {
      assert r.At(u) == s.At(u);
    }
  }

  lemma FewerStayUncontended(s: State, r: State)
    requires Uncontended(s) && CommitsNobody(s, r)
    ensures Uncontended(r)
  {
    forall t, u, id | Committed(r.At(t), id) && Committed(r.At(u), id) ensures t == u {
      assert Committed(s.At(t), id) && Committed(s.At(u), id);
    }
  }

  lemma ExecutorsAreCommitted(s: State)
    requires Uncontended(s)
    ensures MutualExclusion(s)
  {
    forall t, u, id | Executes(s.At(t), id) && Executes(s.At(u), id) ensures t == u {
      assert Committed(s.At(t), id) && Committed(s.At(u), id);
    }
  }

  lemma {:induction false} UncheckedRun(s: State, steps: seq<Step>)
    requires Uncontended(s) && WithoutChecks(steps)
    ensures MutualExclusion(Run(s, steps))
    decreases |steps|
  {
    if steps == [] {
      ExecutorsAreCommitted(s);
    } else {
      UncheckedCommitsNobody(s, steps[0]);
      FewerStayUncontended(s, Apply(s, steps[0]));
      UncheckedRun(Apply(s, steps[0]), steps[1..]);
    }
  }

  /** A committed worker starts if it has not yet. */
  lemma Starts(s: State, t: Thread, id: Id) returns (r: State)
    requires Committed(s.At(t), id) && id in s.tasks
    ensures r == Apply(s, StartRun(t, 0, true)) && Executes(r.At(t), id) && id in r.tasks
    ensures forall u | u != t :: r.At(u) == s.At(u)
  {
    r := Apply(s, StartRun(t, 0, true));
    if s.At(t).InitChecked? {
      assert r == s.Put(id, MarkRunning(s.tasks[id], 0)).Go(t, Executing(id, Initial, false));
    } else if s.At(t).ContChecked? {
      assert r == s.Put(id, MarkRunning(s.tasks[id], 0)).Go(t, Executing(id, Continuation, false));
    } else {
      assert r == s;
    }
  }

  lemma {:induction false} ContendersCollide(s: State, t: Thread, u: Thread, id: Id)
    requires t != u && Committed(s.At(t), id) && Committed(s.At(u), id) && id in s.tasks
    ensures !MutualExclusion(Run(s, [StartRun(t, 0, true), StartRun(u, 0, true)]))
  {
    var s1 := Starts(s, t, id);
    var s2 := Starts(s1, u, id);
    RunTwo(s, StartRun(t, 0, true), StartRun(u, 0, true));
    assert Executes(s2.At(t), id) && Executes(s2.At(u), id);
  }

  lemma InitCheckMovesOne(s: State, step: Step)
    requires step.InitCheck?
    ensures forall u | u != step.t :: Apply(s, step).At(u) == s.At(u)
  {
  }

  lemma ContCheckMovesOne(s: State, step: Step)
    requires step.ContCheck?
    ensures forall u | u != step.t :: Apply(s, step).At(u) == s.At(u)
  {
  }

  lemma InitStartMovesOne(s: State, step: Step)
    requires step.InitStart?
    ensures forall u | u != step.t :: Apply(s, step).At(u) == s.At(u)
  {
  }

  lemma ContStartMovesOne(s: State, step: Step)
    requires step.ContStart?
    ensures forall u | u != step.t :: Apply(s, step).At(u) == s.At(u)
  {
  }

  lemma CheckMovesOne(s: State, step: Step)
    requires Checks(step)
    ensures forall u | u != step.t :: Apply(s, step).At(u) == s.At(u)
  {
    if step.InitCheck? {
      InitCheckMovesOne(s, step);
    } else if step.ContCheck? {
      ContCheckMovesOne(s, step);
    } else if step.InitStart? {
      InitStartMovesOne(s, step);
    } else {
      ContStartMovesOne(s, step);
    }
  }

  lemma InitCheckIsKnown(s: State, step: Step)
    requires step.InitCheck? && Known(s)
    ensures forall id | Committed(Apply(s, step).At(step.t), id) :: id in s.tasks
  {
  }

  lemma ContCheckIsKnown(s: State, step: Step)
    requires step.ContCheck? && Known(s)
    ensures forall id | Committed(Apply(s, step).At(step.t), id) :: id in s.tasks
  {
  }

  lemma InitStartIsKnown(s: State, step: Step)
    requires step.InitStart? && Known(s)
    ensures forall id | Committed(Apply(s, step).At(step.t), id) :: id in s.tasks
  {
  }

  lemma ContStartIsKnown(s: State, step: Step)
    requires step.ContStart? && Known(s)
    ensures forall id | Committed(Apply(s, step).At(step.t), id) :: id in s.tasks
  {
  }

  lemma StepStaysKnown(s: State, step: Step)
    requires Known(s)
    ensures Known(Apply(s, step))
  {
    TasksStay(s, step);
    var r := Apply(s, step);
    if Checks(step) {
      CheckMovesOne(s, step);
      if step.InitCheck? {
        InitCheckIsKnown(s, step);
      } else if step.ContCheck? {
        ContCheckIsKnown(s, step);
      } else if step.InitStart? {
        InitStartIsKnown(s, step);
      } else {
        ContStartIsKnown(s, step);
      }
      OneMoverIsKnown(s, r, step.t);
    } else {
      UncheckedCommitsNobody(s, step);
    }
  }

  lemma OneMoverIsKnown(s: State, r: State, t: Thread)
    requires Known(s) && (forall u | u != t :: r.At(u) == s.At(u)) && forall id | id in s.tasks :: id in r.tasks
    requires forall id | Committed(r.At(t), id) :: id in s.tasks
    ensures Known(r)
  {
    forall u, id | Committed(r.At(u), id) ensures id in r.tasks {
      assert u != t ==> Committed(s.At(u), id);
    }
  }

  lemma {:induction false} RunStaysKnown(s: State, steps: seq<Step>)
    requires Known(s)
    ensures Known(Run(s, steps))
    decreases |steps|
  {
    if steps != [] {
      StepStaysKnown(s, steps[0]);
      RunStaysKnown(Apply(s, steps[0]), steps[1..]);
    }
  }

  /** In every reachable state: as long as nobody checks anew, whatever else happens, closing included, no task is
      executed twice, exactly if no two workers are committed to one task. */
  lemma {:induction false} CommitmentsDecide(s: State, before: seq<Step>)
    requires Fresh(s)
    ensures var r := Run(s, before);
            (forall steps | WithoutChecks(steps) :: MutualExclusion(Run(r, steps))) <==> Uncontended(r)
  {
    var r := Run(s, before);
    RunStaysKnown(s, before);
    if Uncontended(r) {
      forall steps | WithoutChecks(steps) ensures MutualExclusion(Run(r, steps)) {
        UncheckedRun(r, steps);
      }
    } else {
      var t, u, id :| Committed(r.At(t), id) && Committed(r.At(u), id) && t != u;
      var steps := [StartRun(t, 0, true), StartRun(u, 0, true)];
      ContendersCollide(r, t, u, id);
      assert WithoutChecks(steps) && !MutualExclusion(Run(r, steps));
    }
  }

  // ---- whole runs ----

  /** If the step is a check that succeeds, nobody else is committed to the task. */
  ghost predicate ChecksAlone(s: State, step: Step) {
    Checks(step) ==>
      forall u, id | u != step.t && Committed(s.At(u), id) :: !Committed(Apply(s, step).At(step.t), id)
  }

  lemma StepStaysUncontended(s: State, step: Step)
    requires Uncontended(s)
    ensures Uncontended(Apply(s, step)) <==> ChecksAlone(s, step)
  {
    var r := Apply(s, step);
    if Checks(step) {
      CheckMovesOne(s, step);
      OneMoverContends(s, r, step.t);
    } else {
      UncheckedCommitsNobody(s, step);
      FewerStayUncontended(s, r);
    }
  }

  lemma OneMoverContends(s: State, r: State, t: Thread)
    requires Uncontended(s) && forall u | u != t :: r.At(u) == s.At(u)
    ensures Uncontended(r) <==> forall u, id | u != t && Committed(s.At(u), id) :: !Committed(r.At(t), id)
  {
    if Uncontended(r) {
      forall u, id | u != t && Committed(s.At(u), id) ensures !Committed(r.At(t), id) {
        assert Committed(r.At(u), id);
      }
    } else {
      var v, w, id :| Committed(r.At(v), id) && Committed(r.At(w), id) && v != w;
      var u := if v == t then w else v;
      assert u != t && Committed(s.At(u), id);
    }
  }

  /** What holds at first, and after each step exactly if the step is sound, holds throughout exactly if all steps
      are. */
  lemma {:induction false} Throughout(x: nat -> bool, sound: nat -> bool, n: nat)
    requires x(0) && forall i: nat | i < n && x(i) :: x(i + 1) <==> sound(i)
    ensures (forall i: nat | i <= n :: x(i)) <==> forall i: nat | i < n :: sound(i)
  {
    if n > 0 {
      Throughout(x, sound, n - 1);
      assert x(n - 1) ==> (x(n - 1 + 1) <==> sound(n - 1));
    }
  }

  ghost predicate UncontendedAt(s: State, steps: seq<Step>, i: nat) {
    i <= |steps| ==> Uncontended(Run(s, steps[..i]))
  }

  ghost predicate SoundAt(s: State, steps: seq<Step>, i: nat) {
    i < |steps| ==> ChecksAlone(Run(s, steps[..i]), steps[i])
  }

  lemma SoundStep(s: State, steps: seq<Step>, i: nat)
    requires i < |steps| && UncontendedAt(s, steps, i)
    ensures UncontendedAt(s, steps, i + 1) <==> SoundAt(s, steps, i)
  {
    assert steps[..i + 1] == steps[..i] + [steps[i]];
    RunMore(s, steps[..i], steps[i]);
    StepStaysUncontended(Run(s, steps[..i]), steps[i]);
  }

  /** Throughout a run no two workers are committed to one task, exactly if every check of it that succeeds finds nobody
      else committed. */
  lemma {:induction false} ContentionComesFromChecks(s: State, steps: seq<Step>)
    requires Uncontended(s)
    ensures (forall i | 0 <= i <= |steps| :: Uncontended(Run(s, steps[..i]))) <==>
            (forall i | 0 <= i < |steps| :: ChecksAlone(Run(s, steps[..i]), steps[i]))
  {
    assert steps[..0] == [] && Run(s, []) == s;
    var x, sound := (i: nat) => UncontendedAt(s, steps, i), (i: nat) => SoundAt(s, steps, i);
    forall i: nat | i < |steps| && x(i) ensures x(i + 1) <==> sound(i) {
      SoundStep(s, steps, i);
    }
    Throughout(x, sound, |steps|);
    SpelledOut(s, steps);
    assert forall i: nat :: x(i) == UncontendedAt(s, steps, i) && sound(i) == SoundAt(s, steps, i);
  }

  lemma SpelledOut(s: State, steps: seq<Step>)
    ensures (forall i: nat | i <= |steps| :: UncontendedAt(s, steps, i)) <==>
            forall i | 0 <= i <= |steps| :: Uncontended(Run(s, steps[..i]))
    ensures (forall i: nat | i < |steps| :: SoundAt(s, steps, i)) <==>
            forall i | 0 <= i < |steps| :: ChecksAlone(Run(s, steps[..i]), steps[i])
  {
    if forall i: nat | i <= |steps| :: UncontendedAt(s, steps, i) {
      forall i | 0 <= i <= |steps| ensures Uncontended(Run(s, steps[..i])) {
        assert UncontendedAt(s, steps, i);
      }
    }
    if forall i: nat | i < |steps| :: SoundAt(s, steps, i) {
      forall i | 0 <= i < |steps| ensures ChecksAlone(Run(s, steps[..i]), steps[i]) {
        assert SoundAt(s, steps, i);
      }
    }
  }
}
