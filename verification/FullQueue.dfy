/** New submissions can always fill the queue, and a submission that meets a full queue fails its task. */
module FullQueue {
  import opened Options
  import opened Tasks
  import opened Dispatcher

  lemma {:induction false} NewThread(used: set<Thread>, from: Thread) returns (t: Thread)
    ensures t >= from && t !in used
    decreases |used|
  {
    t := from;
    if t in used {
      t := NewThread(used - {from}, from + 1);
    }
  }

  function Name(n: nat): (id: Id)
    ensures |id| == n
  {
    seq(n, _ => 'a')
  }

  lemma {:induction false} NewId(used: set<Id>, n: nat) returns (id: Id)
    ensures |id| >= n && id !in used
    decreases |used|
  {
    id := Name(n);
    if id in used {
      id := NewId(used - {id}, n + 1);
    }
  }

  function NewTask(id: Id): Task {
    Task(CURRENT_SCHEMA, id, Challenge("", "", "", "", 0), "", Queued, None, None, None, "", "", "", false, "", 0,
        None, None, 0)
  }

  predicate Submissions(steps: seq<Step>) {
    forall i | 0 <= i < |steps| :: steps[i].SubmitAdd? || steps[i].SubmitEnqueue?
  }

  /** `r` is `s` but for thread `u`, new tasks, and a longer queue. */
  ghost predicate Extends(s: State, r: State, u: Thread) {
    && (forall t | t != u :: r.At(t) == s.At(t)) && r.At(u).Idle? && r.capacity == s.capacity
    && forall id | id in s.tasks :: id in r.tasks && r.tasks[id] == s.tasks[id]
  }

  lemma SubmitsOne(s: State, u: Thread, id: Id) returns (r: State)
    requires s.At(u).Idle? && id !in s.tasks && |s.queue| < s.capacity
    ensures r == Run(s, [SubmitAdd(u, id, NewTask(id)), SubmitEnqueue(u)])
    ensures Extends(s, r, u) && |r.queue| == |s.queue| + 1
  {
    var s1 := Apply(s, SubmitAdd(u, id, NewTask(id)));
    assert s1 == s.Put(id, NewTask(id)).Go(u, Submitting(id));
    r := Apply(s1, SubmitEnqueue(u));
    assert r == s1.(queue := s.queue + [Entry(id, Initial)]).Go(u, Idle);
    RunTwo(s, SubmitAdd(u, id, NewTask(id)), SubmitEnqueue(u));
  }

  /** Submissions of new tasks by an idle thread fill the queue. */
  lemma {:induction false} Fills(s: State, u: Thread) returns (steps: seq<Step>)
    requires s.At(u).Idle?
    ensures Submissions(steps) && Extends(s, Run(s, steps), u) && |Run(s, steps).queue| >= s.capacity
    decreases s.capacity - |s.queue|
  {
    if |s.queue| < s.capacity {
      var id := NewId(s.tasks.Keys, 0);
      var first := [SubmitAdd(u, id, NewTask(id)), SubmitEnqueue(u)];
      var r := SubmitsOne(s, u, id);
      var rest := Fills(r, u);
      RunConcat(s, first, rest);
      steps := first + rest;
      assert forall i | 2 <= i < |steps| :: steps[i] == rest[i - 2];
    } else {
      steps := [];
    }
  }

  lemma Refused(s: State, t: Thread, id: Id) returns (r: State)
    requires s.At(t) == Submitting(id) && |s.queue| >= s.capacity && id in s.tasks
    ensures r == Run(s, [SubmitEnqueue(t), SubmitRollback(t, 0, true)])
    ensures id in r.tasks && r.tasks[id].lastStep == TASK_QUEUE_FULL_MESSAGE
  {
    var s1 := Apply(s, SubmitEnqueue(t));
    assert s1 == s.Go(t, SubmitFull(id));
    r := Apply(s1, SubmitRollback(t, 0, true));
    assert r == s1.Put(id, MarkFailed(s1.tasks[id], 0, TASK_QUEUE_FULL_MESSAGE)).Go(t, Idle);
    RunTwo(s, SubmitEnqueue(t), SubmitRollback(t, 0, true));
  }

  /** A submission that is not over can still fail its task, whatever became of it. */
  lemma {:induction false} CanFail(s: State, t: Thread, id: Id) returns (steps: seq<Step>)
    requires (s.At(t) == Submitting(id) || s.At(t) == SubmitFull(id)) && id in s.tasks
    ensures forall i | 0 <= i < |steps| :: steps[i].SubmitAdd? || steps[i].SubmitEnqueue? || steps[i].SubmitRollback?
    ensures id in Run(s, steps).tasks && Run(s, steps).tasks[id].lastStep == TASK_QUEUE_FULL_MESSAGE
  {
    if s.At(t).SubmitFull? {
      steps := [SubmitRollback(t, 0, true)];
      RunOne(s, steps[0]);
      assert Apply(s, steps[0]) == s.Put(id, MarkFailed(s.tasks[id], 0, TASK_QUEUE_FULL_MESSAGE)).Go(t, Idle);
    } else {
      var u := NewThread(s.threads.Keys, 0);
      var fill := Fills(s, u);
      var refuse := [SubmitEnqueue(t), SubmitRollback(t, 0, true)];
      var r := Refused(Run(s, fill), t, id);
      RunConcat(s, fill, refuse);
      steps := fill + refuse;
      assert forall i | 0 <= i < |steps| :: steps[i] == if i < |fill| then fill[i] else refuse[i - |fill|];
    }
  }
}
