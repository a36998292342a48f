/** What the dispatcher does not promise when every lock section is a step of its own: runs in which a close that fails,
    or comes between a check and the write it guards, breaks what the coarser granularities keep. */
module DispatcherRaces {
  import opened Names
  import opened Options
  import opened Tasks
  import opened Dispatcher
  import Text

  /** A sender reserves the slot and enqueues its continuation. */
  lemma Sends(r: State, sender: Thread, id: Id, message: string) returns (e: State)
    requires r.At(sender).Idle? && id in r.tasks && Continuable(r.tasks[id]) && id !in r.busy
    requires r.queue == [] && 0 < r.capacity && message != ""
    ensures e == Run(r, [SendCheck(sender, id, message), SendReserve(sender), SendEnqueue(sender)])
    ensures e.tasks == r.tasks && e.busy == r.busy + {id} && e.queued == r.queued[id := message]
    ensures e.queue == [Entry(id, Continuation)] && e.capacity == r.capacity
    ensures forall u :: e.At(u) == if u == sender then Idle else r.At(u)
  {
    var r1 := Apply(r, SendCheck(sender, id, message));
    assert r1 == r.Go(sender, SendChecked(id, message));
    var r2 := Apply(r1, SendReserve(sender));
    assert r2 == r1.(busy := r1.busy + {id}, queued := r1.queued[id := message]).Go(sender, SendReserved(id, message));
    e := Apply(r2, SendEnqueue(sender));
    assert e == r2.(queue := [Entry(id, Continuation)], accepted := Append(r2.accepted, id, message)).Go(sender, Idle);
    RunThree(r, SendCheck(sender, id, message), SendReserve(sender), SendEnqueue(sender));
  }

  /** A worker dequeues the continuation and takes its message. */
  lemma Fetches(r: State, worker: Thread, id: Id) returns (e: State)
    requires r.At(worker).Idle? && r.queue == [Entry(id, Continuation)] && id in r.queued
    ensures e == Run(r, [Dequeue(worker), Take(worker)])
    ensures e.tasks == r.tasks && e.busy == r.busy && e.queue == [] && e.capacity == r.capacity
    ensures forall u :: e.At(u) == if u == worker then ContPicked(id, r.queued[id]) else r.At(u)
  {
    var r1 := Apply(r, Dequeue(worker));
    assert r1 == r.(queue := []).Go(worker, Popped(id, Continuation));
    e := Apply(r1, Take(worker));
    assert e == r1.(queued := r1.queued - {id}, taken := Append(r1.taken, id, r1.queued[id]))
                .Go(worker, ContPicked(id, r1.queued[id]));
    RunTwo(r, Dequeue(worker), Take(worker));
  }

  predicate WithoutClose(steps: seq<Step>) {
    forall step | step in steps :: !CloseStep(step)
  }

  /** One run after another. */
  lemma Chain(s: State, a: seq<Step>, r: State, b: seq<Step>, e: State)
    requires Run(s, a) == r && Run(r, b) == e
    ensures Run(s, a + b) == e
    ensures forall step :: step in a + b <==> step in a || step in b
  {
    RunConcat(s, a, b);
  }

  /** A message goes all the way from a sender to a worker. */
  lemma Delivers(r: State, sender: Thread, worker: Thread, id: Id, message: string) returns (steps: seq<Step>, e: State)
    requires r.At(sender).Idle? && r.At(worker).Idle? && sender != worker && id in r.tasks && Continuable(r.tasks[id])
    requires id !in r.busy && r.queue == [] && 0 < r.capacity && message != ""
    ensures e == Run(r, steps) && WithoutClose(steps)
    ensures e.tasks == r.tasks && e.busy == r.busy + {id} && e.queue == [] && e.capacity == r.capacity
    ensures forall u :: e.At(u) == if u == worker then ContPicked(id, message) else r.At(u)
  {
    var send := [SendCheck(sender, id, message), SendReserve(sender), SendEnqueue(sender)];
    var r1 := Sends(r, sender, id, message);
    e := Fetches(r1, worker, id);
    RunConcat(r, send, [Dequeue(worker), Take(worker)]);
    steps := send + [Dequeue(worker), Take(worker)];
  }

  /** The steps of a close that fails. */
  predicate FailedClose(step: Step, closer: Thread, id: Id) {
    step == CloseGet(closer, id) || step == CloseFree(closer) || step == CloseMark(closer, false, 0, true)
  }

  /** CloseTaskContainer frees the slot, then fails to remove the container. */
  lemma FailsToClose(r: State, closer: Thread, id: Id) returns (steps: seq<Step>, e: State)
    requires r.At(closer).Idle? && id in r.tasks && r.tasks[id].status != Queued
    ensures e == Run(r, steps) && CloseMark(closer, false, 0, true) in steps
    ensures forall step | step in steps :: FailedClose(step, closer, id)
    ensures e.tasks == r.tasks && e.busy == r.busy - {id} && e.queue == r.queue && e.capacity == r.capacity
    ensures forall u :: e.At(u) == if u == closer then Idle else r.At(u)
  {
    var r1 := Apply(r, CloseGet(closer, id));
    assert r1 == r.Go(closer, Closing(id, r.tasks[id]));
    var r2 := Apply(r1, CloseFree(closer));
    assert r2 == r1.Freed(id).Go(closer, ClosingFreed(id, r.tasks[id]));
    e := Apply(r2, CloseMark(closer, false, 0, true));
    assert e == r2.Go(closer, Idle);
    RunThree(r, CloseGet(closer, id), CloseFree(closer), CloseMark(closer, false, 0, true));
    steps := [CloseGet(closer, id), CloseFree(closer), CloseMark(closer, false, 0, true)];
    assert steps[2] == CloseMark(closer, false, 0, true);
  }

  /** Two workers hold a message of the same task, both see it continuable, both start. */
  lemma BothStart(r: State, v: Thread, w: Thread, id: Id, m: string, n: string) returns (steps: seq<Step>, e: State)
    requires v != w && r.At(v) == ContPicked(id, m) && r.At(w) == ContPicked(id, n)
    requires id in r.tasks && Continuable(r.tasks[id])
    ensures e == Run(r, steps) && WithoutClose(steps)
    ensures Executes(e.At(v), id) && Executes(e.At(w), id)
  {
    var r2 := BothCheck(r, v, w, id, m, n);
    var r3 := StartsChecked(r2, v, id, m);
    e := StartsChecked(r3, w, id, n);
    RunFour(r, ContCheck(v), ContCheck(w), StartRun(v, 0, true), StartRun(w, 0, true));
    steps := [ContCheck(v), ContCheck(w), StartRun(v, 0, true), StartRun(w, 0, true)];
  }

  lemma BothCheck(r: State, v: Thread, w: Thread, id: Id, m: string, n: string) returns (e: State)
    requires v != w && r.At(v) == ContPicked(id, m) && r.At(w) == ContPicked(id, n)
    requires id in r.tasks && Continuable(r.tasks[id])
    ensures e == Apply(Apply(r, ContCheck(v)), ContCheck(w)) && e.tasks == r.tasks
    ensures e.At(v) == ContChecked(id, m) && e.At(w) == ContChecked(id, n)
  {
    var r1 := Apply(r, ContCheck(v));
    assert r1 == r.Go(v, ContChecked(id, m));
    e := Apply(r1, ContCheck(w));
    assert e == r1.Go(w, ContChecked(id, n));
  }

  /** A service at rest, with a task that can be continued. */
  ghost predicate Resting(s: State, id: Id) {
    && s.threads == map[] && s.busy == {} && s.queue == [] && 0 < s.capacity
    && id in s.tasks && Continuable(s.tasks[id])
  }

  /** From every resting state, a close that frees a slot that is taken, and then fails to remove the container, lets
      two workers execute the task at once. */
  lemma {:induction false} FailedCloseDoublesExecution(s: State, id: Id, m: string, n: string)
    returns (steps: seq<Step>)
    requires Resting(s, id) && m != "" && n != ""
    ensures CloseMark(3, false, 0, true) in steps
    ensures forall step | step in steps && CloseStep(step) :: FailedClose(step, 3, id)
    ensures !MutualExclusion(Run(s, steps))
  {
    var first, s1 := Delivers(s, 1, 2, id, m);
    var close, s2 := FailsToClose(s1, 3, id);
    var second, s3 := Delivers(s2, 1, 4, id, n);
    var start, s4 := BothStart(s3, 2, 4, id, m, n);
    Chain(s, first, s1, close, s2);
    Chain(s, first + close, s2, second, s3);
    Chain(s, first + close + second, s3, start, s4);
    steps := first + close + second + start;
    assert Executes(s4.At(2), id) && Executes(s4.At(4), id);
  }

  lemma ClosesChecked(r: State, id: Id) returns (e: State)
    requires id in r.tasks && Continuable(r.tasks[id])
    ensures e == Apply(r, Close(id, true, 0, true)) && id in e.tasks
    ensures e.busy == r.busy - {id} && e.queue == r.queue && e.capacity == r.capacity
    ensures forall u :: e.At(u) == r.At(u)
  {
    e := Apply(r, Close(id, true, 0, true));
    assert e == r.Freed(id).Put(id, MarkContainerClosed(r.tasks[id], 0));
  }

  lemma StartsChecked(r: State, w: Thread, id: Id, m: string) returns (e: State)
    requires r.At(w) == ContChecked(id, m) && id in r.tasks
    ensures e == Apply(r, StartRun(w, 0, true)) && id in e.tasks && e.tasks[id].status == Running
    ensures e.busy == r.busy && e.queue == r.queue && e.capacity == r.capacity
    ensures forall u :: e.At(u) == if u == w then Executing(id, Continuation, false) else r.At(u)
  {
    e := Apply(r, StartRun(w, 0, true));
    assert e == r.Put(id, MarkRunning(r.tasks[id], 0)).Go(w, Executing(id, Continuation, false));
  }

  lemma Finishes(r: State, w: Thread, id: Id, name: string) returns (e: State)
    requires r.At(w) == Executing(id, Continuation, false) && id in r.tasks && r.tasks[id].status == Running
    ensures e == Apply(r, CheckedFinish(w, Completing(0, "", name, true), 0, true))
    ensures id in e.tasks && e.tasks[id].status == Completed && e.tasks[id].containerKept
    ensures e.tasks[id].containerName == name
    ensures e.busy == r.busy && e.queue == r.queue && e.capacity == r.capacity
    ensures forall u :: e.At(u) == if u == w then Releasing(id) else r.At(u)
  {
    e := Apply(r, CheckedFinish(w, Completing(0, "", name, true), 0, true));
    assert e == AfterRun(r.Put(id, MarkCompleted(r.tasks[id], 0, 0, "", name, true)), w, id, Continuation);
  }

  lemma ThreeSteps(r: State, a: Step, b: Step, c: Step) returns (steps: seq<Step>)
    ensures Run(r, steps) == Apply(Apply(Apply(r, a), b), c)
    ensures forall step :: step in steps <==> step == a || step == b || step == c
  {
    RunThree(r, a, b, c);
    steps := [a, b, c];
    assert steps[0] == a && steps[1] == b && steps[2] == c;
  }

  /** A close that succeeds comes between a worker's check and its start: the worker runs the task all the same, and
      keeps a container, though its slot is free. */
  lemma RunsOnFreedSlot(r: State, w: Thread, id: Id, m: string, name: string) returns (steps: seq<Step>, e: State)
    requires r.At(w) == ContChecked(id, m) && id in r.tasks && Continuable(r.tasks[id])
    ensures e == Run(r, steps) && Close(id, true, 0, true) in steps
    ensures forall step | step in steps && CloseStep(step) :: step == Close(id, true, 0, true)
    ensures id in e.tasks && e.tasks[id].status == Completed && e.tasks[id].containerKept
    ensures e.tasks[id].containerName == name
    ensures e.busy == r.busy - {id} && e.queue == r.queue && e.capacity == r.capacity
    ensures forall u :: e.At(u) == if u == w then Releasing(id) else r.At(u)
  {
    var r1 := ClosesChecked(r, id);
    var r2 := StartsChecked(r1, w, id, m);
    e := Finishes(r2, w, id, name);
    steps := ThreeSteps(r, Close(id, true, 0, true), StartRun(w, 0, true),
                        CheckedFinish(w, Completing(0, "", name, true), 0, true));
  }

  lemma ChecksCont(r: State, w: Thread, id: Id, m: string) returns (steps: seq<Step>, e: State)
    requires r.At(w) == ContPicked(id, m) && id in r.tasks && Continuable(r.tasks[id])
    ensures e == Run(r, steps) && WithoutClose(steps)
    ensures e.tasks == r.tasks && e.busy == r.busy && e.queue == r.queue && e.capacity == r.capacity
    ensures forall u :: e.At(u) == if u == w then ContChecked(id, m) else r.At(u)
  {
    e := Apply(r, ContCheck(w));
    assert e == r.Go(w, ContChecked(id, m));
    RunOne(r, ContCheck(w));
    steps := [ContCheck(w)];
  }

  lemma NamesSession(r: State, id: Id, session: string) returns (steps: seq<Step>, e: State)
    requires id in r.tasks && r.tasks[id].status == Completed && r.tasks[id].containerKept
    requires r.tasks[id].containerName != "" && session != "" && session == Text.TrimSpace(session)
    ensures e == Run(r, steps) && WithoutClose(steps) && id in e.tasks && Continuable(e.tasks[id])
    ensures e.busy == r.busy && e.queue == r.queue && e.capacity == r.capacity
    ensures forall u :: e.At(u) == r.At(u)
  {
    e := Apply(r, Session(id, session));
    assert e == r.Put(id, MarkSession(r.tasks[id], session));
    RunOne(r, Session(id, session));
    steps := [Session(id, session)];
  }

  lemma Releases(r: State, w: Thread, id: Id) returns (steps: seq<Step>, e: State)
    requires r.At(w) == Releasing(id)
    ensures e == Run(r, steps) && WithoutClose(steps)
    ensures e.tasks == r.tasks && e.busy == r.busy - {id} && e.queue == r.queue && e.capacity == r.capacity
    ensures forall u :: e.At(u) == if u == w then Idle else r.At(u)
  {
    e := Apply(r, Release(w));
    assert e == r.Freed(id).Go(w, Idle);
    RunOne(r, Release(w));
    steps := [Release(w)];
  }

  /** ... and when it is done it frees a slot that is no longer its own. */
  lemma {:induction false} OldWorkerFreesNewSlot(r: State, id: Id, m: string, n: string) returns (steps: seq<Step>)
    requires r.At(1).Idle? && r.At(2) == Releasing(id) && r.At(4).Idle? && r.At(5).Idle?
    requires id in r.tasks && Continuable(r.tasks[id]) && id !in r.busy && r.queue == [] && 0 < r.capacity
    requires m != "" && n != ""
    ensures WithoutClose(steps) && !MutualExclusion(Run(r, steps))
  {
    var first, r1 := Delivers(r, 1, 4, id, m);
    var release, r2 := Releases(r1, 2, id);
    var second, r3 := Delivers(r2, 1, 5, id, n);
    var start, r4 := BothStart(r3, 4, 5, id, m, n);
    Chain(r, first, r1, release, r2);
    Chain(r, first + release, r2, second, r3);
    Chain(r, first + release + second, r3, start, r4);
    steps := first + release + second + start;
    assert Executes(r4.At(4), id) && Executes(r4.At(5), id);
  }

  predicate ClosedWell(steps: seq<Step>, id: Id) {
    && Close(id, true, 0, true) in steps
    && forall step | step in steps && CloseStep(step) :: step == Close(id, true, 0, true)
  }

  lemma {:induction false} ChecksBeforeClose(s: State, id: Id, l: string, name: string)
    returns (steps: seq<Step>, e: State)
    requires Resting(s, id) && l != "" && name != ""
    ensures e == Run(s, steps) && ClosedWell(steps, id)
    ensures id in e.tasks && e.tasks[id].status == Completed && e.tasks[id].containerKept
    ensures e.tasks[id].containerName == name && id !in e.busy && e.queue == [] && 0 < e.capacity
    ensures forall u :: e.At(u) == if u == 2 then Releasing(id) else Idle
  {
    var first, s1 := Delivers(s, 1, 2, id, l);
    var check, s2 := ChecksCont(s1, 2, id, l);
    var run, s3 := RunsOnFreedSlot(s2, 2, id, l, name);
    Chain(s, first, s1, check, s2);
    Chain(s, first + check, s2, run, s3);
    steps, e := first + check + run, s3;
  }

  lemma {:induction false} ContinuesTwice(r: State, id: Id, m: string, n: string, session: string)
    returns (steps: seq<Step>)
    requires (forall u :: r.At(u) == if u == 2 then Releasing(id) else Idle) && m != "" && n != ""
    requires id in r.tasks && r.tasks[id].status == Completed && r.tasks[id].containerKept
    requires r.tasks[id].containerName != "" && session != "" && session == Text.TrimSpace(session)
    requires id !in r.busy && r.queue == [] && 0 < r.capacity
    ensures WithoutClose(steps) && !MutualExclusion(Run(r, steps))
  {
    var note, r1 := NamesSession(r, id, session);
    var rest := OldWorkerFreesNewSlot(r1, id, m, n);
    Chain(r, note, r1, rest, Run(r1, rest));
    steps := note + rest;
  }

  /** It does not take a close that fails: from every resting state there is a run with one close, which succeeds,
      after which two workers execute the task at once. */
  lemma {:induction false} SuccessfulCloseDoublesExecution(s: State, id: Id, l: string, m: string, n: string,
                                                           name: string, session: string)
    returns (steps: seq<Step>)
    requires Resting(s, id) && l != "" && m != "" && n != "" && name != ""
    requires session != "" && session == Text.TrimSpace(session)
    ensures Close(id, true, 0, true) in steps
    ensures forall step | step in steps && CloseStep(step) :: step == Close(id, true, 0, true)
    ensures !MutualExclusion(Run(s, steps))
  {
    var first, s1 := ChecksBeforeClose(s, id, l, name);
    var rest := ContinuesTwice(s1, id, m, n, session);
    Chain(s, first, s1, rest, Run(s1, rest));
    steps := first + rest;
  }

  // ---- what may still move a stopped task, in runs of a service that starts without tasks ----

  /** A submission, and the worker that gets it. */
  function Submission(t: Thread, worker: Thread, id: Id, task: Task): seq<Step> {
    [SubmitAdd(t, id, task), SubmitEnqueue(t), Dequeue(worker), Take(worker)]
  }

  /** There is one task, and only `worker` has anything to do. */
  ghost predicate Only(s: State, worker: Thread, pc: Pc, id: Id, task: Task) {
    && s.At(worker) == pc && s.tasks == map[id := task] && s.busy == {}
    && forall u | u != worker :: s.At(u).Idle?
  }

  lemma Enqueues(id: Id, task: Task) returns (r: State)
    requires task.status == Queued && Coupled(task)
    ensures r == Apply(Apply(Blank(1), SubmitAdd(1, id, task)), SubmitEnqueue(1))
    ensures r == State(map[id := task], {}, map[], [Entry(id, Initial)], 1, map[1 := Idle], map[], map[])
  {
    var s := Blank(1);
    var s1 := Apply(s, SubmitAdd(1, id, task));
    assert s1 == s.Put(id, task).Go(1, Submitting(id));
    r := Apply(s1, SubmitEnqueue(1));
    assert r == s1.(queue := [Entry(id, Initial)]).Go(1, Idle);
  }

  lemma Picks(r: State, id: Id) returns (e: State)
    requires r.At(2).Idle? && r.queue == [Entry(id, Initial)] && r.queued == map[]
    ensures e == Apply(Apply(r, Dequeue(2)), Take(2)) && e == r.(queue := []).Go(2, InitPicked(id))
  {
    var r1 := Apply(r, Dequeue(2));
    assert r1 == r.(queue := []).Go(2, Popped(id, Initial));
    e := Apply(r1, Take(2));
    assert e == r1.Go(2, InitPicked(id)) == r.(queue := []).Go(2, InitPicked(id));
  }

  lemma {:induction false} Submits(id: Id, task: Task) returns (r: State)
    requires task.status == Queued && Coupled(task)
    ensures r == Run(Blank(1), Submission(1, 2, id, task)) && Only(r, 2, InitPicked(id), id, task)
  {
    var s := Enqueues(id, task);
    r := Picks(s, id);
    RunFour(Blank(1), SubmitAdd(1, id, task), SubmitEnqueue(1), Dequeue(2), Take(2));
  }

  lemma IsSubmitted(id: Id, task: Task) returns (steps: seq<Step>, r: State)
    requires task.status == Queued && Coupled(task)
    ensures r == Run(Blank(1), steps) && WithoutClose(steps) && Only(r, 2, InitPicked(id), id, task)
  {
    r := Submits(id, task);
    steps := Submission(1, 2, id, task);
  }

  lemma Begins(r: State, id: Id, task: Task) returns (e: State)
    requires r.At(2) == InitPicked(id) && id in r.tasks && r.tasks[id] == task && task.status == Queued
    ensures e == Run(r, [InitCheck(2), StartRun(2, 0, true)])
    ensures e == r.Put(id, MarkRunning(task, 0)).Go(2, Executing(id, Initial, false))
  {
    var r1 := Apply(r, InitCheck(2));
    assert r1 == r.Go(2, InitChecked(id));
    e := Apply(r1, StartRun(2, 0, true));
    assert e == r1.Put(id, MarkRunning(task, 0)).Go(2, Executing(id, Initial, false));
    assert e == r.Put(id, MarkRunning(task, 0)).Go(2, Executing(id, Initial, false));
    RunTwo(r, InitCheck(2), StartRun(2, 0, true));
  }

  lemma Ends(r: State, id: Id, task: Task, name: string) returns (e: State)
    requires r.At(2) == Executing(id, Initial, false) && id in r.tasks && r.tasks[id] == task && task.status == Running
    ensures e == Run(r, [Sink(2, name, true), StopCheck(2)])
    ensures e == r.Put(id, MarkRuntimeContainer(task, name)).Go(2, Marking(id, Initial))
  {
    var r1 := Apply(r, Sink(2, name, true));
    assert r1 == r.Put(id, MarkRuntimeContainer(task, name)).Go(2, Executing(id, Initial, true));
    e := Apply(r1, StopCheck(2));
    assert e == r1.Go(2, Marking(id, Initial));
    assert e == r.Put(id, MarkRuntimeContainer(task, name)).Go(2, Marking(id, Initial));
    RunTwo(r, Sink(2, name, true), StopCheck(2));
  }

  /** Closing a running task with a container stops it; a worker that is past its own check marks it all the same. */
  lemma {:induction false} MarkAfterClose(r: State, t: Thread, id: Id, o: Origin, name: string)
    returns (e: State, f: State)
    requires r.At(t) == Marking(id, o) && id in r.tasks && r.tasks[id].status == Running && Closable(r.tasks[id])
    ensures e == Apply(r, Close(id, true, 0, true)) && id in e.tasks && Stopped(e.tasks[id])
    ensures f == Apply(e, Finish(t, Completing(0, "", name, true), 0, true))
    ensures id in f.tasks && f.tasks[id].status == Completed && f.tasks[id].containerKept
  {
    e := Apply(r, Close(id, true, 0, true));
    assert e == r.Freed(id).Put(id, MarkContainerClosed(r.tasks[id], 0));
    f := Apply(e, Finish(t, Completing(0, "", name, true), 0, true));
    assert f == AfterRun(e.Put(id, MarkCompleted(e.tasks[id], 0, 0, "", name, true)), t, id, o);
  }

  /** A worker that found its task not stopped overtakes a close that comes before its mark: the task that was stopped
      ends completed, its container kept on record. */
  lemma {:induction false} MarkOvertakesStop(id: Id, task: Task, name: string) returns (steps: seq<Step>, mark: Step)
    requires task.status == Queued && Coupled(task) && name != ""
    ensures id in Run(Blank(1), steps).tasks && Stopped(Run(Blank(1), steps).tasks[id])
    ensures var r := Run(Blank(1), steps + [mark]);
            id in r.tasks && r.tasks[id].status == Completed && r.tasks[id].containerKept
  {
    var first := Submission(1, 2, id, task);
    var begin, end := [InitCheck(2), StartRun(2, 0, true)], [Sink(2, name, true), StopCheck(2)];
    mark := Finish(2, Completing(0, "", name, true), 0, true);
    var s1 := Submits(id, task);
    var s2 := Begins(s1, id, task);
    var s3 := Ends(s2, id, MarkRunning(task, 0), name);
    var s4, s5 := MarkAfterClose(s3, 2, id, Initial, name);
    RunConcat(Blank(1), first, begin);
    RunConcat(Blank(1), first + begin, end);
    RunMore(Blank(1), first + begin + end, Close(id, true, 0, true));
    steps := first + begin + end + [Close(id, true, 0, true)];
    RunMore(Blank(1), steps, mark);
  }

  /** A closer has read the queued task while a worker picked it up. */
  lemma {:induction false} ReadsQueued(r: State, id: Id, task: Task) returns (e: State)
    requires Only(r, 2, InitPicked(id), id, task) && task.status == Queued
    ensures e == Run(r, [CloseGet(3, id)] + [InitCheck(2), StartRun(2, 0, true)])
    ensures e.At(2) == Executing(id, Initial, false) && e.At(3) == Closing(id, task)
    ensures e.tasks == map[id := MarkRunning(task, 0)]
  {
    var r1 := Apply(r, CloseGet(3, id));
    assert r1 == r.Go(3, Closing(id, task));
    e := Begins(r1, id, task);
    RunOne(r, CloseGet(3, id));
    RunConcat(r, [CloseGet(3, id)], [InitCheck(2), StartRun(2, 0, true)]);
  }

  lemma {:induction false} StopsRead(r: State, id: Id, task: Task, started: Task) returns (e: State)
    requires r.At(2) == Executing(id, Initial, false) && r.At(3) == Closing(id, task) && task.status == Queued
    requires r.tasks == map[id := started]
    ensures e == Run(r, [CloseFree(3), CloseMark(3, true, 0, true)])
    ensures e.At(2) == Executing(id, Initial, false)
    ensures e.tasks == map[id := MarkStopped(started, 0, TASK_STOPPED_MESSAGE)]
  {
    var r1 := Apply(r, CloseFree(3));
    assert r1 == r.Freed(id).Go(3, ClosingFreed(id, task));
    e := Apply(r1, CloseMark(3, true, 0, true));
    assert e == r1.Put(id, MarkStopped(started, 0, TASK_STOPPED_MESSAGE)).Go(3, Idle);
    RunTwo(r, CloseFree(3), CloseMark(3, true, 0, true));
  }

  /** A close that read the task as queued stops it without a look at the container that its worker is about to report:
      after the report the task no longer counts as stopped, and the worker completes it. */
  lemma {:induction false} ReportOvertakesStop(id: Id, task: Task, name: string)
    returns (steps: seq<Step>, report: Step, mark: Step)
    requires task.status == Queued && Coupled(task) && name != ""
    ensures id in Run(Blank(1), steps).tasks && Stopped(Run(Blank(1), steps).tasks[id])
    ensures var r := Run(Blank(1), steps + [report]);
            id in r.tasks && r.tasks[id].status == Failed && r.tasks[id].containerName == name && !Stopped(r.tasks[id])
    ensures mark.CheckedFinish?
    ensures var r := Run(Blank(1), steps + [report] + [mark]); id in r.tasks && r.tasks[id].status == Completed
  {
    var first := Submission(1, 2, id, task);
    var read := [CloseGet(3, id)] + [InitCheck(2), StartRun(2, 0, true)];
    var stop := [CloseFree(3), CloseMark(3, true, 0, true)];
    report, mark := Sink(2, name, true), CheckedFinish(2, Completing(0, "", name, true), 0, true);
    var s1 := Submits(id, task);
    var s2 := ReadsQueued(s1, id, task);
    var s3 := StopsRead(s2, id, task, MarkRunning(task, 0));
    RunConcat(Blank(1), first, read);
    RunConcat(Blank(1), first + read, stop);
    steps := first + read + stop;
    var s4 := Reports(s3, id, name);
    Completes(s4, id, name);
    RunMore(Blank(1), steps, report);
    RunMore(Blank(1), steps + [report], mark);
  }

  lemma Reports(r: State, id: Id, name: string) returns (e: State)
    requires r.At(2) == Executing(id, Initial, false) && id in r.tasks && Stopped(r.tasks[id]) && name != ""
    ensures e == Apply(r, Sink(2, name, true)) && e.At(2) == Executing(id, Initial, true)
    ensures id in e.tasks && e.tasks[id].status == Failed && e.tasks[id].containerName == name
  {
    e := Apply(r, Sink(2, name, true));
    assert e == r.Put(id, MarkRuntimeContainer(r.tasks[id], name)).Go(2, Executing(id, Initial, true));
  }

  lemma Completes(r: State, id: Id, name: string)
    requires r.At(2) == Executing(id, Initial, true) && id in r.tasks && !Stopped(r.tasks[id])
    ensures var e := Apply(r, CheckedFinish(2, Completing(0, "", name, true), 0, true));
            id in e.tasks && e.tasks[id].status == Completed
  {
    var e := Apply(r, CheckedFinish(2, Completing(0, "", name, true), 0, true));
    assert e == AfterRun(r.Put(id, MarkCompleted(r.tasks[id], 0, 0, "", name, true)), 2, id, Initial);
  }

  /** Two submissions find room for one: the second in the queue is refused. */
  lemma {:induction false} TwoSubmit(a: Id, b: Id, task: Task, other: Task) returns (r: State)
    requires a != b && task.status == Queued && Coupled(task) && other.status == Queued && Coupled(other)
    ensures r == Run(Blank(1), [SubmitAdd(1, a, task), SubmitAdd(2, b, other), SubmitEnqueue(2), SubmitEnqueue(1)])
    ensures r.At(1) == SubmitFull(a) && r.tasks == map[a := task, b := other]
  {
    var s := Blank(1);
    var s1 := Apply(s, SubmitAdd(1, a, task));
    assert s1 == s.Put(a, task).Go(1, Submitting(a));
    var s2 := Apply(s1, SubmitAdd(2, b, other));
    assert s2 == s1.Put(b, other).Go(2, Submitting(b));
    var s3 := Apply(s2, SubmitEnqueue(2));
    assert s3 == s2.(queue := [Entry(b, Initial)]).Go(2, Idle);
    r := Apply(s3, SubmitEnqueue(1));
    assert r == s3.Go(1, SubmitFull(a));
    RunFour(s, SubmitAdd(1, a, task), SubmitAdd(2, b, other), SubmitEnqueue(2), SubmitEnqueue(1));
  }

  /** A submission that the queue refused fails its task although it was stopped in between. Every check of this run is
      taken together with the write it guards. */
  lemma {:induction false} RefusalOvertakesStop(a: Id, b: Id, task: Task, other: Task)
    returns (steps: seq<Step>, rollback: Step)
    requires a != b && task.status == Queued && Coupled(task) && other.status == Queued && Coupled(other)
    ensures steps
            == [SubmitAdd(1, a, task), SubmitAdd(2, b, other), SubmitEnqueue(2),
                SubmitEnqueue(1)] + [Close(a, true, 0, true)]
    ensures a in Run(Blank(1), steps).tasks && Stopped(Run(Blank(1), steps).tasks[a])
    ensures rollback.SubmitRollback?
    ensures var r := Run(Blank(1), steps + [rollback]); a in r.tasks && !Stopped(r.tasks[a])
  {
    var first := [SubmitAdd(1, a, task), SubmitAdd(2, b, other), SubmitEnqueue(2), SubmitEnqueue(1)];
    var r := TwoSubmit(a, b, task, other);
    steps, rollback := first + [Close(a, true, 0, true)], SubmitRollback(1, 0, true);
    RunMore(Blank(1), first, Close(a, true, 0, true));
    RunMore(Blank(1), steps, rollback);
    var r1 := Apply(r, Close(a, true, 0, true));
    assert r1 == r.Freed(a).Put(a, MarkStopped(task, 0, TASK_STOPPED_MESSAGE));
    var r2 := Apply(r1, rollback);
    assert r2 == r1.Put(a, MarkFailed(r1.tasks[a], 0, TASK_QUEUE_FULL_MESSAGE)).Go(1, Idle);
    MessagesDiffer();
  }

  lemma StartsAtOnce(r: State, id: Id, task: Task) returns (e: State)
    requires r.At(2) == InitPicked(id) && id in r.tasks && r.tasks[id] == task && task.status == Queued
    ensures e == Apply(r, InitStart(2, 0, true))
    ensures e == r.Put(id, MarkRunning(task, 0)).Go(2, Executing(id, Initial, false))
  {
    e := Apply(r, InitStart(2, 0, true));
    assert e == r.Put(id, MarkRunning(task, 0)).Go(2, Executing(id, Initial, false));
  }

  lemma Solves(r: State, id: Id, task: Task, o: Outcome) returns (e: State)
    requires r.At(2) == InitPicked(id) && id in r.tasks && r.tasks[id] == task && task.status == Queued
    ensures e == Apply(Apply(r, InitStart(2, 0, true)), CheckedFinish(2, o, 0, true))
    ensures id in e.tasks && e.tasks[id] == MarkOutcome(MarkRunning(task, 0), o, 0)
  {
    var r1 := StartsAtOnce(r, id, task);
    e := Apply(r1, CheckedFinish(2, o, 0, true));
    assert e == AfterRun(r1.Put(id, MarkOutcome(MarkRunning(task, 0), o, 0)), 2, id, Initial);
  }

  lemma LosesFlag(r: State, id: Id, solved: Task, writeup: string)
    requires id in r.tasks && r.tasks[id] == solved && solved.status == Solved && SafeStoredFilename(writeup)
    ensures var e := Apply(Apply(r, SaveWriteup(id, writeup)), ClearResults({}, Some(id)));
            id in e.tasks && Flagless(e.tasks[id])
  {
    var r1 := Apply(r, SaveWriteup(id, writeup));
    assert r1 == r.Put(id, SetWriteup(solved, writeup));
    assert Apply(r1, ClearResults({}, Some(id))).tasks[id] == HalfCleared(SetWriteup(solved, writeup));
  }

  lemma {:induction false} SolvesAndLosesFlag(r: State, id: Id, task: Task, flag: string, writeup: string)
    returns (steps: seq<Step>)
    requires r.At(2) == InitPicked(id) && id in r.tasks && r.tasks[id] == task && task.status == Queued
    requires SafeStoredFilename(writeup)
    ensures forall step | step in steps :: !CloseStep(step)
    ensures id in Run(r, steps).tasks && Flagless(Run(r, steps).tasks[id])
  {
    var outcome := Solving(0, flag, "");
    steps := [InitStart(2, 0, true), CheckedFinish(2, outcome, 0, true), SaveWriteup(id, writeup),
              ClearResults({}, Some(id))];
    var e := Solves(r, id, task, outcome);
    LosesFlag(e, id, MarkOutcome(MarkRunning(task, 0), outcome, 0), writeup);
    RunFour(r, InitStart(2, 0, true), CheckedFinish(2, outcome, 0, true), SaveWriteup(id, writeup),
            ClearResults({}, Some(id)));
  }

  /** A task is solved, its writeup saved, and the writeup cannot be removed when the results are cleared: the task is
      solved without a flag, in a run without any closing. */
  lemma {:induction false} FlagCanBeLost(id: Id, task: Task, flag: string, writeup: string) returns (steps: seq<Step>)
    requires task.status == Queued && Coupled(task) && SafeStoredFilename(writeup)
    ensures forall step | step in steps :: !CloseStep(step)
    ensures id in Run(Blank(1), steps).tasks && Flagless(Run(Blank(1), steps).tasks[id])
  {
    var first, r := IsSubmitted(id, task);
    var rest := SolvesAndLosesFlag(r, id, task, flag, writeup);
    Chain(Blank(1), first, r, rest, Run(r, rest));
    steps := first + rest;
  }

  /** A closer reads the queued task before a worker solves it, and stops it after. */
  lemma {:induction false} ClosesSolved(r: State, id: Id, task: Task, flag: string)
    returns (steps: seq<Step>, e: State)
    requires r.At(2).Idle? && r.At(3) == Closing(id, task) && task.status == Queued
    requires id in r.tasks && r.tasks[id].status == Solved && r.tasks[id].flag == Some(flag)
    ensures e == Run(r, steps)
    ensures id in e.tasks && Stopped(e.tasks[id]) && e.tasks[id].flag == Some(flag)
    ensures forall u :: e.At(u) == if u == 3 then Idle else r.At(u)
  {
    var r1 := Apply(r, CloseFree(3));
    assert r1 == r.Freed(id).Go(3, ClosingFreed(id, task));
    e := Apply(r1, CloseMark(3, true, 0, true));
    assert e == r1.Put(id, MarkStopped(r1.tasks[id], 0, TASK_STOPPED_MESSAGE)).Go(3, Idle);
    RunTwo(r, CloseFree(3), CloseMark(3, true, 0, true));
    steps := [CloseFree(3), CloseMark(3, true, 0, true)];
  }

  lemma ReadsTask(r: State, id: Id, task: Task) returns (steps: seq<Step>, e: State)
    requires Only(r, 2, InitPicked(id), id, task)
    ensures e == Run(r, steps) && e.tasks == r.tasks
    ensures forall u :: e.At(u) == if u == 3 then Closing(id, task) else r.At(u)
  {
    e := Apply(r, CloseGet(3, id));
    assert e == r.Go(3, Closing(id, task));
    RunOne(r, CloseGet(3, id));
    steps := [CloseGet(3, id)];
  }

  lemma SolvesRead(r: State, id: Id, task: Task, o: Outcome) returns (steps: seq<Step>, e: State)
    requires r.At(2) == InitPicked(id) && id in r.tasks && r.tasks[id] == task && task.status == Queued && o.Solving?
    ensures e == Run(r, steps)
    ensures e.tasks == r.tasks[id := MarkOutcome(MarkRunning(task, 0), o, 0)]
    ensures forall u :: e.At(u) == if u == 2 then Idle else r.At(u)
  {
    var r1 := StartsAtOnce(r, id, task);
    e := Apply(r1, CheckedFinish(2, o, 0, true));
    assert e == AfterRun(r1.Put(id, MarkOutcome(MarkRunning(task, 0), o, 0)), 2, id, Initial);
    RunTwo(r, InitStart(2, 0, true), CheckedFinish(2, o, 0, true));
    steps := [InitStart(2, 0, true), CheckedFinish(2, o, 0, true)];
  }

  lemma StopsWhatItSolved(r: State, id: Id, task: Task, flag: string) returns (steps: seq<Step>, e: State)
    requires Only(r, 2, InitPicked(id), id, task) && task.status == Queued
    ensures e == Run(r, steps) && id in e.tasks && Stopped(e.tasks[id]) && e.tasks[id].flag == Some(flag)
    ensures forall u :: e.At(u).Idle?
  {
    var read, r1 := ReadsTask(r, id, task);
    var run, r2 := SolvesRead(r1, id, task, Solving(0, flag, ""));
    var close, r3 := ClosesSolved(r2, id, task, flag);
    Chain(r, read, r1, run, r2);
    Chain(r, read + run, r2, close, r3);
    steps, e := read + run + close, r3;
  }

  lemma LosesStrayFlag(r: State, id: Id)
    requires id in r.tasks && r.tasks[id].status != Solved
    ensures var e := Apply(r, ClearResults({id}, None)); e.tasks.Keys == r.tasks.Keys && e.tasks[id].flag == None
  {
  }

  /** A stopped task may have a flag: a close that read it as queued stops it after a worker solved it. No thread has
      anything more to do, and still clearing the results takes the flag. */
  lemma {:induction false} StopKeepsFlag(id: Id, task: Task, flag: string) returns (steps: seq<Step>)
    requires task.status == Queued && Coupled(task)
    ensures var r := Run(Blank(1), steps);
            && id in r.tasks && Stopped(r.tasks[id]) && r.tasks[id].flag == Some(flag)
            && (forall u :: r.At(u).Idle?)
            && Apply(r, ClearResults({id}, None)).tasks.Keys == r.tasks.Keys
            && Apply(r, ClearResults({id}, None)).tasks[id].flag == None
  {
    var first, s1 := IsSubmitted(id, task);
    var rest, s2 := StopsWhatItSolved(s1, id, task, flag);
    Chain(Blank(1), first, s1, rest, s2);
    steps := first + rest;
    LosesStrayFlag(s2, id);
  }
}
