/** Runs at the granularity of single lock sections in which closing a container never frees a slot that is taken: no
    task is executed twice at once, and no message is lost, doubled or misdelivered. */
module DispatcherRuns {
  import opened Options
  import opened Tasks
  import opened Dispatcher
  import opened DispatcherFlags
  import opened T = DispatcherTokens

  function Held(pc: Pc): Hold {
    match pc
    case Submitting(id) => Hold(id, First)
    case SubmitFull(id) => Hold(id, First)
    case SendReserved(id, m) => Hold(id, Unsent(m))
    case SendFull(id, m) => Hold(id, Unsent(m))
    case Popped(id, o) => Hold(id, if o == Initial then First else Waiting)
    case InitPicked(id) => Hold(id, First)
    case InitChecked(id) => Hold(id, First)
    case ContPicked(id, _) => Hold(id, Delivered)
    case ContChecked(id, _) => Hold(id, Delivered)
    case Executing(id, o, _) => Hold(id, if o == Initial then First else Delivered)
    case Marking(id, o) => Hold(id, if o == Initial then First else Delivered)
    case Releasing(id) => Hold(id, Delivered)
    case _ => Nothing
  }

  function HoldsOf(threads: map<Thread, Pc>): Holds {
    map t | t in threads :: Held(threads[t])
  }

  /** A thread that is to write to its task without a further check. */
  predicate Owes(pc: Pc) {
    pc.Submitting? || pc.SubmitFull? || pc.InitChecked? || pc.ContChecked? || pc.Executing? || pc.Marking?
  }

  /** What a thread may rely on about its task. */
  predicate Relies(pc: Pc, task: Task) {
    && (Owes(pc) ==> Unflagged(task))
    && (pc.Executing? || pc.Marking? ==> task.status != Queued)
  }

  predicate Expects(pc: Pc, tasks: map<Id, Task>) {
    pc.Idle? || (pc.id in tasks && Relies(pc, tasks[pc.id]))
  }

  /** A thread that saw the task past its initial run. */
  predicate Past(pc: Pc, id: Id) {
    pc.SendChecked? && pc.id == id
  }

  predicate HasFirst(k: Tokens, id: Id) {
    id in k && k[id].stage.First?
  }

  ghost predicate Expected(threads: map<Thread, Pc>, tasks: map<Id, Task>, k: Tokens) {
    && (forall t :: Expects(PcAt(threads, t), tasks))
    && (forall id | id in k :: id in tasks && (k[id].stage.First? ==> !tasks[id].containerKept))
    && (forall t, id | Past(PcAt(threads, t), id) :: !HasFirst(k, id))
    && (forall id | id in tasks :: Tame(tasks[id]))
  }

  ghost predicate Inv(s: State, base: int, k: Tokens) {
    && Located(HoldsOf(s.threads), s.queue, base, k)
    && Accounted(s.busy, s.queued, k)
    && Conserved(s.queued, s.accepted, s.taken, k)
    && Expected(s.threads, s.tasks, k)
  }

  lemma HoldsAt(threads: map<Thread, Pc>, t: Thread, pc: Pc)
    ensures HoldsOf(threads[t := pc]) == HoldsOf(threads)[t := Held(pc)]
    ensures At(HoldsOf(threads), t) == if t in threads then Held(threads[t]) else Nothing
  {
  }

  /** Two threads never hold the same token, nor does a thread hold what the queue holds. */
  lemma Alone(s: State, base: int, k: Tokens, t: Thread)
    requires Located(HoldsOf(s.threads), s.queue, base, k) && Held(s.At(t)).Hold?
    ensures k.Keys >= {Held(s.At(t)).id} && k[Held(s.At(t)).id] == Token(InThread(t), Held(s.At(t)).stage)
    ensures forall u | u != t && Held(s.At(u)).Hold? :: Held(s.At(u)).id != Held(s.At(t)).id
  {
    var h := HoldsOf(s.threads);
    assert At(h, t) == Held(s.At(t));
    forall u | u != t && Held(s.At(u)).Hold? ensures Held(s.At(u)).id != Held(s.At(t)).id {
      assert At(h, u) == Held(s.At(u));
    }
  }

  /** A thread that moves on with the same token. */
  lemma Moves(s: State, base: int, k: Tokens, t: Thread, pc: Pc)
    requires Located(HoldsOf(s.threads), s.queue, base, k) && Held(pc) == Held(s.At(t))
    ensures Located(HoldsOf(s.threads[t := pc]), s.queue, base, k)
  {
    HoldsAt(s.threads, t, pc);
    if Held(pc).Hold? {
      Advance(HoldsOf(s.threads), s.queue, base, k, t, Held(pc).id, Held(pc).stage);
      assert k[Held(pc).id := Token(InThread(t), Held(pc).stage)] == k;
    } else {
      Idles(HoldsOf(s.threads), s.queue, base, k, t);
    }
  }

  /** A thread that is done with an initial run. */
  lemma Done(s: State, base: int, k: Tokens, t: Thread, id: Id)
    requires Located(HoldsOf(s.threads), s.queue, base, k) && Held(s.At(t)) == Hold(id, First)
    requires Accounted(s.busy, s.queued, k) && Conserved(s.queued, s.accepted, s.taken, k)
    ensures Located(HoldsOf(s.threads[t := Idle]), s.queue, base, k - {id})
    ensures Accounted(s.busy, s.queued, k - {id}) && Conserved(s.queued, s.accepted, s.taken, k - {id})
  {
    HoldsAt(s.threads, t, Idle);
    Drop(HoldsOf(s.threads), s.queue, base, k, t, id);
    AccountSame(s.busy, s.queued, s.accepted, s.taken, k, k - {id});
  }

  // ---- what threads rely on, step by step ----

  lemma AtAfter(threads: map<Thread, Pc>, threads': map<Thread, Pc>, t: Thread, pc: Pc)
    requires threads' == threads[t := pc]
    ensures forall u :: PcAt(threads', u) == if u == t then pc else PcAt(threads, u)
  {
  }

  lemma Leave(threads: map<Thread, Pc>, tasks: map<Id, Task>, k: Tokens, t: Thread)
    requires Expected(threads, tasks, k)
    ensures Expected(threads[t := Idle], tasks, k)
  {
    AtAfter(threads, threads[t := Idle], t, Idle);
  }

  lemma Enter(threads: map<Thread, Pc>, tasks: map<Id, Task>, k: Tokens, t: Thread, pc: Pc)
    requires Expected(threads, tasks, k) && Expects(pc, tasks)
    requires forall id | Past(pc, id) :: !HasFirst(k, id)
    ensures Expected(threads[t := pc], tasks, k)
  {
    AtAfter(threads, threads[t := pc], t, pc);
  }

  /** Tokens may come, go and travel as long as no initial run appears. */
  lemma Retoken(threads: map<Thread, Pc>, tasks: map<Id, Task>, k: Tokens, k': Tokens)
    requires Expected(threads, tasks, k)
    requires forall id | id in k' :: id in tasks && (k'[id].stage.First? ==> HasFirst(k, id))
    ensures Expected(threads, tasks, k')
  {
    forall t, id | Past(PcAt(threads, t), id) ensures !HasFirst(k', id) {
      assert !HasFirst(k, id);
    }
  }

  lemma Retask(threads: map<Thread, Pc>, tasks: map<Id, Task>, tasks': map<Id, Task>, k: Tokens)
    requires Expected(threads, tasks, k) && tasks.Keys == tasks'.Keys
    requires forall t :: Expects(PcAt(threads, t), tasks')
    requires forall id | id in tasks :: Tame(tasks'[id])
    requires forall id | HasFirst(k, id) && id in tasks' :: !tasks'[id].containerKept
    ensures Expected(threads, tasks', k)
  {
  }

  lemma HoldersAreNotPast(pc: Pc)
    requires Held(pc).Hold? || pc.Idle?
    ensures forall id :: !Past(pc, id)
  {
  }

  /** A thread that does not mind what becomes of the task. */
  predicate Bystander(pc: Pc, id: Id) {
    pc.Idle? || pc.id != id || !Owes(pc)
  }

  lemma BystanderExpects(pc: Pc, tasks: map<Id, Task>, id: Id, task: Task)
    requires Expects(pc, tasks) && Bystander(pc, id)
    ensures Expects(pc, tasks[id := task])
  {
  }

  lemma OwersHold(pc: Pc)
    requires Owes(pc)
    ensures Held(pc).Hold? && Held(pc).id == pc.id
  {
  }

  /** The holder of a task's token may change the task, and then leave. */
  lemma HolderMarks(s: State, base: int, k: Tokens, k': Tokens, t: Thread, id: Id, task: Task)
    requires Inv(s, base, k) && Held(s.At(t)).Hold? && Held(s.At(t)).id == id
    requires Tame(task) && (HasFirst(k', id) ==> !task.containerKept) && (k' == k || k' == k - {id})
    ensures Expected(s.threads[t := Idle], s.tasks[id := task], k')
  {
    Alone(s, base, k, t);
    var threads, tasks := s.threads[t := Idle], s.tasks[id := task];
    AtAfter(s.threads, threads, t, Idle);
    forall u ensures Expects(PcAt(threads, u), tasks) {
      assert Expects(s.At(u), s.tasks);
      if u != t {
        if Owes(s.At(u)) {
          OwersHold(s.At(u));
        }
        BystanderExpects(s.At(u), s.tasks, id, task);
      }
    }
    Leave(s.threads, s.tasks, k, t);
    Retoken(threads, s.tasks, k, k');
    Retask(threads, s.tasks, tasks, k');
  }

  /** A change that nobody's reliance notices: a close, a note, or a cleared result. */
  predicate Soft(a: Task, b: Task) {
    && (Unflagged(a) ==> Unflagged(b))
    && (b.status == Queued ==> a.status == Queued)
    && (b.containerKept ==> a.containerKept)
    && Tame(b)
  }

  lemma SoftMark(s: State, base: int, k: Tokens, id: Id, task: Task)
    requires Inv(s, base, k) && id in s.tasks && Soft(s.tasks[id], task)
    ensures Expected(s.threads, s.tasks[id := task], k)
  {
    forall u ensures Expects(PcAt(s.threads, u), s.tasks[id := task]) {
      assert Expects(s.At(u), s.tasks);
    }
    Retask(s.threads, s.tasks, s.tasks[id := task], k);
  }

  // ---- every step keeps the invariant ----

  /** The tokens after the holder of `id`'s token moves to `pc`: an initial run that is over is gone. */
  function After(k: Tokens, id: Id, pc: Pc): Tokens {
    if pc.Idle? then k - {id} else k
  }

  predicate Goes(from: Pc, to: Pc) {
    Held(from).Hold? && (Held(to) == Held(from) || (to.Idle? && Held(from).stage.First?))
  }

  lemma TokensMove(s: State, base: int, k: Tokens, t: Thread, pc: Pc)
    requires Inv(s, base, k) && Goes(s.At(t), pc)
    ensures var k' := After(k, Held(s.At(t)).id, pc);
            && Located(HoldsOf(s.threads[t := pc]), s.queue, base, k')
            && Accounted(s.busy, s.queued, k') && Conserved(s.queued, s.accepted, s.taken, k')
  {
    if pc.Idle? {
      Done(s, base, k, t, Held(s.At(t)).id);
    } else {
      Moves(s, base, k, t, pc);
    }
  }

  /** The holder of a token looks at its task and moves. */
  lemma HolderMoves(s: State, base: int, k: Tokens, t: Thread, pc: Pc)
    requires Inv(s, base, k) && Goes(s.At(t), pc) && Expects(pc, s.tasks)
    ensures Inv(s.Go(t, pc), base, After(k, Held(s.At(t)).id, pc))
  {
    TokensMove(s, base, k, t, pc);
    assert Expected(s.threads[t := pc], s.tasks, After(k, Held(s.At(t)).id, pc)) by {
      HoldersAreNotPast(pc);
      Enter(s.threads, s.tasks, k, t, pc);
      Retoken(s.threads[t := pc], s.tasks, k, After(k, Held(s.At(t)).id, pc));
    }
  }

  /** The holder of a token updates its task and moves. */
  lemma HolderUpdates(s: State, base: int, k: Tokens, t: Thread, task: Task, pc: Pc)
    requires Inv(s, base, k) && Goes(s.At(t), pc) && (pc.Idle? || Relies(pc, task))
    requires Tame(task) && (!pc.Idle? && Held(pc).stage.First? ==> !task.containerKept)
    ensures Inv(s.Put(Held(s.At(t)).id, task).Go(t, pc), base, After(k, Held(s.At(t)).id, pc))
  {
    var id := Held(s.At(t)).id;
    var tasks, k' := s.tasks[id := task], After(k, id, pc);
    TokensMove(s, base, k, t, pc);
    assert Expected(s.threads[t := pc], tasks, k') by {
      Alone(s, base, k, t);
      HolderMarks(s, base, k, k', t, id, task);
      HoldersAreNotPast(pc);
      Enter(s.threads[t := Idle], tasks, k', t, pc);
      assert s.threads[t := Idle][t := pc] == s.threads[t := pc];
    }
  }

  lemma AfterRunKeeps(s: State, base: int, k: Tokens, t: Thread, id: Id, o: Origin) returns (s': State, k': Tokens)
    requires Inv(s, base, k) && Goes(s.At(t), Executing(id, o, false)) && !s.At(t).Idle? && s.At(t).id == id
    requires id in s.tasks
    ensures s' == AfterRun(s, t, id, o) && Inv(s', base, k')
  {
    if o == Continuation {
      HolderMoves(s, base, k, t, Releasing(id));
      s', k' := s.Go(t, Releasing(id)), k;
    } else {
      HolderMoves(s, base, k, t, Idle);
      s', k' := s.Go(t, Idle), k - {id};
    }
  }

  lemma StartKeeps(s: State, base: int, k: Tokens, t: Thread, id: Id, o: Origin, now: int, wrote: bool)
    returns (s': State, k': Tokens)
    requires Inv(s, base, k) && Goes(s.At(t), Executing(id, o, false)) && !s.At(t).Idle? && s.At(t).id == id
    requires id in s.tasks && Unflagged(s.tasks[id])
    ensures s' == Start(s, t, id, o, now, wrote) && Inv(s', base, k')
  {
    if wrote {
      s' := EnterRunKeeps(s, base, k, t, id, o, now);
      k' := k;
    } else {
      s', k' := AfterRunKeeps(s, base, k, t, id, o);
    }
  }

  /** The task of a first run is not kept. */
  lemma FirstIsUnkept(s: State, base: int, k: Tokens, t: Thread)
    requires Inv(s, base, k) && Held(s.At(t)).Hold? && Held(s.At(t)).stage.First?
    ensures Held(s.At(t)).id in s.tasks && !s.tasks[Held(s.At(t)).id].containerKept
  {
    Alone(s, base, k, t);
  }

  lemma RunningIsTame(task: Task, now: int)
    requires Unflagged(task)
    ensures var running := MarkRunning(task, now);
            Tame(running) && Unflagged(running) && running.status != Queued
            && running.containerKept == task.containerKept
  {
  }

  lemma StaysHeld(from: Pc, to: Pc)
    requires Goes(from, to) && !to.Idle?
    ensures Held(to) == Held(from) && Held(from).id == to.id
  {
  }

  lemma EnterRunKeeps(s: State, base: int, k: Tokens, t: Thread, id: Id, o: Origin, now: int) returns (s': State)
    requires Inv(s, base, k) && Goes(s.At(t), Executing(id, o, false)) && !s.At(t).Idle? && s.At(t).id == id
    requires id in s.tasks && Unflagged(s.tasks[id])
    ensures s' == s.Put(id, MarkRunning(s.tasks[id], now)).Go(t, Executing(id, o, false)) && Inv(s', base, k)
  {
    var task, to := MarkRunning(s.tasks[id], now), Executing(id, o, false);
    RunningIsTame(s.tasks[id], now);
    StaysHeld(s.At(t), to);
    if o == Initial {
      FirstIsUnkept(s, base, k, t);
    }
    HolderUpdates(s, base, k, t, task, to);
    s' := s.Put(id, task).Go(t, to);
  }

  lemma OutcomeIsTame(task: Task, x: Outcome, now: int)
    requires Unflagged(task) && task.status != Queued
    ensures Tame(MarkOutcome(task, x, now))
  {
  }

  lemma WriteOutcomeKeeps(s: State, base: int, k: Tokens, t: Thread, id: Id, o: Origin, x: Outcome, now: int,
                          wrote: bool)
    returns (s': State, k': Tokens)
    requires Inv(s, base, k) && Goes(s.At(t), Executing(id, o, false)) && !s.At(t).Idle? && s.At(t).id == id
    requires id in s.tasks && Unflagged(s.tasks[id]) && s.tasks[id].status != Queued
    ensures s' == WriteOutcome(s, t, id, o, x, now, wrote) && Inv(s', base, k')
  {
    if !wrote {
      s', k' := AfterRunKeeps(s, base, k, t, id, o);
    } else {
      var to := if o == Continuation then Releasing(id) else Idle;
      OutcomeIsTame(s.tasks[id], x, now);
      LeavesExecution(s.At(t), id, o, to);
      s' := OutcomeKeeps(s, base, k, t, id, MarkOutcome(s.tasks[id], x, now), to);
      k' := After(k, id, to);
    }
  }

  lemma LeavesExecution(pc: Pc, id: Id, o: Origin, to: Pc)
    requires Goes(pc, Executing(id, o, false)) && to == if o == Continuation then Releasing(id) else Idle
    ensures Goes(pc, to) && Held(pc).id == id
  {
  }

  lemma OutcomeKeeps(s: State, base: int, k: Tokens, t: Thread, id: Id, task: Task, to: Pc) returns (s': State)
    requires Inv(s, base, k) && Goes(s.At(t), to) && Held(s.At(t)).id == id
    requires Tame(task) && (to.Idle? || to.Releasing?)
    ensures s' == s.Put(id, task).Go(t, to) && Inv(s', base, After(k, id, to))
  {
    HolderUpdates(s, base, k, t, task, to);
    s' := s.Put(id, task).Go(t, to);
  }

  lemma InitCheckKeeps(s: State, base: int, k: Tokens, step: Step) returns (s': State, k': Tokens)
    requires Inv(s, base, k) && step.InitCheck?
    ensures s' == Apply(s, step) && Inv(s', base, k')
  {
    var t := step.t;
    var pc := s.At(t);
    s', k' := s, k;
    if pc.InitPicked? {
      assert Expects(pc, s.tasks) && Tame(s.tasks[pc.id]);
      var to := if s.tasks[pc.id].status == Queued then InitChecked(pc.id) else Idle;
      HolderMoves(s, base, k, t, to);
      s', k' := s.Go(t, to), After(k, pc.id, to);
    }
  }

  lemma ContCheckKeeps(s: State, base: int, k: Tokens, step: Step) returns (s': State, k': Tokens)
    requires Inv(s, base, k) && step.ContCheck?
    ensures s' == Apply(s, step) && Inv(s', base, k')
  {
    var t := step.t;
    var pc := s.At(t);
    s', k' := s, k;
    if pc.ContPicked? {
      assert Expects(pc, s.tasks) && Tame(s.tasks[pc.id]);
      var to := if Continuable(s.tasks[pc.id]) then ContChecked(pc.id, pc.message) else Releasing(pc.id);
      HolderMoves(s, base, k, t, to);
      s' := s.Go(t, to);
    }
  }

  lemma StartRunKeeps(s: State, base: int, k: Tokens, step: Step) returns (s': State, k': Tokens)
    requires Inv(s, base, k) && step.StartRun?
    ensures s' == Apply(s, step) && Inv(s', base, k')
  {
    var t := step.t;
    var pc := s.At(t);
    s', k' := s, k;
    if pc.InitChecked? || pc.ContChecked? {
      assert Expects(pc, s.tasks);
      var o := if pc.InitChecked? then Initial else Continuation;
      s', k' := StartKeeps(s, base, k, t, pc.id, o, step.now, step.wrote);
    }
  }

  lemma BeginKeeps(s: State, base: int, k: Tokens, t: Thread, now: int, wrote: bool) returns (s': State, k': Tokens)
    requires Inv(s, base, k) && s.At(t).InitPicked?
    ensures var pc := s.At(t);
            s' == if pc.id in s.tasks && s.tasks[pc.id].status == Queued then Start(s, t, pc.id, Initial, now, wrote)
                  else s.Go(t, Idle)
    ensures Inv(s', base, k')
  {
    var pc := s.At(t);
    assert Expects(pc, s.tasks) && Tame(s.tasks[pc.id]);
    if s.tasks[pc.id].status == Queued {
      s', k' := StartKeeps(s, base, k, t, pc.id, Initial, now, wrote);
    } else {
      HolderMoves(s, base, k, t, Idle);
      s', k' := s.Go(t, Idle), k - {pc.id};
    }
  }

  lemma InitStartKeeps(s: State, base: int, k: Tokens, step: Step) returns (s': State, k': Tokens)
    requires Inv(s, base, k) && step.InitStart?
    ensures s' == Apply(s, step) && Inv(s', base, k')
  {
    s', k' := s, k;
    if s.At(step.t).InitPicked? {
      s', k' := BeginKeeps(s, base, k, step.t, step.now, step.wrote);
    }
  }

  lemma ContinueKeeps(s: State, base: int, k: Tokens, t: Thread, now: int, wrote: bool) returns (s': State, k': Tokens)
    requires Inv(s, base, k) && s.At(t).ContPicked?
    ensures var pc := s.At(t);
            s' == if pc.id in s.tasks && Continuable(s.tasks[pc.id]) then Start(s, t, pc.id, Continuation, now, wrote)
                  else s.Go(t, Releasing(pc.id))
    ensures Inv(s', base, k')
  {
    var pc := s.At(t);
    assert Expects(pc, s.tasks) && Tame(s.tasks[pc.id]);
    if Continuable(s.tasks[pc.id]) {
      s', k' := StartKeeps(s, base, k, t, pc.id, Continuation, now, wrote);
    } else {
      HolderMoves(s, base, k, t, Releasing(pc.id));
      s', k' := s.Go(t, Releasing(pc.id)), k;
    }
  }

  lemma ContStartKeeps(s: State, base: int, k: Tokens, step: Step) returns (s': State, k': Tokens)
    requires Inv(s, base, k) && step.ContStart?
    ensures s' == Apply(s, step) && Inv(s', base, k')
  {
    s', k' := s, k;
    if s.At(step.t).ContPicked? {
      s', k' := ContinueKeeps(s, base, k, step.t, step.now, step.wrote);
    }
  }

  lemma ReportKeeps(s: State, base: int, k: Tokens, t: Thread, name: string, wrote: bool) returns (s': State)
    requires Inv(s, base, k) && s.At(t).Executing? && s.At(t).origin == Initial
    ensures var pc := s.At(t);
            s' == (if wrote && pc.id in s.tasks then s.Put(pc.id, MarkRuntimeContainer(s.tasks[pc.id], name)) else s)
                  .Go(t, Executing(pc.id, Initial, true))
    ensures Inv(s', base, k)
  {
    var pc := s.At(t);
    var to := Executing(pc.id, Initial, true);
    assert Expects(pc, s.tasks);
    if wrote {
      var task := MarkRuntimeContainer(s.tasks[pc.id], name);
      FirstIsUnkept(s, base, k, t);
      HolderUpdates(s, base, k, t, task, to);
      s' := s.Put(pc.id, task).Go(t, to);
    } else {
      HolderMoves(s, base, k, t, to);
      s' := s.Go(t, to);
    }
  }

  lemma SinkKeeps(s: State, base: int, k: Tokens, step: Step) returns (s': State)
    requires Inv(s, base, k) && step.Sink?
    ensures s' == Apply(s, step) && Inv(s', base, k)
  {
    var pc := s.At(step.t);
    s' := s;
    if pc.Executing? && pc.origin == Initial && !pc.sunk {
      s' := ReportKeeps(s, base, k, step.t, step.name, step.wrote);
    }
  }

  lemma CheckKeeps(s: State, base: int, k: Tokens, t: Thread) returns (s': State, k': Tokens)
    requires Inv(s, base, k) && s.At(t).Executing?
    ensures var pc := s.At(t);
            s' == if pc.id in s.tasks && Stopped(s.tasks[pc.id]) then AfterRun(s, t, pc.id, pc.origin)
                  else s.Go(t, Marking(pc.id, pc.origin))
    ensures Inv(s', base, k')
  {
    var pc := s.At(t);
    assert Expects(pc, s.tasks);
    if Stopped(s.tasks[pc.id]) {
      s', k' := AfterRunKeeps(s, base, k, t, pc.id, pc.origin);
    } else {
      HolderMoves(s, base, k, t, Marking(pc.id, pc.origin));
      s', k' := s.Go(t, Marking(pc.id, pc.origin)), k;
    }
  }

  lemma StopCheckKeeps(s: State, base: int, k: Tokens, step: Step) returns (s': State, k': Tokens)
    requires Inv(s, base, k) && step.StopCheck?
    ensures s' == Apply(s, step) && Inv(s', base, k')
  {
    s', k' := s, k;
    if s.At(step.t).Executing? {
      s', k' := CheckKeeps(s, base, k, step.t);
    }
  }

  lemma FinishKeeps(s: State, base: int, k: Tokens, step: Step) returns (s': State, k': Tokens)
    requires Inv(s, base, k) && step.Finish?
    ensures s' == Apply(s, step) && Inv(s', base, k')
  {
    var t := step.t;
    var pc := s.At(t);
    s', k' := s, k;
    if pc.Marking? {
      assert Expects(pc, s.tasks);
      s', k' := WriteOutcomeKeeps(s, base, k, t, pc.id, pc.origin, step.outcome, step.now, step.wrote);
    }
  }

  lemma CheckAndMarkKeeps(s: State, base: int, k: Tokens, t: Thread, x: Outcome, now: int, wrote: bool)
    returns (s': State, k': Tokens)
    requires Inv(s, base, k) && s.At(t).Executing?
    ensures var pc := s.At(t);
            s' == if pc.id in s.tasks && Stopped(s.tasks[pc.id]) then AfterRun(s, t, pc.id, pc.origin)
                  else WriteOutcome(s, t, pc.id, pc.origin, x, now, wrote)
    ensures Inv(s', base, k')
  {
    var pc := s.At(t);
    assert Expects(pc, s.tasks);
    if Stopped(s.tasks[pc.id]) {
      s', k' := AfterRunKeeps(s, base, k, t, pc.id, pc.origin);
    } else {
      s', k' := WriteOutcomeKeeps(s, base, k, t, pc.id, pc.origin, x, now, wrote);
    }
  }

  lemma CheckedFinishKeeps(s: State, base: int, k: Tokens, step: Step) returns (s': State, k': Tokens)
    requires Inv(s, base, k) && step.CheckedFinish?
    ensures s' == Apply(s, step) && Inv(s', base, k')
  {
    s', k' := s, k;
    if s.At(step.t).Executing? {
      s', k' := CheckAndMarkKeeps(s, base, k, step.t, step.outcome, step.now, step.wrote);
    }
  }

  lemma SubmitRollbackKeeps(s: State, base: int, k: Tokens, step: Step) returns (s': State, k': Tokens)
    requires Inv(s, base, k) && step.SubmitRollback?
    ensures s' == Apply(s, step) && Inv(s', base, k')
  {
    var t := step.t;
    var pc := s.At(t);
    s', k' := s, k;
    if pc.SubmitFull? {
      assert Expects(pc, s.tasks);
      k' := k - {pc.id};
      if step.wrote {
        var task := MarkFailed(s.tasks[pc.id], step.now, TASK_QUEUE_FULL_MESSAGE);
        HolderUpdates(s, base, k, t, task, Idle);
        s' := s.Put(pc.id, task).Go(t, Idle);
      } else {
        HolderMoves(s, base, k, t, Idle);
        s' := s.Go(t, Idle);
      }
    }
  }

  lemma SubmitAddKeeps(s: State, base: int, k: Tokens, step: Step) returns (s': State, k': Tokens)
    requires Inv(s, base, k) && step.SubmitAdd?
    ensures s' == Apply(s, step) && Inv(s', base, k')
  {
    var t, id := step.t, step.id;
    s', k' := s, k;
    if s.At(t).Idle? && id !in s.tasks && step.task.status == Queued && Coupled(step.task) {
      k' := k[id := Token(InThread(t), First)];
      s' := s.Put(id, step.task).Go(t, Submitting(id));
      assert Located(HoldsOf(s'.threads), s.queue, base, k') by {
        HoldsAt(s.threads, t, Submitting(id));
        Gain(HoldsOf(s.threads), s.queue, base, k, t, id, First);
      }
      AccountSame(s.busy, s.queued, s.accepted, s.taken, k, k');
      NewTask(s, k, t, id, step.task);
    }
  }

  lemma NewTask(s: State, k: Tokens, t: Thread, id: Id, task: Task)
    requires Expected(s.threads, s.tasks, k) && s.At(t).Idle? && id !in s.tasks && task.status == Queued
             && Coupled(task)
    ensures Expected(s.threads[t := Submitting(id)], s.tasks[id := task], k[id := Token(InThread(t), First)])
  {
    var threads, tasks, k' := s.threads[t := Submitting(id)], s.tasks[id := task], k[id := Token(InThread(t), First)];
    AtAfter(s.threads, threads, t, Submitting(id));
    forall u ensures Expects(PcAt(threads, u), tasks) {
      assert Expects(s.At(u), s.tasks);
    }
    forall u, i | Past(PcAt(threads, u), i) ensures !HasFirst(k', i) {
      assert Expects(s.At(u), s.tasks);
      assert !HasFirst(k, i);
    }
  }

  lemma SubmitEnqueueKeeps(s: State, base: int, k: Tokens, step: Step) returns (s': State, k': Tokens)
    requires Inv(s, base, k) && step.SubmitEnqueue?
    ensures s' == Apply(s, step) && Inv(s', base, k')
  {
    var t := step.t;
    var pc := s.At(t);
    s', k' := s, k;
    if pc.Submitting? {
      Alone(s, base, k, t);
      assert Expects(pc, s.tasks);
      if |s.queue| < s.capacity {
        k' := k[pc.id := Token(InQueue(base + |s.queue|), First)];
        s' := s.(queue := s.queue + [Entry(pc.id, Initial)]).Go(t, Idle);
        Passed(s, base, k, t, Entry(pc.id, Initial));
        AccountSame(s.busy, s.queued, s.accepted, s.taken, k, k');
      } else {
        HolderMoves(s, base, k, t, SubmitFull(pc.id));
        s' := s.Go(t, SubmitFull(pc.id));
      }
    }
  }

  /** The holder of a token enqueues it and is done with it. */
  lemma Passed(s: State, base: int, k: Tokens, t: Thread, e: Entry)
    requires Inv(s, base, k) && Held(s.At(t)).Hold? && Held(s.At(t)).id == e.id
    requires EntryStage(e).First? <==> Held(s.At(t)).stage.First?
    requires e.id in s.tasks
    ensures var k' := k[e.id := Token(InQueue(base + |s.queue|), EntryStage(e))];
            && Located(HoldsOf(s.threads[t := Idle]), s.queue + [e], base, k')
            && Expected(s.threads[t := Idle], s.tasks, k')
  {
    var k' := k[e.id := Token(InQueue(base + |s.queue|), EntryStage(e))];
    assert Located(HoldsOf(s.threads[t := Idle]), s.queue + [e], base, k') by {
      HoldsAt(s.threads, t, Idle);
      Enqueue(HoldsOf(s.threads), s.queue, base, k, t, e);
    }
    Handover(s, base, k, t, k'[e.id]);
  }

  /** The holder of a token passes it on and is done with it. */
  lemma Handover(s: State, base: int, k: Tokens, t: Thread, token: Token)
    requires Inv(s, base, k) && Held(s.At(t)).Hold?
    requires token.stage.First? <==> Held(s.At(t)).stage.First?
    requires Held(s.At(t)).id in s.tasks
    ensures Expected(s.threads[t := Idle], s.tasks, k[Held(s.At(t)).id := token])
  {
    Alone(s, base, k, t);
    Leave(s.threads, s.tasks, k, t);
    Retoken(s.threads[t := Idle], s.tasks, k, k[Held(s.At(t)).id := token]);
  }

  lemma SendCheckKeeps(s: State, base: int, k: Tokens, step: Step) returns (s': State)
    requires Inv(s, base, k) && step.SendCheck?
    ensures s' == Apply(s, step) && Inv(s', base, k)
  {
    var t, id := step.t, step.id;
    s' := s;
    if s.At(t).Idle? && id in s.tasks && step.message != "" && Continuable(s.tasks[id]) {
      s' := s.Go(t, SendChecked(id, step.message));
      Moves(s, base, k, t, SendChecked(id, step.message));
      KeptIsPast(s, base, k, id);
      Enter(s.threads, s.tasks, k, t, SendChecked(id, step.message));
    }
  }

  /** A kept container means that the task's initial run is over. */
  lemma KeptIsPast(s: State, base: int, k: Tokens, id: Id)
    requires Inv(s, base, k) && id in s.tasks && s.tasks[id].containerKept
    ensures !HasFirst(k, id)
  {
  }

  /** A token in a thread is what that thread holds. */
  lemma Holder(s: State, base: int, k: Tokens, id: Id)
    requires Inv(s, base, k) && id in k && k[id].place.InThread?
    ensures Held(s.At(k[id].place.t)) == Hold(id, k[id].stage) && Expects(s.At(k[id].place.t), s.tasks)
  {
    var t := k[id].place.t;
    assert HoldsOf(s.threads)[t] == Held(s.At(t));
  }

  lemma SendReserveKeeps(s: State, base: int, k: Tokens, step: Step) returns (s': State, k': Tokens)
    requires Inv(s, base, k) && step.SendReserve?
    ensures s' == Apply(s, step) && Inv(s', base, k')
  {
    var t := step.t;
    var pc := s.At(t);
    s', k' := s, k;
    if pc.SendChecked? {
      assert Expects(pc, s.tasks);
      if pc.id in s.busy {
        s' := s.Go(t, Idle);
        Moves(s, base, k, t, Idle);
        Leave(s.threads, s.tasks, k, t);
      } else {
        var to := SendReserved(pc.id, pc.message);
        assert pc.id !in k by {
          assert Past(pc, pc.id);
          assert !HasFirst(k, pc.id);
        }
        k' := k[pc.id := Token(InThread(t), Unsent(pc.message))];
        s' := s.(busy := s.busy + {pc.id}, queued := s.queued[pc.id := pc.message]).Go(t, to);
        assert Located(HoldsOf(s.threads[t := to]), s.queue, base, k') by {
          HoldsAt(s.threads, t, to);
          Gain(HoldsOf(s.threads), s.queue, base, k, t, pc.id, Unsent(pc.message));
        }
        AccountReserve(s.busy, s.queued, s.accepted, s.taken, k, pc.id, pc.message, InThread(t));
        Claim(s, k, t, to, k'[pc.id]);
      }
    }
  }

  lemma Claim(s: State, k: Tokens, t: Thread, pc: Pc, token: Token)
    requires Expected(s.threads, s.tasks, k) && Held(pc).Hold? && Expects(pc, s.tasks) && token.place.InThread?
    requires token.stage.First? ==> HasFirst(k, Held(pc).id)
    ensures Expected(s.threads[t := pc], s.tasks, k[Held(pc).id := token])
  {
    HoldersAreNotPast(pc);
    Enter(s.threads, s.tasks, k, t, pc);
    Retoken(s.threads[t := pc], s.tasks, k, k[Held(pc).id := token]);
  }

  lemma SendEnqueueKeeps(s: State, base: int, k: Tokens, step: Step) returns (s': State, k': Tokens)
    requires Inv(s, base, k) && step.SendEnqueue?
    ensures s' == Apply(s, step) && Inv(s', base, k')
  {
    var t := step.t;
    var pc := s.At(t);
    s', k' := s, k;
    if pc.SendReserved? {
      assert Expects(pc, s.tasks);
      Alone(s, base, k, t);
      if |s.queue| < s.capacity {
        var e := Entry(pc.id, Continuation);
        k' := k[pc.id := Token(InQueue(base + |s.queue|), Waiting)];
        s' := s.(queue := s.queue + [e], accepted := Append(s.accepted, pc.id, pc.message)).Go(t, Idle);
        Passed(s, base, k, t, e);
        AccountSend(s.busy, s.queued, s.accepted, s.taken, k, pc.id, InQueue(base + |s.queue|));
      } else {
        HolderMoves(s, base, k, t, SendFull(pc.id, pc.message));
        s' := s.Go(t, SendFull(pc.id, pc.message));
      }
    }
  }

  lemma FreedKeeps(s: State, base: int, k: Tokens, t: Thread) returns (s': State, k': Tokens)
    requires Inv(s, base, k) && (s.At(t).SendFull? || s.At(t).Releasing?)
    ensures s' == s.Freed(s.At(t).id).Go(t, Idle) && Inv(s', base, k')
  {
    var id := s.At(t).id;
    Alone(s, base, k, t);
    s', k' := s.Freed(id).Go(t, Idle), k - {id};
    assert Located(HoldsOf(s.threads[t := Idle]), s.queue, base, k') by {
      HoldsAt(s.threads, t, Idle);
      Drop(HoldsOf(s.threads), s.queue, base, k, t, id);
    }
    AccountFree(s.busy, s.queued, s.accepted, s.taken, k, id);
    Leave(s.threads, s.tasks, k, t);
    Retoken(s.threads[t := Idle], s.tasks, k, k');
  }

  lemma DequeueTokens(s: State, base: int, k: Tokens, t: Thread)
    requires Located(HoldsOf(s.threads), s.queue, base, k) && s.At(t).Idle? && s.queue != []
    requires Accounted(s.busy, s.queued, k) && Conserved(s.queued, s.accepted, s.taken, k)
    ensures var e := s.queue[0];
            var k' := k[e.id := Token(InThread(t), EntryStage(e))];
            && Located(HoldsOf(s.threads[t := Popped(e.id, e.origin)]), s.queue[1..], base + 1, k')
            && Accounted(s.busy, s.queued, k') && Conserved(s.queued, s.accepted, s.taken, k')
            && e.id in k && k[e.id].stage == EntryStage(e) && k[e.id].place.InQueue?
  {
    var e := s.queue[0];
    assert EntryAt(s.queue, 0) == e;
    HoldsAt(s.threads, t, Popped(e.id, e.origin));
    Pop(HoldsOf(s.threads), s.queue, base, k, t);
    AccountSame(s.busy, s.queued, s.accepted, s.taken, k, k[e.id := Token(InThread(t), EntryStage(e))]);
  }

  lemma PoppedExpects(e: Entry, threads: map<Thread, Pc>, tasks: map<Id, Task>, k: Tokens)
    requires Expected(threads, tasks, k) && e.id in k && k[e.id].stage == EntryStage(e) && k[e.id].place.InQueue?
    ensures Expects(Popped(e.id, e.origin), tasks)
    ensures EntryStage(e).First? ==> HasFirst(k, e.id)
  {
  }

  lemma DequeueKeeps(s: State, base: int, k: Tokens, step: Step) returns (s': State, base': int, k': Tokens)
    requires Inv(s, base, k) && step.Dequeue?
    ensures s' == Apply(s, step) && Inv(s', base', k')
  {
    var t := step.t;
    s', base', k' := s, base, k;
    if s.At(t).Idle? && s.queue != [] {
      var e := s.queue[0];
      var to := Popped(e.id, e.origin);
      base', k' := base + 1, k[e.id := Token(InThread(t), EntryStage(e))];
      s' := s.(queue := s.queue[1..]).Go(t, to);
      DequeueTokens(s, base, k, t);
      PoppedExpects(e, s.threads, s.tasks, k);
      Claim(s, k, t, to, k'[e.id]);
    }
  }

  lemma TakeKeeps(s: State, base: int, k: Tokens, step: Step) returns (s': State, k': Tokens)
    requires Inv(s, base, k) && step.Take?
    ensures s' == Apply(s, step) && Inv(s', base, k')
  {
    var t := step.t;
    var pc := s.At(t);
    s', k' := s, k;
    if pc.Popped? {
      if pc.id in s.queued {
        s', k' := TakeMessageKeeps(s, base, k, t, pc.id);
      } else {
        assert Expects(pc, s.tasks);
        Alone(s, base, k, t);
        HolderMoves(s, base, k, t, InitPicked(pc.id));
        s' := s.Go(t, InitPicked(pc.id));
      }
    }
  }

  lemma TakeMessageKeeps(s: State, base: int, k: Tokens, t: Thread, id: Id) returns (s': State, k': Tokens)
    requires Inv(s, base, k) && s.At(t).Popped? && s.At(t).id == id && id in s.queued
    ensures s' == s.(queued := s.queued - {id}, taken := Append(s.taken, id, s.queued[id]))
                  .Go(t, ContPicked(id, s.queued[id]))
    ensures Inv(s', base, k')
  {
    var to := ContPicked(id, s.queued[id]);
    assert Expects(s.At(t), s.tasks);
    Alone(s, base, k, t);
    k' := k[id := Token(InThread(t), Delivered)];
    s' := s.(queued := s.queued - {id}, taken := Append(s.taken, id, s.queued[id])).Go(t, to);
    assert Located(HoldsOf(s.threads[t := to]), s.queue, base, k') by {
      HoldsAt(s.threads, t, to);
      Advance(HoldsOf(s.threads), s.queue, base, k, t, id, Delivered);
    }
    AccountDeliver(s.busy, s.queued, s.accepted, s.taken, k, id, InThread(t));
    Claim(s, k, t, to, k'[id]);
  }

  /** A closer or the cleaner sets out, having read a task. */
  lemma WatcherKeeps(s: State, base: int, k: Tokens, t: Thread, pc: Pc)
    requires Inv(s, base, k) && Held(s.At(t)).Nothing? && (pc.Closing? || pc.ClosingFreed? || pc.CleanSeen?)
    requires pc.id in s.tasks
    ensures Inv(s.Go(t, pc), base, k)
  {
    Moves(s, base, k, t, pc);
    Enter(s.threads, s.tasks, k, t, pc);
  }

  /** ... and is done. */
  lemma WatcherLeaves(s: State, base: int, k: Tokens, t: Thread)
    requires Inv(s, base, k) && Held(s.At(t)).Nothing?
    ensures Inv(s.Go(t, Idle), base, k)
  {
    Moves(s, base, k, t, Idle);
    Leave(s.threads, s.tasks, k, t);
  }

  lemma ClosingIsSoft(t: Task, now: int)
    requires Tame(t)
    ensures Soft(t, MarkStopped(t, now, TASK_STOPPED_MESSAGE)) && Soft(t, MarkContainerClosed(t, now))
  {
  }

  /** Any task may be stopped or closed at any moment. */
  lemma ShutKeeps(s: State, base: int, k: Tokens, id: Id, now: int)
    requires Inv(s, base, k) && id in s.tasks
    ensures Inv(s.Put(id, MarkStopped(s.tasks[id], now, TASK_STOPPED_MESSAGE)), base, k)
    ensures Inv(s.Put(id, MarkContainerClosed(s.tasks[id], now)), base, k)
  {
    ClosingIsSoft(s.tasks[id], now);
    SoftMark(s, base, k, id, MarkStopped(s.tasks[id], now, TASK_STOPPED_MESSAGE));
    SoftMark(s, base, k, id, MarkContainerClosed(s.tasks[id], now));
  }

  /** A slot that is free may be freed. */
  lemma FreeIsFreed(s: State, base: int, k: Tokens, id: Id)
    requires Inv(s, base, k) && id !in s.busy
    ensures s.Freed(id) == s
  {
    assert id !in s.queued;
    assert s.busy - {id} == s.busy && s.queued - {id} == s.queued;
  }

  lemma CloseGetKeeps(s: State, base: int, k: Tokens, step: Step)
    requires Inv(s, base, k) && step.CloseGet?
    ensures Inv(Apply(s, step), base, k)
  {
    if s.At(step.t).Idle? && step.id in s.tasks {
      WatcherKeeps(s, base, k, step.t, Closing(step.id, s.tasks[step.id]));
    }
  }

  lemma CleanGetKeeps(s: State, base: int, k: Tokens, step: Step)
    requires Inv(s, base, k) && step.CleanGet?
    ensures Inv(Apply(s, step), base, k)
  {
    if s.At(step.t).Idle? && step.id in s.tasks {
      WatcherKeeps(s, base, k, step.t, CleanSeen(step.id, s.tasks[step.id]));
    }
  }

  lemma CloseFreeKeeps(s: State, base: int, k: Tokens, step: Step)
    requires Inv(s, base, k) && step.CloseFree? && FreesNothing(s, step)
    ensures Inv(Apply(s, step), base, k)
  {
    var pc := s.At(step.t);
    if pc.Closing? {
      assert Expects(pc, s.tasks);
      FreeIsFreed(s, base, k, pc.id);
      WatcherKeeps(s, base, k, step.t, ClosingFreed(pc.id, pc.seen));
    }
  }

  lemma CloseMarkKeeps(s: State, base: int, k: Tokens, step: Step)
    requires Inv(s, base, k) && step.CloseMark?
    ensures Inv(Apply(s, step), base, k)
  {
    var pc := s.At(step.t);
    if pc.ClosingFreed? {
      assert Expects(pc, s.tasks);
      ShutKeeps(s, base, k, pc.id, step.now);
      WatcherLeaves(CloseWrite(s, pc.id, pc.seen, step.dockerOk, step.now, step.wrote), base, k, step.t);
    }
  }

  lemma CleanWriteKeeps(s: State, base: int, k: Tokens, t: Thread, step: Step)
    requires Inv(s, base, k) && s.At(t).CleanSeen? && step.CleanMark?
    ensures var pc := s.At(t);
            var w := CleanWrite(s, pc.id, pc.seen, step.live, step.expired, step.dockerOk, step.now, step.wrote);
            Inv(w.Go(t, Idle), base, k)
  {
    var pc := s.At(t);
    assert Expects(pc, s.tasks);
    ShutKeeps(s, base, k, pc.id, step.now);
    var w := CleanWrite(s, pc.id, pc.seen, step.live, step.expired, step.dockerOk, step.now, step.wrote);
    WatcherLeaves(w, base, k, t);
  }

  lemma CleanMarkKeeps(s: State, base: int, k: Tokens, step: Step)
    requires Inv(s, base, k) && step.CleanMark?
    ensures Inv(Apply(s, step), base, k)
  {
    if s.At(step.t).CleanSeen? {
      CleanWriteKeeps(s, base, k, step.t, step);
    }
  }

  lemma AtOnceKeeps(s: State, base: int, k: Tokens, step: Step)
    requires Inv(s, base, k) && (step.Close? || step.Clean?) && FreesNothing(s, step)
    ensures Inv(Apply(s, step), base, k)
  {
    if step.id in s.tasks {
      if step.Close? {
        FreeIsFreed(s, base, k, step.id);
      }
      ShutKeeps(s, base, k, step.id, step.now);
    }
  }

  lemma CloserKeeps(s: State, base: int, k: Tokens, step: Step)
    requires Inv(s, base, k) && ByCloser(step) && FreesNothing(s, step)
    ensures Inv(Apply(s, step), base, k)
  {
    if step.CloseGet? {
      CloseGetKeeps(s, base, k, step);
    } else if step.CleanGet? {
      CleanGetKeeps(s, base, k, step);
    } else if step.CloseFree? {
      CloseFreeKeeps(s, base, k, step);
    } else if step.CloseMark? {
      CloseMarkKeeps(s, base, k, step);
    } else if step.CleanMark? {
      CleanMarkKeeps(s, base, k, step);
    } else {
      AtOnceKeeps(s, base, k, step);
    }
  }

  lemma NoteKeeps(s: State, base: int, k: Tokens, step: Step)
    requires Inv(s, base, k) && Notes(step)
    ensures Inv(Apply(s, step), base, k)
  {
    if step.id in s.tasks {
      assert Tame(s.tasks[step.id]);
      SoftMark(s, base, k, step.id, Apply(s, step).tasks[step.id]);
    }
  }

  lemma ClearResultsKeeps(s: State, base: int, k: Tokens, step: Step)
    requires Inv(s, base, k) && step.ClearResults?
    ensures Inv(Apply(s, step), base, k)
  {
    ClearedExpected(s.threads, s.tasks, k, step.reached, step.stuck);
  }

  lemma ClearingExpects(pc: Pc, tasks: map<Id, Task>, tasks': map<Id, Task>, reached: set<Id>, stuck: Option<Id>)
    requires Expects(pc, tasks) && (!pc.Idle? ==> pc.id in tasks')
    requires forall id | id in tasks :: id in tasks' && tasks'[id] == AfterClearing(tasks[id], id, reached, stuck)
    ensures Expects(pc, tasks')
  {
  }

  lemma ClearedExpected(threads: map<Thread, Pc>, tasks: map<Id, Task>, k: Tokens, reached: set<Id>, stuck: Option<Id>)
    requires Expected(threads, tasks, k)
    ensures Expected(threads, (map id | id in tasks :: AfterClearing(tasks[id], id, reached, stuck)), k)
  {
    var tasks' := map id | id in tasks :: AfterClearing(tasks[id], id, reached, stuck);
    forall u ensures Expects(PcAt(threads, u), tasks') {
      assert Expects(PcAt(threads, u), tasks);
      ClearingExpects(PcAt(threads, u), tasks, tasks', reached, stuck);
    }
    Retask(threads, tasks, tasks', k);
  }

  lemma CallerKeeps(s: State, base: int, k: Tokens, step: Step) returns (s': State, k': Tokens)
    requires Inv(s, base, k)
    requires ByCaller(step)
    ensures s' == Apply(s, step) && Inv(s', base, k')
  {
    s', k' := s, k;
    match step
    case SubmitAdd(_, _, _) => s', k' := SubmitAddKeeps(s, base, k, step);
    case SubmitEnqueue(_) => s', k' := SubmitEnqueueKeeps(s, base, k, step);
    case SubmitRollback(_, _, _) => s', k' := SubmitRollbackKeeps(s, base, k, step);
    case SendCheck(_, _, _) => s' := SendCheckKeeps(s, base, k, step);
    case SendReserve(_) => s', k' := SendReserveKeeps(s, base, k, step);
    case SendEnqueue(_) => s', k' := SendEnqueueKeeps(s, base, k, step);
    case SendRollback(t) => if s.At(t).SendFull? { s', k' := FreedKeeps(s, base, k, t); }
  }

  lemma WorkerKeeps(s: State, base: int, k: Tokens, step: Step) returns (s': State, k': Tokens)
    requires Inv(s, base, k) && ByWorker(step) && !step.Dequeue?
    ensures s' == Apply(s, step) && Inv(s', base, k')
  {
    s', k' := s, k;
    match step
    case Take(_) => s', k' := TakeKeeps(s, base, k, step);
    case InitCheck(_) => s', k' := InitCheckKeeps(s, base, k, step);
    case ContCheck(_) => s', k' := ContCheckKeeps(s, base, k, step);
    case StartRun(_, _, _) => s', k' := StartRunKeeps(s, base, k, step);
    case InitStart(_, _, _) => s', k' := InitStartKeeps(s, base, k, step);
    case ContStart(_, _, _) => s', k' := ContStartKeeps(s, base, k, step);
    case Sink(_, _, _) => s' := SinkKeeps(s, base, k, step);
    case StopCheck(_) => s', k' := StopCheckKeeps(s, base, k, step);
    case Finish(_, _, _, _) => s', k' := FinishKeeps(s, base, k, step);
    case CheckedFinish(_, _, _, _) => s', k' := CheckedFinishKeeps(s, base, k, step);
    case Release(t) => if s.At(t).Releasing? { s', k' := FreedKeeps(s, base, k, t); }
  }

  lemma StepKeeps(s: State, base: int, k: Tokens, step: Step) returns (s': State, base': int, k': Tokens)
    requires Inv(s, base, k) && FreesNothing(s, step)
    ensures s' == Apply(s, step) && Inv(s', base', k')
  {
    base', k' := base, k;
    if step.Dequeue? {
      s', base', k' := DequeueKeeps(s, base, k, step);
    } else if ByCaller(step) {
      s', k' := CallerKeeps(s, base, k, step);
    } else if ByWorker(step) {
      s', k' := WorkerKeeps(s, base, k, step);
    } else {
      s' := Apply(s, step);
      if ByCloser(step) {
        CloserKeeps(s, base, k, step);
      } else if Notes(step) {
        NoteKeeps(s, base, k, step);
      } else {
        ClearResultsKeeps(s, base, k, step);
      }
    }
  }

  // ---- whole runs ----

  function QueueTokens(queue: seq<Entry>): Tokens {
    if queue == [] then map[]
    else QueueTokens(queue[..|queue| - 1])[queue[|queue| - 1].id := Token(InQueue(|queue| - 1), First)]
  }

  lemma {:induction false} QueueLocated(queue: seq<Entry>)
    requires forall e | e in queue :: e.origin == Initial
    requires forall i, j | 0 <= i < j < |queue| :: queue[i].id != queue[j].id
    ensures Located(map[], queue, 0, QueueTokens(queue))
    ensures forall id | id in QueueTokens(queue) ::
              QueueTokens(queue)[id].stage.First? && QueueTokens(queue)[id].place.InQueue?
                  && Entry(id, Initial) in queue
  {
    if queue != [] {
      var rest, last := queue[..|queue| - 1], queue[|queue| - 1];
      QueueLocated(rest);
      assert last.id !in QueueTokens(rest);
      QueueGrows(rest, last, QueueTokens(rest));
      assert queue == rest + [last];
    }
  }

  lemma QueueGrows(queue: seq<Entry>, e: Entry, k: Tokens)
    requires Located(map[], queue, 0, k) && e.origin == Initial && e.id !in k
    ensures Located(map[], queue + [e], 0, k[e.id := Token(InQueue(|queue|), First)])
  {
    assert forall i | 0 <= i < |queue| :: EntryAt(queue + [e], i) == EntryAt(queue, i);
  }

  lemma FreshInv(s: State) returns (k: Tokens)
    requires Fresh(s)
    ensures Inv(s, 0, k)
  {
    k := QueueTokens(s.queue);
    QueueLocated(s.queue);
    assert HoldsOf(s.threads) == map[];
    assert Expected(s.threads, s.tasks, k);
  }

  lemma {:induction false} RunKeeps(s: State, base: int, k: Tokens, steps: seq<Step>) returns (base': int, k': Tokens)
    requires Inv(s, base, k) && SlotsSurvive(s, steps)
    ensures Inv(Run(s, steps), base', k')
    decreases |steps|
  {
    if steps == [] {
      base', k' := base, k;
    } else {
      SurviveOn(s, steps);
      var s1, base1, k1 := StepKeeps(s, base, k, steps[0]);
      base', k' := RunKeeps(s1, base1, k1, steps[1..]);
    }
  }

  lemma OneExecutor(s: State, base: int, k: Tokens)
    requires Located(HoldsOf(s.threads), s.queue, base, k)
    ensures MutualExclusion(s)
  {
    forall t, u, id | Executes(s.At(t), id) && Executes(s.At(u), id) ensures t == u {
      Alone(s, base, k, t);
    }
  }

  /** Whatever the steps, as long as no close frees a slot that is taken, no task is executed by two workers at
      once. */
  lemma {:induction false} NoDoubleExecution(s: State, steps: seq<Step>)
    requires Fresh(s) && SlotsSurvive(s, steps)
    ensures MutualExclusion(Run(s, steps))
  {
    var k := FreshInv(s);
    var base, k' := RunKeeps(s, 0, k, steps);
    OneExecutor(Run(s, steps), base, k');
  }

  /** A party that stands for a continuation of `id`: a thread on the way from reserving the slot to releasing it,
      or an entry of the queue, counted from its head. */
  ghost predicate StandsFor(s: State, p: Place, id: Id) {
    match p
    case InThread(t) => Held(s.At(t)).Hold? && Held(s.At(t)).id == id && !Held(s.At(t)).stage.First?
    case InQueue(i) => 0 <= i < |s.queue| && s.queue[i] == Entry(id, Continuation)
  }

  lemma Standing(s: State, base: int, k: Tokens, p: Place, id: Id)
    requires Inv(s, base, k) && StandsFor(s, p, id)
    ensures id in k && !k[id].stage.First?
    ensures p == match k[id].place case InThread(t) => InThread(t) case InQueue(n) => InQueue(n - base)
  {
    match p
    case InThread(t) =>
      Alone(s, base, k, t);
    case InQueue(i) =>
      assert EntryAt(s.queue, i) == Entry(id, Continuation);
  }

  /** The slot of a task is taken exactly while one party stands for a continuation of it, and never two do;
      messages are kept only for tasks whose slot is taken. */
  lemma {:induction false} SlotIsHeldByOne(s: State, steps: seq<Step>, id: Id)
    requires Fresh(s) && SlotsSurvive(s, steps)
    ensures var r := Run(s, steps);
            && (id in r.busy <==> exists p :: StandsFor(r, p, id))
            && (forall p, q | StandsFor(r, p, id) && StandsFor(r, q, id) :: p == q)
            && (id in r.queued ==> id in r.busy)
  {
    var k0 := FreshInv(s);
    var base, k := RunKeeps(s, 0, k0, steps);
    var r := Run(s, steps);
    forall p, q | StandsFor(r, p, id) && StandsFor(r, q, id) ensures p == q {
      Standing(r, base, k, p, id);
      Standing(r, base, k, q, id);
    }
    if id in r.busy {
      if k[id].place.InThread? {
        Holder(r, base, k, id);
        assert StandsFor(r, k[id].place, id);
      } else {
        var i := k[id].place.n - base;
        assert EntryAt(r.queue, i).id == id;
        assert StandsFor(r, InQueue(i), id);
      }
    }
    if p :| StandsFor(r, p, id) {
      Standing(r, base, k, p, id);
    }
  }

  /** An acknowledged message that no worker has taken: its entry is queued, or a worker just dequeued it. */
  ghost predicate AwaitsWorker(s: State, id: Id) {
    Entry(id, Continuation) in s.queue || exists t :: s.At(t) == Popped(id, Continuation)
  }

  lemma AwaitedWaits(s: State, base: int, k: Tokens, id: Id)
    requires Inv(s, base, k) && AwaitsWorker(s, id)
    ensures id in k && k[id].stage.Waiting?
  {
    if Entry(id, Continuation) in s.queue {
      var i :| 0 <= i < |s.queue| && s.queue[i] == Entry(id, Continuation);
      assert EntryAt(s.queue, i).id == id;
    } else {
      var t :| s.At(t) == Popped(id, Continuation);
      Alone(s, base, k, t);
    }
  }

  lemma WaitingIsAwaited(s: State, base: int, k: Tokens, id: Id)
    requires Inv(s, base, k) && id in k && k[id].stage.Waiting?
    ensures AwaitsWorker(s, id)
  {
    if k[id].place.InThread? {
      Holder(s, base, k, id);
      assert s.At(k[id].place.t) == Popped(id, Continuation);
    } else {
      var i := k[id].place.n - base;
      assert EntryAt(s.queue, i).id == id;
      assert s.queue[i] == Entry(id, Continuation);
    }
  }

  lemma AwaitedIsWaiting(s: State, base: int, k: Tokens, id: Id)
    requires Inv(s, base, k)
    ensures AwaitsWorker(s, id) <==> id in k && k[id].stage.Waiting?
  {
    if AwaitsWorker(s, id) {
      AwaitedWaits(s, base, k, id);
    }
    if id in k && k[id].stage.Waiting? {
      WaitingIsAwaited(s, base, k, id);
    }
  }

  /** For every task, the messages acknowledged to senders are those that workers took, each once and in order,
      followed by the one that still awaits a worker, kept unaltered. */
  lemma {:induction false} MessagesAreConserved(s: State, steps: seq<Step>, id: Id)
    requires Fresh(s) && SlotsSurvive(s, steps)
    ensures var r := Run(s, steps);
            && (AwaitsWorker(r, id) ==> id in r.queued)
            && r.Accepted(id) == r.Taken(id) + (if AwaitsWorker(r, id) then [r.queued[id]] else [])
  {
    var k0 := FreshInv(s);
    var base, k := RunKeeps(s, 0, k0, steps);
    var r := Run(s, steps);
    AwaitedIsWaiting(r, base, k, id);
    assert Get(r.accepted, id) == Get(r.taken, id) + Pending(r.queued, k, id);
  }

  /** A worker that dequeued an initial run finds no message; one that dequeued a continuation finds one. */
  lemma {:induction false} EntriesFindTheirOwn(s: State, steps: seq<Step>, t: Thread)
    requires Fresh(s) && SlotsSurvive(s, steps) && Run(s, steps).At(t).Popped?
    ensures var r := Run(s, steps);
            r.At(t).id in r.queued <==> r.At(t).origin == Continuation
  {
    var k0 := FreshInv(s);
    var base, k := RunKeeps(s, 0, k0, steps);
    Alone(Run(s, steps), base, k, t);
  }

  lemma CommittedIsUnflagged(pc: Pc, tasks: map<Id, Task>, step: Step)
    requires Expects(pc, tasks) && Commits(pc, step)
    ensures pc.id in tasks && Unflagged(tasks[pc.id])
  {
  }

  /** The invariant keeps outcomes away from solved tasks. */
  lemma InvIsOrderly(s: State, base: int, k: Tokens, step: Step)
    requires Inv(s, base, k)
    ensures Orderly(s, step)
  {
    if ByCaller(step) || ByWorker(step) {
      assert Expects(s.At(step.t), s.tasks);
      if Commits(s.At(step.t), step) {
        CommittedIsUnflagged(s.At(step.t), s.tasks, step);
      }
    }
  }

  lemma {:induction false} RunIsOrderly(s: State, steps: seq<Step>)
    requires Fresh(s) && SlotsSurvive(s, steps)
    ensures forall i | 0 <= i < |steps| :: Orderly(Run(s, steps[..i]), steps[i])
  {
    var k0 := FreshInv(s);
    forall i | 0 <= i < |steps| ensures Orderly(Run(s, steps[..i]), steps[i]) {
      SurviveBefore(s, steps, i);
      var base, k := RunKeeps(s, 0, k0, steps[..i]);
      InvIsOrderly(Run(s, steps[..i]), base, k, steps[i]);
    }
  }

  /** The flag of a task is set exactly when it is solved, in two cases excepted. It was lost: clearing the results
      found the task solved, could not remove its writeup, and nothing put that right. Or it is stray: a close that had
      read the task as queued stopped it when it was solved, and no clearing took the flag. */
  lemma {:induction false} FlagsMatchStatus(s: State, steps: seq<Step>, id: Id)
    requires Fresh(s) && SlotsSurvive(s, steps) && id in Run(s, steps).tasks
    ensures var t := Run(s, steps).tasks[id];
            && (Flagless(t) <==> FlagIsLost(s, steps, id))
            && (Stray(t) <==> FlagIsStray(s, steps, id))
            && (Consistent(t) <==> !FlagIsStray(s, steps, id))
            && (Coupled(t) <==> !FlagIsLost(s, steps, id) && !FlagIsStray(s, steps, id))
  {
    var k0 := FreshInv(s);
    var base, k := RunKeeps(s, 0, k0, steps);
    RunIsOrderly(s, steps);
    FlagRun(s, steps, id);
    ConsistentIsTame(Run(s, steps).tasks[id]);
  }
}
