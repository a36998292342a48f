/** The task dispatcher as a state machine. Every store call and every section under the service's run lock is
    one step, so that a run is any interleaving of callers, workers and the retention cleaner. A step that its
    thread is not ready for leaves the state as it is. */
module Dispatcher {
  import opened Names
  import opened Options
  import opened Tasks

  type Id = string
  type Thread = int

  /** Why a queue entry exists. The source's queue holds bare ids; no step branches on the origin. */
  datatype Origin = Initial | Continuation

  datatype Entry = Entry(id: Id, origin: Origin)

  /** Where a thread stands between two of its steps. */
  datatype Pc =
    | Idle
    | Submitting(id: Id)                          // stored, not yet enqueued
    | SubmitFull(id: Id)                          // the queue refused; the task is yet to be failed
    | SendChecked(id: Id, message: string)        // a sender that saw a continuable task
    | SendReserved(id: Id, message: string)       // a sender that holds the slot
    | SendFull(id: Id, message: string)           // the queue refused; the slot is yet to be released
    | Popped(id: Id, origin: Origin)              // a worker with an entry, before it asks for a message
    | InitPicked(id: Id)
    | InitChecked(id: Id)                         // saw the task queued
    | ContPicked(id: Id, message: string)
    | ContChecked(id: Id, message: string)        // saw the task continuable
    | Executing(id: Id, origin: Origin, sunk: bool) // after MarkRunning; sunk once the container name was reported
    | Marking(id: Id, origin: Origin)             // saw the task not stopped; the outcome is yet to be written
    | Releasing(id: Id)                           // a continuation is over; the slot is yet to be released
    | Closing(id: Id, seen: Task)                 // CloseTaskContainer with the task it read
    | ClosingFreed(id: Id, seen: Task)            // ... after it freed the slot
    | CleanSeen(id: Id, seen: Task)               // the cleaner with the task it listed

  function PcAt(threads: map<Thread, Pc>, t: Thread): Pc {
    if t in threads then threads[t] else Idle
  }

  /** `accepted` and `taken` record, for each task, the messages that SendTaskMessage acknowledged and those that
      workers took; no step reads them. */
  datatype State = State(
    tasks: map<Id, Task>,
    busy: set<Id>,
    queued: map<Id, string>,
    queue: seq<Entry>,
    capacity: nat,
    threads: map<Thread, Pc>,
    accepted: map<Id, seq<string>>,
    taken: map<Id, seq<string>>)
  {
    function At(t: Thread): Pc {
      PcAt(threads, t)
    }

    function Go(t: Thread, pc: Pc): State {
      this.(threads := threads[t := pc])
    }

    /** Store.update with a write that succeeds. */
    function Put(id: Id, task: Task): State {
      this.(tasks := tasks[id := task])
    }

    function Accepted(id: Id): seq<string> {
      if id in accepted then accepted[id] else []
    }

    function Taken(id: Id): seq<string> {
      if id in taken then taken[id] else []
    }

    /** releaseTaskSlot */
    function Freed(id: Id): State {
      this.(busy := busy - {id}, queued := queued - {id})
    }
  }

  /** A service without tasks. */
  function Blank(capacity: nat): State {
    State(map[], {}, map[], [], capacity, map[], map[], map[])
  }

  /** The terminal mark a worker writes, with the fields it takes from the runner's result. */
  datatype Outcome =
    | Failing(message: string)
    | Completing(exitCode: int, step: string, name: string, kept: bool)
    | Breaking(exitCode: int, step: string, name: string, kept: bool, message: string)
    | Solving(exitCode: int, flag: string, name: string)

  function MarkOutcome(t: Task, o: Outcome, now: int): Task {
    match o
    case Failing(m) => MarkFailed(t, now, m)
    case Completing(e, s, n, k) => MarkCompleted(t, now, e, s, n, k)
    case Breaking(e, s, n, k, m) => MarkFinished(t, now, e, None, s, n, k, m)
    case Solving(e, f, n) => MarkFinished(t, now, e, Some(f), FLAG_STEP, n, false, "")
  }

  /** `wrote` says whether the store's write succeeded; the other inputs are what the environment answered. */
  datatype Step =
    | SubmitAdd(t: Thread, id: Id, task: Task) // a submission whose first write fails leaves nothing
    | SubmitEnqueue(t: Thread)
    | SubmitRollback(t: Thread, now: int, wrote: bool)
    | SendCheck(t: Thread, id: Id, message: string)
    | SendReserve(t: Thread)
    | SendEnqueue(t: Thread)
    | SendRollback(t: Thread)
    | Dequeue(t: Thread)
    | Take(t: Thread)
    | InitCheck(t: Thread)
    | ContCheck(t: Thread)
    | StartRun(t: Thread, now: int, wrote: bool)
    | InitStart(t: Thread, now: int, wrote: bool)      // InitCheck and StartRun at once
    | ContStart(t: Thread, now: int, wrote: bool)      // ContCheck and StartRun at once
    | Sink(t: Thread, name: string, wrote: bool)
    | StopCheck(t: Thread)
    | Finish(t: Thread, outcome: Outcome, now: int, wrote: bool)
    | CheckedFinish(t: Thread, outcome: Outcome, now: int, wrote: bool) // StopCheck and Finish at once
    | Release(t: Thread)
    | CloseGet(t: Thread, id: Id)
    | CloseFree(t: Thread)
    | CloseMark(t: Thread, dockerOk: bool, now: int, wrote: bool)
    | Close(id: Id, dockerOk: bool, now: int, wrote: bool) // CloseGet, CloseFree and CloseMark at once
    | CleanGet(t: Thread, id: Id)
    | CleanMark(t: Thread, live: bool, expired: bool, dockerOk: bool, now: int, wrote: bool)
    | Clean(id: Id, live: bool, expired: bool, dockerOk: bool, now: int, wrote: bool) // CleanGet and CleanMark at once
    | Log(id: Id, bytes: nat)
    | Session(id: Id, session: string)
    | SaveWriteup(id: Id, filename: string)
    | ClearResults(reached: set<Id>, stuck: Option<Id>) // the tasks ClearResultData cleared, and the one it stopped at

  /** What a submitter or a sender does. */
  predicate ByCaller(step: Step) {
    || step.SubmitAdd? || step.SubmitEnqueue? || step.SubmitRollback?
    || step.SendCheck? || step.SendReserve? || step.SendEnqueue? || step.SendRollback?
  }

  /** What a worker does. */
  predicate ByWorker(step: Step) {
    || step.Dequeue? || step.Take? || step.InitCheck? || step.ContCheck? || step.StartRun? || step.InitStart?
    || step.ContStart? || step.Sink? || step.StopCheck? || step.Finish? || step.CheckedFinish? || step.Release?
  }

  predicate CloseStep(step: Step) {
    step.CloseGet? || step.CloseFree? || step.CloseMark? || step.Close?
  }

  /** What closing or cleaning a container does. */
  predicate ByCloser(step: Step) {
    CloseStep(step) || step.CleanGet? || step.CleanMark? || step.Clean?
  }

  /** An update of one task that no thread waits for. */
  predicate Notes(step: Step) {
    step.Log? || step.Session? || step.SaveWriteup?
  }

  function Append(m: map<Id, seq<string>>, id: Id, message: string): map<Id, seq<string>> {
    m[id := (if id in m then m[id] else []) + [message]]
  }

  function AfterRun(s: State, t: Thread, id: Id, origin: Origin): State {
    s.Go(t, if origin == Continuation then Releasing(id) else Idle)
  }

  /** MarkRunning and what follows a failed write. */
  function Start(s: State, t: Thread, id: Id, origin: Origin, now: int, wrote: bool): State {
    if wrote && id in s.tasks
    then s.Put(id, MarkRunning(s.tasks[id], now)).Go(t, Executing(id, origin, false))
    else AfterRun(s, t, id, origin)
  }

  function WriteOutcome(s: State, t: Thread, id: Id, origin: Origin, o: Outcome, now: int, wrote: bool): State {
    AfterRun(if wrote && id in s.tasks then s.Put(id, MarkOutcome(s.tasks[id], o, now)) else s, t, id, origin)
  }

  /** What CloseTaskContainer writes, given the task it read. */
  function CloseWrite(s: State, id: Id, seen: Task, dockerOk: bool, now: int, wrote: bool): State {
    if !wrote || id !in s.tasks then s
    else if seen.status == Queued then s.Put(id, MarkStopped(s.tasks[id], now, TASK_STOPPED_MESSAGE))
    else if Closable(seen) && dockerOk then s.Put(id, MarkContainerClosed(s.tasks[id], now))
    else s
  }

  /** What the cleaner writes, given the task it listed. */
  function CleanWrite(s: State, id: Id, seen: Task, live: bool, expired: bool, dockerOk: bool, now: int, wrote: bool)
    : State
  {
    if !wrote || id !in s.tasks || seen.containerName == "" || !seen.containerKept then s
    else if !live || (seen.status != Running && expired && dockerOk)
    then s.Put(id, MarkContainerClosed(s.tasks[id], now))
    else s
  }

  function CallerStep(s: State, step: Step): State
    requires ByCaller(step)
  {
    var pc := s.At(step.t);
    match step
    case SubmitAdd(t, id, task) =>
      // a fresh task id; the router builds the task queued and without a container. That the queue looked free before
      // means nothing by now.
      if pc.Idle? && id !in s.tasks && task.status == Queued && Coupled(task)
      then s.Put(id, task).Go(t, Submitting(id)) else s
    case SubmitEnqueue(t) =>
      if !pc.Submitting? then s
      else if |s.queue| < s.capacity then s.(queue := s.queue + [Entry(pc.id, Initial)]).Go(t, Idle)
      else s.Go(t, SubmitFull(pc.id))
    case SubmitRollback(t, now, wrote) =>
      if !pc.SubmitFull? then s
      else (if wrote && pc.id in s.tasks
            then s.Put(pc.id, MarkFailed(s.tasks[pc.id], now, TASK_QUEUE_FULL_MESSAGE)) else s).Go(t, Idle)
    case SendCheck(t, id, message) =>
      if pc.Idle? && id in s.tasks && message != "" && Continuable(s.tasks[id])
      then s.Go(t, SendChecked(id, message)) else s
    case SendReserve(t) =>
      if !pc.SendChecked? then s
      else if pc.id in s.busy then s.Go(t, Idle)
      else s.(busy := s.busy + {pc.id}, queued := s.queued[pc.id := pc.message]).Go(t, SendReserved(pc.id, pc.message))
    case SendEnqueue(t) =>
      if !pc.SendReserved? then s
      else if |s.queue| < s.capacity
      then s.(queue := s.queue + [Entry(pc.id, Continuation)], accepted := Append(s.accepted, pc.id, pc.message))
           .Go(t, Idle)
      else s.Go(t, SendFull(pc.id, pc.message))
    case SendRollback(t) =>
      if pc.SendFull? then s.Freed(pc.id).Go(t, Idle) else s
  }

  function WorkerStep(s: State, step: Step): State
    requires ByWorker(step)
  {
    var pc := s.At(step.t);
    match step
    case Dequeue(t) =>
      if pc.Idle? && s.queue != []
      then s.(queue := s.queue[1..]).Go(t, Popped(s.queue[0].id, s.queue[0].origin)) else s
    case Take(t) =>
      if !pc.Popped? then s
      else if pc.id in s.queued
      then s.(queued := s.queued - {pc.id}, taken := Append(s.taken, pc.id, s.queued[pc.id]))
           .Go(t, ContPicked(pc.id, s.queued[pc.id]))
      else s.Go(t, InitPicked(pc.id))
    case InitCheck(t) =>
      if !pc.InitPicked? then s
      else if pc.id in s.tasks && s.tasks[pc.id].status == Queued then s.Go(t, InitChecked(pc.id))
      else s.Go(t, Idle)
    case ContCheck(t) =>
      if !pc.ContPicked? then s
      else if pc.id in s.tasks && Continuable(s.tasks[pc.id]) then s.Go(t, ContChecked(pc.id, pc.message))
      else s.Go(t, Releasing(pc.id))
    case StartRun(t, now, wrote) =>
      if pc.InitChecked? then Start(s, t, pc.id, Initial, now, wrote)
      else if pc.ContChecked? then Start(s, t, pc.id, Continuation, now, wrote)
      else s
    case InitStart(t, now, wrote) =>
      if !pc.InitPicked? then s
      else if pc.id in s.tasks && s.tasks[pc.id].status == Queued then Start(s, t, pc.id, Initial, now, wrote)
      else s.Go(t, Idle)
    case ContStart(t, now, wrote) =>
      if !pc.ContPicked? then s
      else if pc.id in s.tasks && Continuable(s.tasks[pc.id]) then Start(s, t, pc.id, Continuation, now, wrote)
      else s.Go(t, Releasing(pc.id))
    case Sink(t, name, wrote) =>
      // the runner reports the container of an initial run, at most once
      if !(pc.Executing? && pc.origin == Initial && !pc.sunk) then s
      else (if wrote && pc.id in s.tasks then s.Put(pc.id, MarkRuntimeContainer(s.tasks[pc.id], name)) else s)
           .Go(t, Executing(pc.id, Initial, true))
    case StopCheck(t) =>
      if !pc.Executing? then s
      else if pc.id in s.tasks && Stopped(s.tasks[pc.id]) then AfterRun(s, t, pc.id, pc.origin)
      else s.Go(t, Marking(pc.id, pc.origin))
    case Finish(t, o, now, wrote) =>
      if pc.Marking? then WriteOutcome(s, t, pc.id, pc.origin, o, now, wrote) else s
    case CheckedFinish(t, o, now, wrote) =>
      if !pc.Executing? then s
      else if pc.id in s.tasks && Stopped(s.tasks[pc.id]) then AfterRun(s, t, pc.id, pc.origin)
      else WriteOutcome(s, t, pc.id, pc.origin, o, now, wrote)
    case Release(t) =>
      if pc.Releasing? then s.Freed(pc.id).Go(t, Idle) else s
  }

  function CloserStep(s: State, step: Step): State
    requires ByCloser(step)
  {
    match step
    case CloseGet(t, id) =>
      if s.At(t).Idle? && id in s.tasks then s.Go(t, Closing(id, s.tasks[id])) else s
    case CloseFree(t) =>
      var pc := s.At(t);
      if pc.Closing? then s.Freed(pc.id).Go(t, ClosingFreed(pc.id, pc.seen)) else s
    case CloseMark(t, dockerOk, now, wrote) =>
      var pc := s.At(t);
      if pc.ClosingFreed? then CloseWrite(s, pc.id, pc.seen, dockerOk, now, wrote).Go(t, Idle) else s
    case Close(id, dockerOk, now, wrote) =>
      if id in s.tasks then CloseWrite(s.Freed(id), id, s.tasks[id], dockerOk, now, wrote) else s
    case CleanGet(t, id) =>
      if s.At(t).Idle? && id in s.tasks then s.Go(t, CleanSeen(id, s.tasks[id])) else s
    case CleanMark(t, live, expired, dockerOk, now, wrote) =>
      var pc := s.At(t);
      if pc.CleanSeen? then CleanWrite(s, pc.id, pc.seen, live, expired, dockerOk, now, wrote).Go(t, Idle) else s
    case Clean(id, live, expired, dockerOk, now, wrote) =>
      if id in s.tasks then CleanWrite(s, id, s.tasks[id], live, expired, dockerOk, now, wrote) else s
  }

  /** A task after ClearResultData cleared the ids in `reached` and stopped at `stuck`, if its writeup was in the
      way. */
  function AfterClearing(t: Task, id: Id, reached: set<Id>, stuck: Option<Id>): Task {
    if id in reached then ClearResult(t)
    else if stuck == Some(id) && HasStoredWriteup(t) then HalfCleared(t)
    else t
  }

  /** The task after one of the updates that no thread waits for. */
  function Noted(t: Task, step: Step): Task
    requires Notes(step)
  {
    match step
    case Log(_, bytes) => t.(logSize := t.logSize + bytes)
    case Session(_, session) => MarkSession(t, session)
    case SaveWriteup(_, filename) => if SafeStoredFilename(filename) then SetWriteup(t, filename) else t
  }

  function Apply(s: State, step: Step): State {
    if Notes(step) then
      if step.id in s.tasks then s.Put(step.id, Noted(s.tasks[step.id], step)) else s
    else if step.ClearResults? then
      s.(tasks := map id | id in s.tasks :: AfterClearing(s.tasks[id], id, step.reached, step.stuck))
    else if ByCaller(step) then CallerStep(s, step)
    else if ByCloser(step) then CloserStep(s, step)
    else WorkerStep(s, step)
  }

  function Run(s: State, steps: seq<Step>): State
    decreases |steps|
  {
    if steps == [] then s else Run(Apply(s, steps[0]), steps[1..])
  }

  /** The steps that write to the store. */
  predicate Writes(step: Step) {
    || step.SubmitAdd? || step.SubmitRollback? || step.StartRun? || step.InitStart? || step.ContStart? || step.Sink?
    || step.Finish? || step.CheckedFinish? || step.CloseMark? || step.Close? || step.CleanMark? || step.Clean?
    || Notes(step) || step.ClearResults?
  }

  lemma OthersDoNotWrite(s: State, step: Step)
    requires !Writes(step)
    ensures Apply(s, step).tasks == s.tasks
  {
    if ByCloser(step) {
    } else if ByCaller(step) {
      assert Apply(s, step) == CallerStep(s, step);
    } else {
      assert Apply(s, step) == WorkerStep(s, step);
    }
  }

  lemma StartKeepsTask(s: State, t: Thread, i: Id, o: Origin, now: int, wrote: bool, id: Id)
    requires id in s.tasks
    ensures id in Start(s, t, i, o, now, wrote).tasks
  {
  }

  lemma StartersKeepTask(s: State, step: Step, id: Id)
    requires (step.StartRun? || step.InitStart? || step.ContStart?) && id in s.tasks
    ensures id in Apply(s, step).tasks
  {
    var pc := s.At(step.t);
    if pc.InitPicked? || pc.InitChecked? {
      StartKeepsTask(s, step.t, pc.id, Initial, step.now, step.wrote, id);
    } else if pc.ContPicked? || pc.ContChecked? {
      StartKeepsTask(s, step.t, pc.id, Continuation, step.now, step.wrote, id);
    }
  }

  lemma FinishersKeepTask(s: State, step: Step, id: Id)
    requires (step.Sink? || step.Finish? || step.CheckedFinish?) && id in s.tasks
    ensures id in Apply(s, step).tasks
  {
  }

  lemma WorkersKeepTask(s: State, step: Step, id: Id)
    requires ByWorker(step) && id in s.tasks
    ensures id in Apply(s, step).tasks
  {
    if step.StartRun? || step.InitStart? || step.ContStart? {
      StartersKeepTask(s, step, id);
    } else if step.Sink? || step.Finish? || step.CheckedFinish? {
      FinishersKeepTask(s, step, id);
    } else {
      OthersDoNotWrite(s, step);
    }
  }

  lemma CloseKeepsTask(s: State, step: Step, id: Id)
    requires CloseStep(step) && id in s.tasks
    ensures id in Apply(s, step).tasks
  {
  }

  lemma CleanKeepsTask(s: State, step: Step, id: Id)
    requires (step.CleanGet? || step.CleanMark? || step.Clean?) && id in s.tasks
    ensures id in Apply(s, step).tasks
  {
  }

  lemma CallersKeepTask(s: State, step: Step, id: Id)
    requires ByCaller(step) && id in s.tasks
    ensures id in Apply(s, step).tasks
  {
  }

  lemma NotesKeepTask(s: State, step: Step, id: Id)
    requires (Notes(step) || step.ClearResults?) && id in s.tasks
    ensures id in Apply(s, step).tasks
  {
  }

  /** No task ever goes away. */
  lemma StepKeepsTask(s: State, step: Step, id: Id)
    requires id in s.tasks
    ensures id in Apply(s, step).tasks
  {
    if ByCaller(step) {
      CallersKeepTask(s, step, id);
    } else if CloseStep(step) {
      CloseKeepsTask(s, step, id);
    } else if ByCloser(step) {
      CleanKeepsTask(s, step, id);
    } else if ByWorker(step) {
      WorkersKeepTask(s, step, id);
    } else {
      NotesKeepTask(s, step, id);
    }
  }

  lemma {:induction false} RunKeepsTask(s: State, steps: seq<Step>, id: Id)
    requires id in s.tasks
    ensures id in Run(s, steps).tasks
    decreases |steps|
  {
    if steps != [] {
      StepKeepsTask(s, steps[0], id);
      RunKeepsTask(Apply(s, steps[0]), steps[1..], id);
    }
  }

  lemma {:induction false} RunConcat(s: State, first: seq<Step>, rest: seq<Step>)
    ensures Run(s, first + rest) == Run(Run(s, first), rest)
    decreases |first|
  {
    if first == [] {
      assert first + rest == rest;
    } else {
      assert (first + rest)[0] == first[0] && (first + rest)[1..] == first[1..] + rest;
      RunConcat(Apply(s, first[0]), first[1..], rest);
    }
  }

  lemma {:induction false} RunOne(s: State, a: Step)
    ensures Run(s, [a]) == Apply(s, a)
  {
    assert [a][1..] == [];
    assert Run(s, [a]) == Run(Apply(s, a), []);
  }

  lemma {:induction false} RunMore(s: State, steps: seq<Step>, step: Step)
    ensures Run(s, steps + [step]) == Apply(Run(s, steps), step)
  {
    RunConcat(s, steps, [step]);
    RunOne(Run(s, steps), step);
  }

  lemma RunNext(s: State, steps: seq<Step>, n: nat)
    requires 0 < n <= |steps|
    ensures Run(s, steps[..n]) == Apply(Run(s, steps[..n - 1]), steps[n - 1])
  {
    assert steps[..n] == steps[..n - 1] + [steps[n - 1]];
    RunMore(s, steps[..n - 1], steps[n - 1]);
  }

  /** Short runs, unrolled. */
  lemma {:induction false} RunTwo(s: State, a: Step, b: Step)
    ensures Run(s, [a, b]) == Apply(Apply(s, a), b)
  {
    assert [a, b] == [a] + [b];
    RunOne(s, a);
    RunMore(s, [a], b);
  }

  lemma {:induction false} RunThree(s: State, a: Step, b: Step, c: Step)
    ensures Run(s, [a, b, c]) == Apply(Apply(Apply(s, a), b), c)
  {
    assert [a, b, c] == [a, b] + [c];
    RunTwo(s, a, b);
    RunMore(s, [a, b], c);
  }

  lemma {:induction false} RunFour(s: State, a: Step, b: Step, c: Step, d: Step)
    ensures Run(s, [a, b, c, d]) == Apply(Apply(Apply(Apply(s, a), b), c), d)
  {
    assert [a, b, c, d] == [a, b, c] + [d];
    RunThree(s, a, b, c);
    RunMore(s, [a, b, c], d);
  }

  /** A worker between MarkRunning and its terminal mark. */
  predicate Executes(pc: Pc, id: Id) {
    (pc.Executing? || pc.Marking?) && pc.id == id
  }

  ghost predicate MutualExclusion(s: State) {
    forall t, u, id | Executes(s.At(t), id) && Executes(s.At(u), id) :: t == u
  }

  /** No slot that is taken is freed by closing a container. */
  predicate FreesNothing(s: State, step: Step) {
    && (step.CloseFree? && s.At(step.t).Closing? ==> s.At(step.t).id !in s.busy)
    && (step.Close? && step.id in s.tasks ==> step.id !in s.busy)
  }

  /** Every step of a run frees nothing. A run without closes is one of them. */
  ghost predicate SlotsSurvive(s: State, steps: seq<Step>) {
    forall i | 0 <= i < |steps| :: FreesNothing(Run(s, steps[..i]), steps[i])
  }

  lemma {:induction false} SurviveOn(s: State, steps: seq<Step>)
    requires SlotsSurvive(s, steps) && steps != []
    ensures FreesNothing(s, steps[0]) && SlotsSurvive(Apply(s, steps[0]), steps[1..])
  {
    assert steps[..0] == [] && Run(s, []) == s;
    forall i | 0 <= i < |steps[1..]|
      ensures FreesNothing(Run(Apply(s, steps[0]), steps[1..][..i]), steps[1..][i])
    {
      var front := steps[..i + 1];
      assert front[0] == steps[0] && front[1..] == steps[1..][..i];
      assert Run(s, front) == Run(Apply(s, steps[0]), steps[1..][..i]);
    }
  }

  lemma SurviveBefore(s: State, steps: seq<Step>, i: nat)
    requires SlotsSurvive(s, steps) && i <= |steps|
    ensures SlotsSurvive(s, steps[..i])
  {
    forall j | 0 <= j < i ensures FreesNothing(Run(s, steps[..i][..j]), steps[..i][j]) {
      assert steps[..i][..j] == steps[..j];
    }
  }

  /** A store with nothing in flight but the entries that startup recovery enqueued. */
  ghost predicate Fresh(s: State) {
    && s.threads == map[] && s.busy == {} && s.queued == map[] && s.accepted == map[] && s.taken == map[]
    && (forall id | id in s.tasks :: Consistent(s.tasks[id]))
    && (forall i | 0 <= i < |s.queue| ::
          s.queue[i].origin == Initial && s.queue[i].id in s.tasks && s.tasks[s.queue[i].id].status == Queued)
    && (forall i, j | 0 <= i < j < |s.queue| :: s.queue[i].id != s.queue[j].id)
  }
}
