/** The service object whose fields callers and workers update under the run lock. Every method that is one lock
    section is one step of the dispatcher's state machine; SendTaskMessage is the sequence
    of its sections, and CloseTaskContainer, run without interruption, the machine's close. */
module Service {
  import opened Options
  import opened Tasks
  import opened Dispatcher
  import opened TaskFields
  import Text

  datatype SendError = NotFound | EmptyMessage | Busy | NotContinuable | NoProvider | QueueFull | NotStored

  function Entries(ids: seq<Id>, origins: seq<Origin>): seq<Entry>
    requires |ids| == |origins|
  {
    seq(|ids|, i requires 0 <= i < |ids| == |origins| => Entry(ids[i], origins[i]))
  }

  /** The text has a character that is not white space. */
  ghost predicate Visible(text: string) {
    exists c | c in text :: !Text.GoSpace(c)
  }

  class Service {
    var tasks: map<Id, Task>
    var busy: set<Id>
    var queuedMessages: map<Id, string>
    var queue: seq<Id>
    const capacity: nat
    ghost var origins: seq<Origin>
    ghost var threads: map<Thread, Pc>
    ghost var accepted: map<Id, seq<string>>
    ghost var taken: map<Id, seq<string>>

    ghost predicate Valid()
      reads this
    {
      |origins| == |queue| <= capacity
    }

    /** The abstract state; queue entries carry the reason they were enqueued for. */
    ghost function Snapshot(): State
      reads this
      requires Valid()
    {
      State(tasks, busy, queuedMessages, Entries(queue, origins), capacity, threads, accepted, taken)
    }

    constructor (workers: nat)
      ensures Valid() && capacity == (if workers < 1 then 1 else workers) * 4
      ensures Snapshot() == Blank(capacity)
    {
      tasks, busy, queuedMessages, queue := map[], {}, map[], [];
      capacity := (if workers < 1 then 1 else workers) * 4;
      origins, threads, accepted, taken := [], map[], map[], map[];
    }

    method ReserveTaskMessage(ghost t: Thread, taskId: Id, message: string) returns (ok: bool)
      requires Valid() && Snapshot().At(t) == SendChecked(taskId, message)
      modifies this`busy, this`queuedMessages, this`threads
      ensures Valid() && Snapshot() == Apply(old(Snapshot()), SendReserve(t))
      ensures ok <==> taskId !in old(busy)
      ensures ok ==> busy == old(busy) + {taskId} && queuedMessages == old(queuedMessages)[taskId := message]
                     && Snapshot().At(t) == SendReserved(taskId, message)
      ensures !ok ==> busy == old(busy) && queuedMessages == old(queuedMessages)
    {
      if taskId in busy {
        threads := threads[t := Idle];
        return false;
      }
      busy := busy + {taskId};
      queuedMessages := queuedMessages[taskId := message];
      threads := threads[t := SendReserved(taskId, message)];
      return true;
    }

    method TakeQueuedMessage(ghost t: Thread, taskId: Id) returns (message: Option<string>)
      requires Valid() && Snapshot().At(t).Popped? && Snapshot().At(t).id == taskId
      modifies this`queuedMessages, this`threads, this`taken
      ensures Valid() && Snapshot() == Apply(old(Snapshot()), Take(t))
      ensures message == if taskId in old(queuedMessages) then Some(old(queuedMessages[taskId])) else None
    {
      if taskId in queuedMessages {
        message := Some(queuedMessages[taskId]);
        taken := Append(taken, taskId, queuedMessages[taskId]);
        threads := threads[t := ContPicked(taskId, queuedMessages[taskId])];
        queuedMessages := queuedMessages - {taskId};
      } else {
        message := None;
        threads := threads[t := InitPicked(taskId)];
      }
    }

    method ReleaseTaskSlot(ghost t: Thread, taskId: Id)
      requires Valid()
      requires (Snapshot().At(t).Releasing? || Snapshot().At(t).SendFull?) && Snapshot().At(t).id == taskId
      modifies this`busy, this`queuedMessages, this`threads
      ensures Valid()
      ensures Snapshot()
              == Apply(old(Snapshot()), if old(Snapshot().At(t).Releasing?) then Release(t) else SendRollback(t))
      ensures busy == old(busy) - {taskId} && queuedMessages == old(queuedMessages) - {taskId}
    {
      busy := busy - {taskId};
      queuedMessages := queuedMessages - {taskId};
      threads := threads[t := Idle];
    }

    /** The non-blocking send on the queue, by a submitter or by a sender that holds the slot. */
    method Enqueue(ghost t: Thread, taskId: Id) returns (ok: bool)
      requires Valid() && (Snapshot().At(t).Submitting? || Snapshot().At(t).SendReserved?)
               && Snapshot().At(t).id == taskId
      modifies this`queue, this`origins, this`threads, this`accepted
      ensures Valid()
      ensures Snapshot()
              == Apply(old(Snapshot()), if old(Snapshot().At(t).Submitting?) then SubmitEnqueue(t) else SendEnqueue(t))
      ensures ok <==> |old(queue)| < capacity
      ensures queue == if ok then old(queue) + [taskId] else old(queue)
      ensures !ok ==> Snapshot().At(t).id == taskId
                      && if old(Snapshot().At(t).Submitting?) then Snapshot().At(t).SubmitFull?
                          else Snapshot().At(t).SendFull?
    {
      ghost var pc := threads[t];
      if |queue| < capacity {
        queue, origins := queue + [taskId], origins + [if pc.Submitting? then Initial else Continuation];
        if pc.SendReserved? {
          accepted := Append(accepted, taskId, pc.message);
        }
        threads := threads[t := Idle];
        assert Snapshot().queue
               == old(Snapshot()).queue + [Entry(taskId, if pc.Submitting? then Initial else Continuation)];
        return true;
      }
      threads := threads[t := if pc.Submitting? then SubmitFull(taskId) else SendFull(taskId, pc.message)];
      return false;
    }

    /** The channel receive of a worker. */
    method Receive(ghost t: Thread) returns (taskId: Id)
      requires Valid() && Snapshot().At(t).Idle? && queue != []
      modifies this`queue, this`origins, this`threads
      ensures Valid() && Snapshot() == Apply(old(Snapshot()), Dequeue(t))
      ensures taskId == old(queue[0]) && queue == old(queue[1..])
    {
      taskId := queue[0];
      threads := threads[t := Popped(taskId, origins[0])];
      queue, origins := queue[1..], origins[1..];
      assert Snapshot().queue == old(Snapshot()).queue[1..];
    }

    /** What a sender checks before it touches the slot; `providerOk` says whether the active provider is configured. */
    method CheckSend(ghost t: Thread, taskId: Id, text: string, providerOk: bool) returns (err: Option<SendError>)
      requires Valid() && Snapshot().At(t).Idle?
      modifies this`threads
      ensures Valid()
      ensures err == if taskId !in tasks then Some(NotFound)
                     else if Text.TrimSpace(text) == "" then Some(EmptyMessage)
                     else if tasks[taskId].status == Running || tasks[taskId].status == Queued then Some(Busy)
                     else if !Continuable(tasks[taskId]) then Some(NotContinuable)
                     else if !providerOk then Some(NoProvider) else None
      ensures err.None? ==> taskId in tasks && Resumable(tasks[taskId]) && Visible(text)
      ensures err == Some(NotContinuable) <==>
              && taskId in tasks && Visible(text) && tasks[taskId].status in {Completed, Solved, Failed}
              && !Resumable(tasks[taskId])
      ensures err.None? ==> Snapshot() == Apply(old(Snapshot()), SendCheck(t, taskId, Text.TrimSpace(text)))
                            && Snapshot().At(t) == SendChecked(taskId, Text.TrimSpace(text))
      ensures err.Some? ==> threads == old(threads)
    {
      Text.TrimAll(text, Text.GoSpace);
      if taskId !in tasks {
        return Some(NotFound);
      }
      var task := tasks[taskId];
      ContinuableIsResumable(task);
      var message := Text.TrimSpace(text);
      if message == "" {
        return Some(EmptyMessage);
      }
      if task.status == Running || task.status == Queued {
        return Some(Busy);
      }
      if !task.containerKept || task.containerName == "" || Text.TrimSpace(task.session) == "" {
        return Some(NotContinuable);
      }
      if !providerOk {
        return Some(NoProvider);
      }
      threads := threads[t := SendChecked(taskId, message)];
      return None;
    }

    /** What a sender does once it holds the slot: it enqueues its continuation, or gives the slot up. */
    method EnqueueMessage(ghost t: Thread, taskId: Id) returns (ok: bool)
      requires Valid() && Snapshot().At(t).SendReserved? && Snapshot().At(t).id == taskId
      modifies this`busy, this`queuedMessages, this`queue, this`origins, this`threads, this`accepted
      ensures Valid() && (ok <==> |old(queue)| < capacity)
      ensures ok ==> Snapshot() == Run(old(Snapshot()), [SendEnqueue(t)])
                     && queue == old(queue) + [taskId] && busy == old(busy) && queuedMessages == old(queuedMessages)
      ensures !ok ==> Snapshot() == Run(old(Snapshot()), [SendEnqueue(t), SendRollback(t)])
                      && queue == old(queue) && busy == old(busy) - {taskId}
                      && queuedMessages == old(queuedMessages) - {taskId}
    {
      ok := Enqueue(t, taskId);
      if !ok {
        ReleaseTaskSlot(t, taskId);
      }
      RunOne(old(Snapshot()), SendEnqueue(t));
      RunTwo(old(Snapshot()), SendEnqueue(t), SendRollback(t));
    }

    /** What a sender does once it has checked: it takes the slot and enqueues, or finds one of them taken. */
    method QueueMessage(ghost t: Thread, taskId: Id, message: string)
      returns (err: Option<SendError>, ghost steps: seq<Step>)
      requires Valid() && Snapshot().At(t) == SendChecked(taskId, message)
      modifies this`busy, this`queuedMessages, this`queue, this`origins, this`threads, this`accepted
      ensures Valid() && Snapshot() == Run(old(Snapshot()), steps)
      ensures err == if taskId in old(busy) then Some(Busy)
                     else if |old(queue)| == capacity then Some(QueueFull)
                     else None
      ensures steps == [SendReserve(t)] + if err.None? then [SendEnqueue(t)]
                                          else if err == Some(QueueFull) then [SendEnqueue(t), SendRollback(t)]
                                          else []
      ensures err.None? ==> queuedMessages == old(queuedMessages)[taskId := message]
                            && busy == old(busy) + {taskId} && queue == old(queue) + [taskId]
      ensures err == Some(QueueFull) ==>
                && queuedMessages == old(queuedMessages) - {taskId}
                && busy == old(busy) - {taskId} && queue == old(queue)
      ensures err == Some(Busy) ==> queuedMessages == old(queuedMessages) && busy == old(busy) && queue == old(queue)
    {
      ghost var s := Snapshot();
      var reserved := ReserveTaskMessage(t, taskId, message);
      RunOne(s, SendReserve(t));
      if !reserved {
        assert [SendReserve(t)] + [] == [SendReserve(t)];
        return Some(Busy), [SendReserve(t)];
      }
      var enqueued := EnqueueMessage(t, taskId);
      steps := if enqueued then [SendEnqueue(t)] else [SendEnqueue(t), SendRollback(t)];
      RunConcat(s, [SendReserve(t)], steps);
      return if enqueued then None else Some(QueueFull), [SendReserve(t)] + steps;
    }

    /** A send is refused without a trace, or leaves its message under the task's name and its entry at the queue's end.
        `steps` are the sections it went through. */
    method SendTaskMessage(ghost t: Thread, taskId: Id, text: string, providerOk: bool)
      returns (err: Option<SendError>, ghost steps: seq<Step>)
      requires Valid() && Snapshot().At(t).Idle?
      modifies this`busy, this`queuedMessages, this`queue, this`origins, this`threads, this`accepted
      ensures Valid() && Snapshot() == Run(old(Snapshot()), steps)
      ensures err == if taskId !in tasks then Some(NotFound)
                     else if Text.TrimSpace(text) == "" then Some(EmptyMessage)
                     else if tasks[taskId].status == Running || tasks[taskId].status == Queued then Some(Busy)
                     else if !Continuable(tasks[taskId]) then Some(NotContinuable)
                     else if !providerOk then Some(NoProvider)
                     else if taskId in old(busy) then Some(Busy)
                     else if |old(queue)| == capacity then Some(QueueFull)
                     else None
      ensures err.None? ==> taskId in tasks && Resumable(tasks[taskId]) && Visible(text)
      ensures err == Some(NotContinuable) <==>
              && taskId in tasks && Visible(text) && tasks[taskId].status in {Completed, Solved, Failed}
              && !Resumable(tasks[taskId])
      ensures var check, reserve := SendCheck(t, taskId, Text.TrimSpace(text)), SendReserve(t);
              steps == if err.None? then [check, reserve, SendEnqueue(t)]
                       else if err == Some(QueueFull) then [check, reserve, SendEnqueue(t), SendRollback(t)]
                       else if err == Some(Busy) && Continuable(tasks[taskId]) then [check, reserve]
                       else []
      ensures err.None? ==> queuedMessages == old(queuedMessages)[taskId := Text.TrimSpace(text)]
                            && busy == old(busy) + {taskId} && queue == old(queue) + [taskId]
      ensures err == Some(QueueFull) ==>
                && queuedMessages == old(queuedMessages) - {taskId}
                && busy == old(busy) - {taskId} && queue == old(queue)
      ensures err.Some? && err != Some(QueueFull) ==>
                busy == old(busy) && queue == old(queue) && queuedMessages == old(queuedMessages)
    {
      ghost var s, check := Snapshot(), SendCheck(t, taskId, Text.TrimSpace(text));
      err := CheckSend(t, taskId, text, providerOk);
      if err.Some? {
        steps := [];
        return;
      }
      RunOne(s, check);
      err, steps := QueueMessage(t, taskId, Text.TrimSpace(text));
      RunConcat(s, [check], steps);
      steps := [check] + steps;
    }

    /** Store.Add of a task that the router built; `wrote` says whether the write succeeds. */
    method AddTask(ghost t: Thread, task: Task, wrote: bool) returns (ok: bool)
      requires Valid() && Snapshot().At(t).Idle? && task.id !in tasks && task.status == Queued && Coupled(task)
      modifies this`tasks, this`threads
      ensures Valid() && ok == wrote
      ensures ok ==>
                && Snapshot() == Apply(old(Snapshot()), SubmitAdd(t, task.id, task))
                && tasks == old(tasks)[task.id := task] && Snapshot().At(t) == Submitting(task.id)
      ensures !ok ==> Snapshot() == old(Snapshot())
    {
      if wrote {
        tasks := tasks[task.id := task];
        threads := threads[t := Submitting(task.id)];
      }
      return wrote;
    }

    /** Submit: a task is refused without a trace, or stored and enqueued. */
    method Submit(ghost t: Thread, task: Task, providerOk: bool, wrote: bool) returns (err: Option<SendError>)
      requires Valid() && Snapshot().At(t).Idle? && task.id !in tasks && task.status == Queued && Coupled(task)
      modifies this`tasks, this`queue, this`origins, this`threads, this`accepted
      ensures Valid()
      ensures err == if !providerOk then Some(NoProvider) else if |old(queue)| == capacity then Some(QueueFull)
                     else if !wrote then Some(NotStored) else None
      ensures err.Some? ==> Snapshot() == old(Snapshot())
      ensures err.None? ==> Snapshot() == Run(old(Snapshot()), [SubmitAdd(t, task.id, task), SubmitEnqueue(t)])
                            && tasks == old(tasks)[task.id := task] && queue == old(queue) + [task.id]
    {
      if !providerOk {
        return Some(NoProvider);
      }
      if |queue| >= capacity {
        return Some(QueueFull);
      }
      ghost var s := Snapshot();
      var stored := AddTask(t, task, wrote);
      if !stored {
        return Some(NotStored);
      }
      var enqueued := Enqueue(t, task.id);
      RunTwo(s, SubmitAdd(t, task.id, task), SubmitEnqueue(t));
      return None;
    }

    /** CloseTaskContainer run without interruption; `dockerOk` says whether removing the container succeeded, `wrote`
        whether the store's write did. */
    method CloseTaskContainer(taskId: Id, dockerOk: bool, now: int, wrote: bool) returns (closed: bool)
      requires Valid()
      modifies this`tasks, this`busy, this`queuedMessages
      ensures Valid() && Snapshot() == Apply(old(Snapshot()), Close(taskId, dockerOk, now, wrote))
      ensures closed ==> taskId in tasks && tasks[taskId].containerName == "" && !tasks[taskId].containerKept
                         && (Stopped(tasks[taskId]) || old(tasks[taskId].status) in {Completed, Solved, Failed})
      ensures closed ==> tasks == old(tasks)[taskId := if old(tasks)[taskId].status == Queued
                                                       then Stop(old(tasks)[taskId], now)
                                                       else Removal(old(tasks)[taskId], now)]
      ensures !closed ==> tasks == old(tasks)
      ensures taskId in tasks ==> busy == old(busy) - {taskId} && queuedMessages == old(queuedMessages) - {taskId}
      ensures taskId !in tasks ==> busy == old(busy) && queuedMessages == old(queuedMessages)
      ensures closed <==> taskId in tasks && wrote
                          && (old(tasks)[taskId].status == Queued || (Closable(old(tasks)[taskId]) && dockerOk))
    {
      if taskId !in tasks {
        return false;
      }
      var task := tasks[taskId];
      busy := busy - {taskId};
      queuedMessages := queuedMessages - {taskId};
      if task.status == Queued {
        if wrote {
          tasks := tasks[taskId := MarkStopped(tasks[taskId], now, TASK_STOPPED_MESSAGE)];
        }
        return wrote;
      }
      if task.containerName == "" || (!task.containerKept && task.status != Running) {
        return false;
      }
      if !dockerOk {
        return false;
      }
      if wrote {
        tasks := tasks[taskId := MarkContainerClosed(tasks[taskId], now)];
      }
      return wrote;
    }
  }
}
