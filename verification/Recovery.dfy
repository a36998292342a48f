/** What a starting service does to the tasks it loaded, before its workers dequeue anything. */
module Recovery {
  import opened Options
  import opened Tasks
  import Dispatcher
  import opened DurableStore

  type Id = string

  predicate Interrupted(t: Task) {
    t.status == Running && t.containerName != ""
  }

  predicate Recoverable(t: Task) {
    t.status == Queued || (t.status == Running && t.containerName == "")
  }

  /** A loaded task after recovery; `writable` says whether the store's write for it succeeds. */
  function Recovered(t: Task, now: int, writable: bool): Task {
    if !writable then t
    else if Interrupted(t) then MarkInterrupted(t, now)
    else if Recoverable(t) then MarkRecovered(t)
    else t
  }

  function Filter(ids: seq<Id>, refused: set<Id>): seq<Id> {
    if ids == [] then []
    else Filter(ids[..|ids| - 1], refused) + if ids[|ids| - 1] in refused then [] else [ids[|ids| - 1]]
  }

  function Prefix(ids: seq<Id>, n: nat): seq<Id> {
    if |ids| <= n then ids else ids[..n]
  }

  /** All ids of recoverable tasks, each once, oldest first. */
  ghost predicate InCreationOrder(tasks: map<Id, Task>, ids: seq<Id>) {
    && (forall id :: id in ids <==> id in tasks && Recoverable(tasks[id]))
    && (forall i, j | 0 <= i < j < |ids| :: ids[i] != ids[j])
    && (forall i, j | 0 <= i < j < |ids| ::
        ids[i] in tasks && ids[j] in tasks && tasks[ids[i]].createdAt <= tasks[ids[j]].createdAt)
  }

  /** The store after the recoverable ids were marked. */
  function Marked(tasks: map<Id, Task>, ids: seq<Id>, refused: set<Id>): map<Id, Task> {
    map id | id in tasks :: if id in ids && id !in refused then MarkRecovered(tasks[id]) else tasks[id]
  }

  lemma MarkedStep(tasks: map<Id, Task>, ids: seq<Id>, i: nat, refused: set<Id>)
    requires i < |ids| && ids[i] in tasks
    ensures var m := Marked(tasks, ids[..i], refused);
            Marked(tasks, ids[..i + 1], refused) == if ids[i] in refused then m
                else m[ids[i] := MarkRecovered(m[ids[i]])]
  {
    assert ids[..i + 1] == ids[..i] + [ids[i]];
  }

  class Startup {
    var tasks: map<Id, Task>
    var queue: seq<Id>
    const capacity: nat

    constructor (loaded: map<Id, Task>, workers: nat)
      ensures tasks == loaded && queue == [] && capacity == (if workers < 1 then 1 else workers) * 4
    {
      tasks, queue := loaded, [];
      capacity := (if workers < 1 then 1 else workers) * 4;
    }

    /** recoverInterruptedRunningContainers; the store refuses to write the tasks in `refused`. */
    method RecoverInterrupted(now: int, refused: set<Id>)
      modifies this`tasks
      ensures tasks.Keys == old(tasks.Keys)
      ensures forall id | id in tasks ::
                tasks[id] == if Interrupted(old(tasks)[id]) && id !in refused then MarkInterrupted(old(tasks)[id], now)
                    else old(tasks)[id]
    {
      var listed := tasks;
      var left := tasks.Keys;
      while left != {}
        invariant tasks.Keys == listed.Keys && left <= listed.Keys
        invariant forall id | id in listed ::
                    tasks[id] == if id !in left && Interrupted(listed[id])
                        && id !in refused then MarkInterrupted(listed[id], now) else listed[id]
        decreases left
      {
        var id :| id in left;
        left := left - {id};
        if listed[id].status == Running && listed[id].containerName != "" && id !in refused {
          tasks := tasks[id := MarkInterrupted(tasks[id], now)];
        }
      }
    }

    /** The recoverable task created first among `left`. */
    method Earliest(left: set<Id>) returns (first: Id)
      requires left != {} && left <= tasks.Keys
      ensures first in left && forall id | id in left :: tasks[first].createdAt <= tasks[id].createdAt
    {
      first :| first in left;
      var rest := left - {first};
      while rest != {}
        invariant first in left && rest <= left
        invariant forall id | id in left && id !in rest :: tasks[first].createdAt <= tasks[id].createdAt
        decreases rest
      {
        var id :| id in rest;
        if tasks[id].createdAt < tasks[first].createdAt {
          first := id;
        }
        rest := rest - {id};
      }
    }

    method RecoverableIDs() returns (ids: seq<Id>)
      ensures InCreationOrder(tasks, ids)
    {
      var left := set id | id in tasks && Recoverable(tasks[id]);
      ids := [];
      while left != {}
        invariant left <= tasks.Keys
        invariant forall id :: id in ids || id in left <==> id in tasks && Recoverable(tasks[id])
        invariant forall i | 0 <= i < |ids| :: ids[i] !in left && ids[i] in tasks
        invariant forall i, j | 0 <= i < j < |ids| :: ids[i] != ids[j]
        invariant forall i, j | 0 <= i < j < |ids| :: tasks[ids[i]].createdAt <= tasks[ids[j]].createdAt
        invariant forall i, id | 0 <= i < |ids| && id in left :: tasks[ids[i]].createdAt <= tasks[id].createdAt
        decreases left
      {
        var id := Earliest(left);
        assert id in left;
        left := left - {id};
        ids := ids + [id];
      }
    }

    /** The loop over the recoverable ids: mark, then offer to the queue; the queue's answer is ignored. */
    method Requeue(ids: seq<Id>, refused: set<Id>)
      requires queue == [] && forall id | id in ids :: id in tasks
      modifies this
      ensures tasks == Marked(old(tasks), ids, refused)
      ensures queue == Prefix(Filter(ids, refused), capacity)
    {
      ghost var was := tasks;
      var i := 0;
      while i < |ids|
        invariant 0 <= i <= |ids| && tasks == Marked(was, ids[..i], refused)
        invariant queue == Prefix(Filter(ids[..i], refused), capacity)
      {
        var id := ids[i];
        assert id in ids;
        MarkedStep(was, ids, i, refused);
        Offered(ids, i, refused, capacity);
        if id !in refused {
          tasks := tasks[id := MarkRecovered(tasks[id])];
          if |queue| < capacity {
            queue := queue + [id];
          }
        }
        i := i + 1;
      }
      assert ids[..i] == ids;
    }

    /** NewService, from the loaded store to the point where its workers may dequeue. */
    method Start(now: int, refused: set<Id>) returns (ghost ids: seq<Id>)
      requires queue == []
      modifies this
      ensures tasks.Keys == old(tasks.Keys)
      ensures forall id | id in tasks :: tasks[id] == Recovered(old(tasks)[id], now, id !in refused)
      ensures InCreationOrder(old(tasks), ids)
      ensures queue == Prefix(Filter(ids, refused), capacity)
    {
      RecoverInterrupted(now, refused);
      assert forall id | id in tasks ::
          (Recoverable(tasks[id]) <==> Recoverable(old(tasks)[id])) && tasks[id].createdAt == old(tasks)[id].createdAt;
      var recoverable := RecoverableIDs();
      ids := recoverable;
      Requeue(recoverable, refused);
    }
  }

  lemma FilterStep(ids: seq<Id>, i: nat, refused: set<Id>)
    requires i < |ids|
    ensures Filter(ids[..i + 1], refused) == Filter(ids[..i], refused) + if ids[i] in refused then [] else [ids[i]]
  {
    assert ids[..i + 1][..i] == ids[..i];
  }

  lemma PrefixStep(ids: seq<Id>, id: Id, n: nat)
    ensures |Prefix(ids, n)| < n <==> |ids| < n
    ensures Prefix(ids + [id], n) == if |ids| < n then Prefix(ids, n) + [id] else Prefix(ids, n)
  {
  }

  lemma Offered(ids: seq<Id>, i: nat, refused: set<Id>, n: nat)
    requires i < |ids|
    ensures var queue := Prefix(Filter(ids[..i], refused), n);
            Prefix(Filter(ids[..i + 1], refused), n) == if ids[i] !in refused && |queue| < n then queue + [ids[i]]
                else queue
  {
    FilterStep(ids, i, refused);
    PrefixStep(Filter(ids[..i], refused), ids[i], n);
  }

  /** With writes that succeed, recovery splits the store in three: interrupted tasks with a container are failed and
      kept, tasks without one are queued, finished tasks stay; in particular nothing is running any more. */
  lemma RecoveryPartitions(t: Task, now: int)
    ensures var u := Recovered(t, now, true);
            && u.status != Running
            && (Interrupted(t) <==> t.status == Running && u.status == Failed && u.containerKept)
            && (Recoverable(t) <==> u.status == Queued)
            && u == (if t.status == Running && t.containerName != ""
                     then t.(status := Failed, error := Some(INTERRUPTED_STEP), lastStep := INTERRUPTED_STEP,
                             finishedAt := Some(now), containerKept := true)
                     else if t.status == Running
                     then t.(status := Queued, startedAt := None, error := None, containerKept := false, session := "")
                     else t)
            && (Consistent(t) <==> Consistent(u)) && (Coupled(t) <==> Coupled(u))
  {
  }

  lemma {:induction false} FilterNothing(ids: seq<Id>)
    ensures Filter(ids, {}) == ids
    decreases |ids|
  {
    if ids != [] {
      FilterNothing(ids[..|ids| - 1]);
    }
  }

  /** Of ids without repetition, exactly the first `capacity` make it into the queue. */
  lemma PrefixHolds(ids: seq<Id>, capacity: nat, i: nat)
    requires i < |ids| && forall j, k | 0 <= j < k < |ids| :: ids[j] != ids[k]
    ensures ids[i] in Prefix(ids, capacity) <==> i < capacity
  {
    if i < capacity {
      assert Prefix(ids, capacity)[i] == ids[i];
    }
  }

  /** What the workers then find: the recoverable tasks, each enqueued once, the oldest first, as far as the queue
      reaches. A queued task lacks an entry exactly when it comes after the first `capacity` of them. */
  lemma {:induction false} QueuedTasksAreEnqueued(loaded: map<Id, Task>, ids: seq<Id>, queue: seq<Id>, capacity: nat)
    requires InCreationOrder(loaded, ids) && queue == Prefix(Filter(ids, {}), capacity)
    ensures forall i, j | 0 <= i < j < |queue| :: queue[i] != queue[j]
    ensures forall i | 0 <= i < |ids| :: ids[i] in queue <==> i < capacity
  {
    FilterNothing(ids);
    forall i | 0 <= i < |ids| ensures ids[i] in queue <==> i < capacity {
      PrefixHolds(ids, capacity, i);
    }
  }

  /** Every queued task has its entry exactly when there are no more of them than the queue holds. */
  lemma {:induction false} NoneIsStranded(loaded: map<Id, Task>, ids: seq<Id>, queue: seq<Id>, capacity: nat, now: int)
    requires InCreationOrder(loaded, ids) && queue == Prefix(Filter(ids, {}), capacity)
    ensures |ids| <= capacity <==> forall id | id in loaded && Recovered(loaded[id], now, true).status == Queued ::
              id in queue
  {
    QueuedTasksAreEnqueued(loaded, ids, queue, capacity);
    forall id | |ids| <= capacity && id in loaded
        && Recovered(loaded[id], now, true).status == Queued ensures id in queue {
      assert id in ids;
    }
    if |ids| > capacity {
      var last := ids[capacity];
      assert last in ids && last !in queue && Recovered(loaded[last], now, true).status == Queued;
    }
  }

  ghost predicate Distinct(ids: seq<Id>) {
    forall i, j | 0 <= i < j < |ids| :: ids[i] != ids[j]
  }

  lemma {:induction false} FilterHolds(ids: seq<Id>, refused: set<Id>)
    requires Distinct(ids)
    ensures forall id :: id in Filter(ids, refused) <==> id in ids && id !in refused
    ensures Distinct(Filter(ids, refused))
    decreases |ids|
  {
    if ids != [] {
      var init, last := ids[..|ids| - 1], ids[|ids| - 1];
      FilterHolds(init, refused);
      assert forall id :: id in ids <==> id in init || id == last;
      assert last !in Filter(init, refused);
    }
  }

  lemma {:induction false} FilterKeepsOrder(tasks: map<Id, Task>, ids: seq<Id>, refused: set<Id>)
    requires InOrder(tasks, ids)
    ensures InOrder(tasks, Filter(ids, refused)) && forall id | id in Filter(ids, refused) :: id in ids
    decreases |ids|
  {
    if ids != [] {
      var init, last := ids[..|ids| - 1], ids[|ids| - 1];
      FilterKeepsOrder(tasks, init, refused);
      assert ids == init + [last];
      forall id | id in Filter(init, refused)
        ensures id in tasks && tasks[id].createdAt <= tasks[last].createdAt
      {
        var i :| 0 <= i < |init| && init[i] == id;
        assert ids[i] == id;
      }
    }
  }

  /** These tasks exist, and none was created after one that follows it. */
  ghost predicate InOrder(tasks: map<Id, Task>, ids: seq<Id>) {
    && (forall id | id in ids :: id in tasks)
    && (forall i, j | 0 <= i < j < |ids| :: tasks[ids[i]].createdAt <= tasks[ids[j]].createdAt)
  }

  /** Whichever writes are refused, the queue holds recoverable tasks only, the oldest first; one that was written and
      got no entry is no older than any in the queue, which is full then. */
  lemma TheOldestAreEnqueued(loaded: map<Id, Task>, ids: seq<Id>, refused: set<Id>, capacity: nat)
    requires InCreationOrder(loaded, ids)
    ensures var queue := Prefix(Filter(ids, refused), capacity);
            && |queue| <= capacity && Distinct(queue) && InOrder(loaded, queue)
            && (forall id | id in queue :: id in ids && id !in refused)
            && (forall id | id in ids && id !in refused && id !in queue ::
                  |queue| == capacity
                  && forall i | 0 <= i < |queue| :: loaded[queue[i]].createdAt <= loaded[id].createdAt)
  {
    var filtered := Filter(ids, refused);
    var queue := Prefix(filtered, capacity);
    FilterHolds(ids, refused);
    FilterKeepsOrder(loaded, ids, refused);
    assert forall i | 0 <= i < |queue| :: queue[i] == filtered[i] && queue[i] in queue;
    forall id | id in ids && id !in refused && id !in queue
      ensures |queue| == capacity
      ensures forall i | 0 <= i < |queue| :: loaded[queue[i]].createdAt <= loaded[id].createdAt
    {
      var k :| 0 <= k < |filtered| && filtered[k] == id;
    }
  }

  /** Recovery keeps consistent tasks consistent, and makes no other task so. */
  lemma RecoveredConsistently(t: Task, now: int, writable: bool)
    ensures Consistent(Recovered(t, now, writable)) <==> Consistent(t)
  {
  }

  /** The queue that recovery fills. */
  ghost predicate Enqueued(ids: seq<Id>, refused: set<Id>, capacity: nat, queue: seq<Dispatcher.Entry>) {
    var enqueued := Prefix(Filter(ids, refused), capacity);
    |queue| == |enqueued| && forall i | 0 <= i < |queue| ::
        queue[i] == Dispatcher.Entry(enqueued[i], Dispatcher.Initial)
  }

  /** Whichever of its writes are refused, a starting service hands the dispatcher a fresh state exactly if the tasks it
      loaded were consistent. */
  lemma {:induction false} RecoveryIsFresh(loaded: map<Id, Task>, tasks: map<Id, Task>, ids: seq<Id>, refused: set<Id>,
                                           queue: seq<Dispatcher.Entry>, capacity: nat, now: int)
    requires tasks.Keys == loaded.Keys && forall id | id in loaded ::
               tasks[id] == Recovered(loaded[id], now, id !in refused)
    requires InCreationOrder(loaded, ids) && Enqueued(ids, refused, capacity, queue)
    ensures Dispatcher.Fresh(Dispatcher.State(tasks, {}, map[], queue, capacity, map[], map[], map[])) <==>
            forall id | id in loaded :: Consistent(loaded[id])
  {
    var filtered := Filter(ids, refused);
    FilterHolds(ids, refused);
    forall i | 0 <= i < |queue| ensures queue[i].id in tasks && tasks[queue[i].id].status == Queued {
      assert queue[i].id == filtered[i] && filtered[i] in filtered;
      assert filtered[i] in ids;
    }
    forall id | id in loaded ensures Consistent(tasks[id]) <==> Consistent(loaded[id]) {
      RecoveredConsistently(loaded[id], now, id !in refused);
    }
    forall i, j | 0 <= i < j < |queue| ensures queue[i].id != queue[j].id {
      assert Distinct(filtered) && filtered[i] != filtered[j];
      assert queue[i].id == filtered[i] && queue[j].id == filtered[j];
    }
  }

  /** A service that starts over directories in which only consistent versions were ever written hands the dispatcher a
      fresh state, whatever crashes left of them. */
  lemma {:induction false} SurvivorsStartFresh(views: map<Id, View>, allowed: map<Id, set<Task>>,
                                               attachments: map<Id, string>, sizes: map<Id, nat>,
                                               loaded: map<Id, Task>, tasks: map<Id, Task>, ids: seq<Id>,
                                               refused: set<Id>, queue: seq<Dispatcher.Entry>, capacity: nat, now: int)
    requires views.Keys == allowed.Keys == attachments.Keys == sizes.Keys
    requires forall id | id in views ::
               Survives(views[id], allowed[id], false) && forall t | t in allowed[id] :: Consistent(t)
    requires forall id | id in loaded ::
               id in views && Loaded(views[id], id, attachments[id], Some(sizes[id])) == Some(loaded[id])
    requires tasks.Keys == loaded.Keys && forall id | id in loaded ::
               tasks[id] == Recovered(loaded[id], now, id !in refused)
    requires InCreationOrder(loaded, ids) && Enqueued(ids, refused, capacity, queue)
    ensures Dispatcher.Fresh(Dispatcher.State(tasks, {}, map[], queue, capacity, map[], map[], map[]))
  {
    forall id | id in loaded ensures Consistent(loaded[id]) {
      SurvivorsAreConsistent(views[id], id, attachments[id], Some(sizes[id]), allowed[id], false);
    }
    RecoveryIsFresh(loaded, tasks, ids, refused, queue, capacity, now);
  }
}
