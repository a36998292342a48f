/** How one queue entry ends: the first bridge execution, the automatic continuation rounds, and the terminal mark.
    The environment's answers are inputs: what each execution returned and what the logs said after it. */
module Outcome {
  import opened Names
  import opened Options
  import opened Tasks
  import Text

  datatype Result = Result(
    exitCode: int,
    containerName: string,
    retained: bool,
    solved: bool,
    flag: string,
    writeupName: string,
    writeup: string,
    failure: string)

  /** What the logs say after an execution: a flag, a writeup's name, "" if there is none; and what reading the writeup
      from the container would give. */
  datatype Logged = Logged(flag: Option<string>, writeupName: string, content: Option<string>)

  /** An execution either fails or returns a result. */
  datatype Answer = Error(message: string) | Ran(raw: Result, logged: Logged)

  /** One possible round: whether the task has a session when it is due, and what continuing it would answer. */
  datatype Round = Round(session: bool, answer: Answer)

  /** What the store says about the task's container while it runs. */
  datatype Container = Container(name: string, kept: bool)

  /** How a run ends before it is marked. */
  datatype Verdict = Ended(result: Result) | Unavailable | RunError(message: string)

  const UNAVAILABLE_MESSAGE := "OpenCode未解出且当前容器或session不可继续"
  const WAITING_STEP := "OpenCode尚未解出，等待继续"

  /** enrichRunnerResult, in a run that is not cancelled. */
  function Enrich(c: Container, raw: Result, logged: Logged): Result {
    var r0 := if raw.containerName == "" then raw.(containerName := c.name, retained := c.kept) else raw;
    var r1 := if logged.flag.Some? then r0.(solved := true, flag := logged.flag.value) else r0;
    var r2 := if logged.writeupName != "" then r1.(writeupName := logged.writeupName) else r1;
    if r2.solved && r2.writeupName != "" && r2.writeup == "" && r2.containerName != "" && logged.content.Some?
    then r2.(writeup := logged.content.value) else r2
  }

  /** What the answer `raw` with `logged` in the log comes to, field by field: a flag in the log solves the task and
      wins over the answer's own, a container that the answer does not name is the one the store knows, and the file
      that the log names is read exactly if the task is solved and there is no writeup yet. */
  ghost predicate Combines(c: Container, raw: Result, logged: Logged, r: Result) {
    && r.exitCode == raw.exitCode && r.failure == raw.failure
    && (r.solved <==> raw.solved || logged.flag.Some?)
    && r.flag == (if logged.flag.Some? then logged.flag.value else raw.flag)
    && (raw.containerName == "" ==> r.containerName == c.name && r.retained == c.kept)
    && (raw.containerName != "" ==> r.containerName == raw.containerName && r.retained == raw.retained)
    && r.writeupName == (if logged.writeupName != "" then logged.writeupName else raw.writeupName)
    && (raw.writeup != "" ==> r.writeup == raw.writeup)
    && (raw.writeup == "" ==>
          r.writeup == if (raw.solved || logged.flag.Some?) && (logged.writeupName != "" || raw.writeupName != "")
                          && (raw.containerName != "" || c.name != "") && logged.content.Some?
                       then logged.content.value else "")
  }

  /** The result after `i` rounds, the first execution being round 0. */
  function ResultAt(first: Result, rounds: seq<Round>, c: Container, i: nat): Result
    requires i <= |rounds| && (i > 0 ==> rounds[i - 1].answer.Ran?)
  {
    if i == 0 then first else Enrich(c, rounds[i - 1].answer.raw, rounds[i - 1].answer.logged)
  }

  predicate Inconclusive(r: Result) {
    !r.solved && r.exitCode == 0
  }

  /** The container and session are there for another round after `r`. */
  predicate CanContinue(r: Result, c: Container, session: bool) {
    session && if r.retained && r.containerName != "" then true else c.kept && c.name != ""
  }

  /** After `i` rounds another is executed: they all answered, the last one was inconclusive and can be continued. */
  ghost predicate Leads(first: Result, rounds: seq<Round>, c: Container, i: nat)
    requires i < |rounds|
  {
    && (i > 0 ==> rounds[i - 1].answer.Ran?)
    && Inconclusive(ResultAt(first, rounds, c, i)) && CanContinue(ResultAt(first, rounds, c, i), c, rounds[i].session)
  }

  /** Rounds 1 to n were all executed. */
  ghost predicate Executed(first: Result, rounds: seq<Round>, c: Container, n: nat)
    requires n <= |rounds|
  {
    forall i | 0 <= i < n :: Leads(first, rounds, c, i)
  }

  /** The verdict after exactly `n` executed rounds out of at most `limit`. */
  ghost predicate Concludes(first: Result, rounds: seq<Round>, c: Container, limit: nat, n: nat, v: Verdict)
    requires n <= limit <= |rounds|
  {
    && Executed(first, rounds, c, n)
    && if n > 0 && rounds[n - 1].answer.Error? then v == RunError(rounds[n - 1].answer.message)
       else
         var last := ResultAt(first, rounds, c, n);
         if Inconclusive(last) && n < limit
         then v == Unavailable && !CanContinue(last, c, rounds[n].session)
         else v == Ended(last)
  }

  lemma EnrichCombines(c: Container, raw: Result, logged: Logged)
    ensures Combines(c, raw, logged, Enrich(c, raw, logged))
  {
  }

  /** Service.runUntilSolved, when nobody stops or cancels the run. `executed` counts the bridge executions it makes. */
  method RunUntilSolved(first: Result, rounds: seq<Round>, c: Container, limit: nat) returns (v: Verdict, executed: nat)
    requires limit <= |rounds|
    ensures executed <= limit
    ensures Concludes(first, rounds, c, limit, executed, v)
    ensures v.Ended? && executed == 0 ==> v.result == first
    ensures v.Ended? && executed > 0 ==>
              var answer := rounds[executed - 1].answer;
              answer.Ran? && Combines(c, answer.raw, answer.logged, v.result)
  {
    var result := first;
    executed := 0;
    if result.solved || result.exitCode != 0 {
      return Ended(result), executed;
    }
    var round := 1;
    while round <= limit
      invariant 1 <= round <= limit + 1 && executed == round - 1
      invariant executed > 0 ==>
                  var answer := rounds[executed - 1].answer;
                  answer.Ran? && Combines(c, answer.raw, answer.logged, result)
      invariant Executed(first, rounds, c, executed)
      invariant result == ResultAt(first, rounds, c, executed) && Inconclusive(result)
    {
      var name, kept := c.name, c.kept;
      if result.retained && result.containerName != "" {
        kept := true;
        name := result.containerName;
      }
      if !kept || name == "" || !rounds[round - 1].session {
        return Unavailable, executed;
      }
      assert Leads(first, rounds, c, executed);
      executed := executed + 1;
      match rounds[round - 1].answer {
        case Error(message) =>
          return RunError(message), executed;
        case Ran(raw, logged) =>
          result := Enrich(c, raw, logged);
          EnrichCombines(c, raw, logged);
      }
      if result.solved || result.exitCode != 0 {
        return Ended(result), executed;
      }
      round := round + 1;
    }
    return Ended(result), executed;
  }

  /** The answers alone decide how many rounds are executed and how the run ends. */
  lemma VerdictIsUnique(first: Result, rounds: seq<Round>, c: Container, limit: nat, n: nat, v: Verdict, m: nat,
                        w: Verdict)
    requires n <= limit <= |rounds| && m <= limit
    requires Concludes(first, rounds, c, limit, n, v) && Concludes(first, rounds, c, limit, m, w)
    ensures n == m && v == w
  {
    if n < m {
      NoFurtherRound(first, rounds, c, limit, n, v, m);
    } else if m < n {
      NoFurtherRound(first, rounds, c, limit, m, w, n);
    }
  }

  /** A run that concludes after n rounds does not execute another. */
  lemma NoFurtherRound(first: Result, rounds: seq<Round>, c: Container, limit: nat, n: nat, v: Verdict, m: nat)
    requires n < m <= limit <= |rounds|
    requires Concludes(first, rounds, c, limit, n, v)
    ensures !Executed(first, rounds, c, m)
  {
    assert !Leads(first, rounds, c, n);
  }

  function StatusOf(v: Verdict): Status {
    match v
    case Ended(r) => if r.solved then Solved else if r.exitCode == 0 then Completed else Failed
    case _ => Failed
  }

  /** Execution `i` exited cleanly without a flag. */
  ghost predicate Quiet(first: Result, rounds: seq<Round>, c: Container, i: nat)
    requires i <= |rounds|
  {
    (i > 0 ==> rounds[i - 1].answer.Ran?) && Inconclusive(ResultAt(first, rounds, c, i))
  }

  /** The last executed round decides: its flag makes the task solved whatever the exit status, its non-zero exit makes
      it failed; the task is completed only when every allowed round ran and exited cleanly without a flag. */
  lemma LastRoundDecides(first: Result, rounds: seq<Round>, c: Container, limit: nat, n: nat, v: Verdict)
    requires n <= limit <= |rounds| && Concludes(first, rounds, c, limit, n, v)
    ensures StatusOf(v) == Solved <==> (n > 0 ==> rounds[n - 1].answer.Ran?) && ResultAt(first, rounds, c, n).solved
    ensures StatusOf(v) == Completed <==>
            n == limit && forall i | 0 <= i <= n :: Quiet(first, rounds, c, i)
    ensures StatusOf(v) == Failed <==>
            || (n > 0 && rounds[n - 1].answer.Error?)
            || (!ResultAt(first, rounds, c, n).solved && ResultAt(first, rounds, c, n).exitCode != 0)
            || (n < limit && Inconclusive(ResultAt(first, rounds, c, n)))
  {
    forall i | 0 <= i < n
      ensures Quiet(first, rounds, c, i)
    {
      assert Leads(first, rounds, c, i);
    }
    assert Quiet(first, rounds, c, n) <==>
             (n > 0 ==> rounds[n - 1].answer.Ran?) && Inconclusive(ResultAt(first, rounds, c, n));
  }

  /** What the container runner returns from every bridge execution that ends: the container's name, and that it is
      kept. */
  predicate Keeps(r: Result) {
    r.retained && r.containerName != ""
  }

  /** With such results nothing but a missing session makes a run impossible to continue: it is given up exactly if
      another round was due, after executions that all ended cleanly without a flag, and the task had no session
      then. */
  lemma OnlyAMissingSessionGivesUp(first: Result, rounds: seq<Round>, c: Container, limit: nat, n: nat, v: Verdict)
    requires n <= limit <= |rounds| && Concludes(first, rounds, c, limit, n, v)
    requires Keeps(first) && forall i | 0 <= i < |rounds| && rounds[i].answer.Ran? :: Keeps(rounds[i].answer.raw)
    ensures v == Unavailable <==>
            n < limit && !rounds[n].session && forall i | 0 <= i <= n :: Quiet(first, rounds, c, i)
  {
    forall i | 0 <= i < n
      ensures Quiet(first, rounds, c, i)
    {
      assert Leads(first, rounds, c, i);
    }
    assert Quiet(first, rounds, c, n) <==>
             (n > 0 ==> rounds[n - 1].answer.Ran?) && Inconclusive(ResultAt(first, rounds, c, n));
  }

  /** What the store's writes at the end of a run do: the terminal mark, the writeup's file, the metadata after it. */
  datatype Writes = Writes(mark: bool, file: bool, metadata: bool)

  predicate HasWriteup(r: Result) {
    r.writeupName != "" && r.writeup != ""
  }

  /** Store.SaveWriteup; the entry names the file as soon as the file is there. */
  method SaveWriteup(task: Task, name: string, w: Writes) returns (done: Task, ok: bool)
    ensures ok <==> SafeStoredFilename(name) && w.file && w.metadata
    ensures done == if SafeStoredFilename(name) && w.file then SetWriteup(task, name) else task
  {
    done, ok := task, false;
    if !SafeStoredFilename(name) || !w.file {
      return;
    }
    done := SetWriteup(task, name);
    ok := w.metadata;
  }

  lemma WaitingStepIsTrimmed()
    ensures Text.TrimSpace(WAITING_STEP) == WAITING_STEP != ""
  {
    Text.TrimKeeps(WAITING_STEP, Text.GoSpace);
  }

  /** What a result leaves of the task when the terminal mark is written, field by field. */
  ghost predicate Marks(task: Task, r: Result, now: int, w: Writes, done: Task) {
    if r.solved then
      done == task.(status := Solved, flag := Some(r.flag), exitCode := Some(r.exitCode), error := None,
                    lastStep := FLAG_STEP, finishedAt := Some(now), containerName := r.containerName,
                    containerKept := false,
                    writeup := if HasWriteup(r) && SafeStoredFilename(r.writeupName) && w.file then r.writeupName
                    else task.writeup)
    else if r.exitCode == 0 then
      done == task.(status := Completed, flag := None, exitCode := Some(0), error := None, lastStep := WAITING_STEP,
                    finishedAt := Some(now), containerName := r.containerName, containerKept := r.retained)
    else
      var failure := Text.TrimSpace(r.failure);
      done == task.(status := Failed, flag := None, exitCode := Some(r.exitCode), lastStep := r.failure,
                    error := if failure != "" then Some(failure)
                    else if task.error.Some? then task.error else Some(ExitMessage(r.exitCode)),
                    finishedAt := Some(now), containerName := r.containerName, containerKept := r.retained)
  }

  /** markRunnerResult: the terminal mark, then the writeup of a solved task, and last its container, which `removed`
      says is taken away. */
  method MarkRunnerResult(task: Task, r: Result, now: int, w: Writes) returns (done: Task, removed: bool)
    ensures !w.mark ==> done == task && !removed
    ensures w.mark ==> Marks(task, r, now, w, done)
    ensures w.mark ==>
              && done.status == StatusOf(Ended(r))
              && (done.flag == if r.solved then Some(r.flag) else None)
              && done.containerName == r.containerName && done.containerKept == (!r.solved && r.retained)
              && (done.writeup == if r.solved && HasWriteup(r) && SafeStoredFilename(r.writeupName) && w.file
                                  then r.writeupName else task.writeup)
              && (removed <==> r.solved
                               && (HasWriteup(r) ==> SafeStoredFilename(r.writeupName) && w.file && w.metadata))
  {
    done, removed := task, false;
    if !w.mark {
      return;
    }
    WaitingStepIsTrimmed();
    if r.solved {
      done := MarkFinished(task, now, r.exitCode, Some(r.flag), FLAG_STEP, r.containerName, false, "");
      var saved := true;
      if r.writeupName != "" && r.writeup != "" {
        done, saved := SaveWriteup(done, r.writeupName, w);
      }
      removed := saved;
    } else if r.exitCode == 0 {
      done := MarkCompleted(task, now, r.exitCode, WAITING_STEP, r.containerName, r.retained);
    } else {
      done := MarkFinished(task, now, r.exitCode, None, r.failure, r.containerName, r.retained, r.failure);
    }
  }

  /** What a verdict leaves of the task when the terminal mark is written. */
  ghost predicate Leaves(task: Task, v: Verdict, w: Writes, done: Task, removed: bool) {
    && done.status == StatusOf(v)
    && (done.flag == if v.Ended? && v.result.solved then Some(v.result.flag) else if v.Ended? then None else task.flag)
    && (if v.Ended? then done.containerName == v.result.containerName
                         && done.containerKept == (!v.result.solved && v.result.retained)
        else done.containerName == task.containerName && done.containerKept == task.containerKept)
    && (removed <==> v.Ended? && v.result.solved
                     && (HasWriteup(v.result) ==> SafeStoredFilename(v.result.writeupName) && w.file && w.metadata))
    && (done.writeup == if v.Ended? && v.result.solved && HasWriteup(v.result)
                           && SafeStoredFilename(v.result.writeupName) && w.file
                        then v.result.writeupName else task.writeup)
  }

  /** The last of so many answers, the first execution's being the first. */
  function Answered(first: Answer, rounds: seq<Round>, executions: nat): Answer
    requires 1 <= executions <= 1 + |rounds|
  {
    if executions == 1 then first else rounds[executions - 2].answer
  }

  /** After this answer another round can be executed: it is a clean exit without a flag, in itself or in the log, the
      task has a session, and a kept container is named by the answer or else by the store. */
  ghost predicate GoesOn(task: Task, a: Answer, session: bool) {
    && a.Ran? && !a.raw.solved && a.logged.flag.None? && a.raw.exitCode == 0 && session
    && ((a.raw.retained && a.raw.containerName != "") || (task.containerKept && task.containerName != ""))
  }

  /** The task as its last answer leaves it, field by field; `spent` says whether no round was left. */
  ghost predicate Settles(task: Task, a: Answer, spent: bool, now: int, w: Writes, done: Task, removed: bool) {
    match a
    case Error(message) => done == Failure(task, now, message) && !removed
    case Ran(raw, logged) =>
      var named := raw.containerName != "";
      var name, kept := if named then raw.containerName else task.containerName,
                        if named then raw.retained else task.containerKept;
      if raw.solved || logged.flag.Some? then
        var file := if logged.writeupName != "" then logged.writeupName else raw.writeupName;
        var written := file != "" && (raw.writeup != ""
                                      || (name != "" && logged.content.Some? && logged.content.value != ""));
        && (removed <==> (written ==> SafeStoredFilename(file) && w.file && w.metadata))
        && done == task.(status := Solved, flag := Some(if logged.flag.Some? then logged.flag.value else raw.flag),
                         exitCode := Some(raw.exitCode), error := None, lastStep := FLAG_STEP,
                         finishedAt := Some(now), containerName := name, containerKept := false,
                         writeup := if written && SafeStoredFilename(file) && w.file then file else task.writeup)
      else if raw.exitCode != 0 then
        var failure := Text.TrimSpace(raw.failure);
        && !removed
        && done == task.(status := Failed, flag := None, exitCode := Some(raw.exitCode), lastStep := raw.failure,
                         error := if failure != "" then Some(failure)
                         else if task.error.Some? then task.error else Some(ExitMessage(raw.exitCode)),
                         finishedAt := Some(now), containerName := name, containerKept := kept)
      else if spent then
        && !removed
        && done == task.(status := Completed, flag := None, exitCode := Some(0), error := None,
                         lastStep := WAITING_STEP, finishedAt := Some(now), containerName := name,
                         containerKept := kept)
      else done == Failure(task, now, UNAVAILABLE_MESSAGE) && !removed
  }

  /** The executed rounds in terms of the answers. */
  lemma ExecutedGoOn(task: Task, first: Answer, rounds: seq<Round>, c: Container, limit: nat, n: nat, v: Verdict)
    requires first.Ran? && c == Container(task.containerName, task.containerKept) && n <= limit <= |rounds|
    requires Concludes(Enrich(c, first.raw, first.logged), rounds, c, limit, n, v)
    ensures forall i | 1 <= i <= n :: GoesOn(task, Answered(first, rounds, i), rounds[i - 1].session)
    ensures n < limit ==> !GoesOn(task, Answered(first, rounds, n + 1), rounds[n].session)
  {
    forall i | 1 <= i <= n
      ensures GoesOn(task, Answered(first, rounds, i), rounds[i - 1].session)
    {
      assert Leads(Enrich(c, first.raw, first.logged), rounds, c, i - 1);
    }
  }

  /** What the terminal mark of a verdict leaves of the task. */
  ghost predicate Marked(task: Task, v: Verdict, now: int, w: Writes, done: Task, removed: bool) {
    match v
    case Ended(r) =>
      && Marks(task, r, now, w, done)
      && (removed <==> r.solved && (HasWriteup(r) ==> SafeStoredFilename(r.writeupName) && w.file && w.metadata))
    case Unavailable => done == Failure(task, now, UNAVAILABLE_MESSAGE) && !removed
    case RunError(message) => done == Failure(task, now, message) && !removed
  }

  lemma MarkedLeaves(task: Task, v: Verdict, now: int, w: Writes, done: Task, removed: bool)
    requires Marked(task, v, now, w, done, removed)
    ensures Leaves(task, v, w, done, removed)
    ensures task.status == Running && task.flag.None? ==> Coupled(done)
  {
  }

  /** The verdict comes from this answer, no round being left if `spent`. */
  ghost predicate Follows(task: Task, a: Answer, spent: bool, v: Verdict) {
    match v
    case Ended(r) =>
      && a.Ran? && Combines(Container(task.containerName, task.containerKept), a.raw, a.logged, r)
      && (!r.solved && r.exitCode == 0 ==> spent)
    case Unavailable => !spent && a.Ran? && !a.raw.solved && a.logged.flag.None? && a.raw.exitCode == 0
    case RunError(message) => a == Error(message)
  }

  lemma MarkedSettles(task: Task, a: Answer, spent: bool, v: Verdict, now: int, w: Writes, done: Task, removed: bool)
    requires Follows(task, a, spent, v) && Marked(task, v, now, w, done, removed)
    ensures Settles(task, a, spent, now, w, done, removed)
  {
    if v.Ended? {
      CombinedSettles(task, a, v.result, spent, now, w, done, removed);
    }
  }

  lemma VerdictFollows(task: Task, first: Answer, rounds: seq<Round>, c: Container, limit: nat, n: nat, v: Verdict)
    requires first.Ran? && c == Container(task.containerName, task.containerKept) && n <= limit <= |rounds|
    requires Concludes(Enrich(c, first.raw, first.logged), rounds, c, limit, n, v)
    ensures Follows(task, Answered(first, rounds, n + 1), n == limit, v)
  {
    var a := Answered(first, rounds, n + 1);
    if a.Ran? {
      assert ResultAt(Enrich(c, first.raw, first.logged), rounds, c, n) == Enrich(c, a.raw, a.logged);
      EnrichCombines(c, a.raw, a.logged);
    }
  }

  /** What a combined result leaves of the task settles it. */
  lemma CombinedSettles(task: Task, a: Answer, r: Result, spent: bool, now: int, w: Writes, done: Task, removed: bool)
    requires a.Ran? && Combines(Container(task.containerName, task.containerKept), a.raw, a.logged, r)
    requires Marks(task, r, now, w, done) && (!r.solved && r.exitCode == 0 ==> spent)
    requires removed <==> r.solved
                          && (HasWriteup(r) ==> SafeStoredFilename(r.writeupName) && w.file && w.metadata)
    ensures Settles(task, a, spent, now, w, done, removed)
  {
  }

  /** Service.finishRun on a task that nobody stops. The result's `failure` is the message runnerFailureMessage derives
      from it. `executions` counts the bridge executions of the queue entry, the first one included. */
  method FinishRun(task: Task, first: Answer, rounds: seq<Round>, limit: nat, now: int, w: Writes)
    returns (done: Task, executions: nat, removed: bool)
    requires limit <= |rounds|
    ensures 1 <= executions <= 1 + limit
    ensures task.status == Running && task.flag.None? ==> Consistent(done) && (w.mark ==> Coupled(done))
    ensures !w.mark ==> done == task && !removed
    ensures first.Error? ==>
              executions == 1 && !removed && (w.mark ==> done == MarkFailed(task, now, first.message))
    ensures first.Ran? ==>
              exists v {:trigger StatusOf(v)} ::
                && Concludes(Enrich(Container(task.containerName, task.containerKept), first.raw, first.logged), rounds,
                             Container(task.containerName, task.containerKept), limit, executions - 1, v)
                && (w.mark ==> Leaves(task, v, w, done, removed))
    ensures forall i | 1 <= i < executions :: GoesOn(task, Answered(first, rounds, i), rounds[i - 1].session)
    ensures executions <= limit ==> !GoesOn(task, Answered(first, rounds, executions), rounds[executions - 1].session)
    ensures w.mark ==>
              Settles(task, Answered(first, rounds, executions), executions == 1 + limit, now, w, done, removed)
  {
    var c := Container(task.containerName, task.containerKept);
    executions, done, removed := 1, task, false;
    match first {
      case Error(message) =>
        if w.mark {
          done := MarkFailed(task, now, message);
        }
      case Ran(raw, logged) =>
        var v, more := RunUntilSolved(Enrich(c, raw, logged), rounds, c, limit);
        executions := 1 + more;
        assert executions - 1 == more;
        ExecutedGoOn(task, first, rounds, c, limit, more, v);
        VerdictFollows(task, first, rounds, c, limit, more, v);
        ghost var status := StatusOf(v);
        if v.Ended? {
          done, removed := MarkRunnerResult(task, v.result, now, w);
        } else if w.mark {
          done := MarkFailed(task, now, if v.Unavailable? then UNAVAILABLE_MESSAGE else v.message);
        }
        if w.mark {
          MarkedLeaves(task, v, now, w, done, removed);
          MarkedSettles(task, Answered(first, rounds, executions), more == limit, v, now, w, done, removed);
        }
    }
  }
}
