/**
  BaseWorker of pkg/worker/worker.go: validation, the retry loop with capped exponential
  backoff, statistics and the non-blocking send of the result.
*/
module Workers {
  import opened Wrappers
  import opened Retry

  // ---------- backoff ----------

  newtype int64 = x: int | -0x8000_0000_0000_0000 <= x < 0x8000_0000_0000_0000

  const MILLISECOND: int64 := 1_000_000
  const SECOND: int64 := 1_000_000_000

  lemma Pow2Of20()
    ensures Pow2(10) == 1024 && Pow2(20) == 1_048_576
  {
    assert Pow2(5) == 32;
    assert Pow2(10) == 1024;
    assert Pow2(15) == 32768;
  }

  /** The wait after the given attempt, in milliseconds: 10 * 2^attempt, at most one second. */
  function WaitMillis(attempt: nat): nat {
    Min(10 * Pow2(attempt), 1000)
  }

  /**
    The duration waitForRetry computes, in nanoseconds. Every intermediate value is an int64;
    capping the shift at 20 does not change the result.
  */
  function Backoff(attempt: nat): (d: int64)
    ensures d as int == WaitMillis(attempt) * 1_000_000
  {
    var shift := if attempt > 20 then 20 else attempt;
    Pow2Monotone(shift, 20);
    Pow2Of20();
    var d := (Pow2(shift) as int64) * 10 * MILLISECOND;
    assert attempt > 20 ==> Pow2(attempt) >= Pow2(20) by {
      if attempt > 20 {
        Pow2Monotone(20, attempt);
      }
    }
    if d > SECOND then SECOND else d
  }

  /** Total wait of `n` completed backoffs, in milliseconds. */
  function TotalWait(n: nat): nat {
    if n == 0 then 0 else TotalWait(n - 1) + WaitMillis(n - 1)
  }

  lemma TotalWaitUnfold()
    ensures TotalWait(0) == 0
    ensures forall n: nat {:trigger TotalWait(n + 1)} {:trigger TotalWait(n), WaitMillis(n)} :: TotalWait(n + 1) == TotalWait(n) + WaitMillis(n)
  {
  }

  lemma {:induction false} TotalWaitClosed(n: nat)
    ensures TotalWait(n) == if n <= 7 then 10 * (Pow2(n) - 1) else 1270 + 1000 * (n - 7)
    decreases n
  {
    assert Pow2(7) == 128 by { assert Pow2(4) == 16; }
    if n > 0 {
      TotalWaitClosed(n - 1);
      if n <= 7 {
        Pow2Monotone(n - 1, 6);
        assert Pow2(6) == 64;
      } else {
        Pow2Monotone(7, n - 1);
      }
    }
  }

  // ---------- tasks, results and statistics ----------

  datatype Task = Task(id: nat, maxRetries: int, invalid: Option<int>, execute: Handler)

  datatype Result = Result(
    taskId: nat, worker: int, output: Option<int>, err: Option<Error>, duration: nat, attempt: nat)

  datatype Stats = Stats(tasksProcessed: int, tasksFailed: int, totalDuration: int)

  /**
    One call of ExecuteTask: the task, the position of its outcome stream, the answers of the
    two selects on the context and the time elapsed by the end of each attempt.
  */
  datatype Call = Call(task: Task, pos: nat, before: Oracle, wait: Oracle, elapsed: nat -> nat)

  datatype Verdict = Rejected(code: int) | Ran(report: Report)

  /** A task without a positive retry count of its own uses the worker's. */
  function EffectiveRetries(task: int, worker: int): int {
    if task <= 0 then worker else task
  }

  function VerdictOf(c: Call, workerRetries: int): Verdict {
    match c.task.invalid
    case Some(code) => Rejected(code)
    case None => Ran(Work(EffectiveRetries(c.task.maxRetries, workerRetries), c.task.execute, c.pos, c.before, c.wait))
  }

  function ErrorOf(e: Ending): Option<Error> {
    match e
    case NotRun => None
    case Succeeded(_) => None
    case Exhausted(err) => Some(err)
    case Stopped => Some(Canceled)
  }

  function ResultOf(c: Call, v: Verdict, worker: int): Result {
    match v
    case Rejected(code) => Result(c.task.id, worker, None, Some(Invalid(code)), 0, 0)
    case Ran(r) =>
      Result(c.task.id, worker, if r.ending.Succeeded? then Some(r.ending.output) else None, ErrorOf(r.ending),
             if r.ending.NotRun? then 0 else c.elapsed(r.attempt), r.attempt)
  }

  /** Statistics are updated on the normal exit of the loop only: not on rejection or cancellation. */
  function Account(s: Stats, v: Verdict, duration: nat): Stats {
    if v.Rejected? || v.report.ending.Stopped? then s
    else if v.report.ending.Exhausted? then s.(tasksFailed := s.tasksFailed + 1, totalDuration := s.totalDuration + duration)
    else s.(tasksProcessed := s.tasksProcessed + 1, totalDuration := s.totalDuration + duration)
  }

  function CompletedWaits(v: Verdict): nat {
    if v.Rejected? || v.report.attempt == 0 then 0 else v.report.attempt - 1
  }

  class BaseWorker {
    const id: int
    const maxRetries: int
    /** Room in the result channel. A nil channel has none. */
    const capacity: nat
    var tasksProcessed: int
    var tasksFailed: int
    var totalDuration: int
    var idleTime: int
    var lastTaskTime: int
    var resultCh: seq<Result>
    /** Every result handed to sendResult, those it dropped, and the milliseconds slept in backoffs. */
    ghost var attempted: seq<Result>
    ghost var dropped: seq<Result>
    ghost var slept: nat

    function GetStats(): Stats
      reads this
    {
      Stats(tasksProcessed, tasksFailed, totalDuration)
    }

    constructor (id: int, maxRetries: int, capacity: nat, now: int)
      ensures GetStats() == Stats(0, 0, 0) && resultCh == attempted == dropped == [] && slept == 0
      ensures this.id == id && this.maxRetries == maxRetries && this.capacity == capacity && lastTaskTime == now
    {
      this.id, this.maxRetries, this.capacity := id, maxRetries, capacity;
      tasksProcessed, tasksFailed, totalDuration, idleTime, lastTaskTime := 0, 0, 0, 0, now;
      resultCh, attempted, dropped, slept := [], [], [], 0;
    }

    /** The result `r` had its one send attempt: it is in the channel if there was room, else dropped. */
    twostate predicate SentOnce(r: Result)
      reads this
    {
      && attempted == old(attempted) + [r]
      && (if |old(resultCh)| < capacity
          then resultCh == old(resultCh) + [r] && dropped == old(dropped)
          else resultCh == old(resultCh) && dropped == old(dropped) + [r])
    }

    method SendResult(result: Result)
      modifies this`resultCh, this`attempted, this`dropped
      ensures SentOnce(result)
    {
      attempted := attempted + [result];
      if |resultCh| < capacity {
        resultCh := resultCh + [result];
      } else {
        dropped := dropped + [result];
      }
    }

    method UpdateTaskStats(result: Result, now: int)
      modifies this`tasksProcessed, this`tasksFailed, this`totalDuration, this`lastTaskTime
      ensures lastTaskTime == now && totalDuration == old(totalDuration) + result.duration
      ensures tasksFailed == old(tasksFailed) + (if result.err.Some? then 1 else 0)
      ensures tasksProcessed == old(tasksProcessed) + (if result.err.Some? then 0 else 1)
    {
      if result.err != None {
        tasksFailed := tasksFailed + 1;
      } else {
        tasksProcessed := tasksProcessed + 1;
      }
      totalDuration := totalDuration + result.duration;
      lastTaskTime := now;
    }

    /** The select between cancellation and the backoff timer; on cancellation the result is sent. */
    method WaitForRetry(canceled: bool, attempt: nat, elapsed: nat, result: Result) returns (ok: bool)
      modifies this`resultCh, this`attempted, this`dropped, this`slept
      ensures ok == !canceled
      ensures ok ==> slept == old(slept) + WaitMillis(attempt) && unchanged(this`resultCh, this`attempted, this`dropped)
      ensures !ok ==> slept == old(slept) && SentOnce(result.(err := Some(Canceled), duration := elapsed))
    {
      var backoff := Backoff(attempt);
      if canceled {
        SendResult(result.(err := Some(Canceled), duration := elapsed));
        return false;
      }
      slept := slept + backoff as int / 1_000_000;
      return true;
    }

    /**
      The loop of executeWithRetries. `canceled` says that it returned from inside the loop,
      with the result already sent.
    */
    method RetryLoop(c: Call, budget: int, initial: Result) returns (result: Result, canceled: bool)
      requires c.task.invalid.None? && budget == EffectiveRetries(c.task.maxRetries, maxRetries)
      requires initial == Result(c.task.id, id, None, None, 0, 0)
      modifies this`resultCh, this`attempted, this`dropped, this`slept
      ensures var v := VerdictOf(c, maxRetries);
        && result == ResultOf(c, v, id)
        && canceled == v.report.ending.Stopped?
        && slept == old(slept) + TotalWait(CompletedWaits(v))
      ensures canceled ==> SentOnce(result)
      ensures !canceled ==> unchanged(this`resultCh, this`attempted, this`dropped)
    {
      hide WorkFrom, TotalWait, WaitMillis;
      TotalWaitUnfold();
      ghost var whole := Work(budget, c.task.execute, c.pos, c.before, c.wait);
      result := initial;
      canceled := false;
      var at := c.pos;
      var attempt := 0;
      while attempt <= budget
        invariant 0 <= attempt
        invariant 0 <= budget ==> attempt <= budget
        invariant budget < 0 ==> attempt == 0
        invariant attempt <= budget ==> whole == Later(WorkFrom(budget, attempt, c.task.execute, at, c.before, c.wait), attempt)
        invariant result == initial.(attempt := attempt)
        invariant unchanged(this`resultCh, this`attempted, this`dropped)
        invariant slept == old(slept) + TotalWait(attempt)
      {
        WorkUnfold(budget, attempt, c.task.execute, at, c.before, c.wait);
        result := result.(attempt := attempt + 1);
        if c.before(attempt) {
          result := result.(err := Some(Canceled), duration := c.elapsed(attempt + 1));
          SendResult(result);
          return result, true;
        }
        var s := c.task.execute(at);
        at := s.next;
        if s.result.Ok? {
          result := result.(output := Some(s.result.output), duration := c.elapsed(attempt + 1));
          return;
        } else if attempt >= budget {
          result := result.(err := Some(TaskError(attempt + 1, Some(s.result.error))), duration := c.elapsed(attempt + 1));
          return;
        }
        var ok := WaitForRetry(c.wait(attempt), attempt, c.elapsed(attempt + 1), result);
        if !ok {
          result := result.(err := Some(Canceled), duration := c.elapsed(attempt + 1));
          return result, true;
        }
        attempt := attempt + 1;
      }
    }

    method ExecuteWithRetries(c: Call, initial: Result, end: int)
      requires c.task.invalid.None?
      requires initial == Result(c.task.id, id, None, None, 0, 0)
      modifies this`resultCh, this`attempted, this`dropped, this`slept
      modifies this`tasksProcessed, this`tasksFailed, this`totalDuration, this`lastTaskTime
      ensures var v := VerdictOf(c, maxRetries);
        && SentOnce(ResultOf(c, v, id))
        && GetStats() == Account(old(GetStats()), v, ResultOf(c, v, id).duration)
        && slept == old(slept) + TotalWait(CompletedWaits(v))
    {
      var budget := c.task.maxRetries;
      if budget <= 0 {
        budget := maxRetries;
      }
      var result, canceled := RetryLoop(c, budget, initial);
      if canceled {
        return;
      }
      UpdateTaskStats(result, end);
      SendResult(result);
    }

    /** Exactly one send attempt on every path; the result, the statistics and the time slept are those of the verdict. */
    method ExecuteTask(c: Call, now: int, end: int)
      modifies this
      ensures var v := VerdictOf(c, maxRetries);
        && SentOnce(ResultOf(c, v, id))
        && GetStats() == Account(old(GetStats()), v, ResultOf(c, v, id).duration)
        && slept == old(slept) + TotalWait(CompletedWaits(v))
      ensures idleTime == old(idleTime) + (now - old(lastTaskTime))
    {
      idleTime := idleTime + (now - lastTaskTime);
      lastTaskTime := now;
      var result := Result(c.task.id, id, None, None, 0, 0);
      match c.task.invalid
      case Some(code) =>
        result := result.(err := Some(Invalid(code)));
        SendResult(result);
      case None =>
        ExecuteWithRetries(c, result, end);
    }
  }

  // ---------- main results ----------

  /**
    The result of one call, against the executions: at most effective retries + 1 executions; with
    a non-negative budget the result carries no error exactly when an execution happened and the
    last one succeeded, and its output is that execution's. Unless cancelled it names the number of
    executions and the time elapsed by the end of the last.
  */
  lemma ResultMatchesLastExecution(c: Call, workerRetries: int, worker: int)
    requires c.task.invalid.None?
    ensures var budget := EffectiveRetries(c.task.maxRetries, workerRetries);
      var v := VerdictOf(c, workerRetries);
      var r, calls := ResultOf(c, v, worker), v.report.calls;
      && calls <= TriesOf(budget)
      && r.taskId == c.task.id && r.worker == worker
      && (r.err != Some(Canceled) && budget >= 0 ==> r.attempt == calls && r.duration == c.elapsed(calls))
      && (budget >= 0 ==>
            && (r.err.None? <==> calls > 0 && c.task.execute(StartOf(calls - 1, c.task.execute, c.pos)).result.Ok?)
            && (r.err.None? ==> r.output.Some? && c.task.execute(StartOf(calls - 1, c.task.execute, c.pos)).result == Ok(r.output.value))
            && (r.err.Some? && r.err.value.TaskError? ==> calls == budget + 1))
      && (budget < 0 ==> calls == 0 && r.err.None? && r.output.None?)
  {
    var budget := EffectiveRetries(c.task.maxRetries, workerRetries);
    if budget >= 0 {
      WorkVerdict(budget, 0, c.task.execute, c.pos, c.before, c.wait);
    }
  }

  /** A task that does not validate is not executed and not counted; its result carries the reason. */
  lemma RejectedExactly(c: Call, workerRetries: int, worker: int, s: Stats)
    ensures var v := VerdictOf(c, workerRetries);
      var r := ResultOf(c, v, worker);
      && (forall code :: c.task.invalid == Some(code) <==> r.err == Some(Invalid(code)))
      && (c.task.invalid.Some? ==>
            && r == Result(c.task.id, worker, None, Some(Invalid(c.task.invalid.value)), 0, 0)
            && Account(s, v, r.duration) == s)
  {
    if c.task.invalid.None? && EffectiveRetries(c.task.maxRetries, workerRetries) >= 0 {
      WorkVerdict(EffectiveRetries(c.task.maxRetries, workerRetries), 0, c.task.execute, c.pos, c.before, c.wait);
    }
  }

  /**
    The call is cancelled exactly if a cancellation point answers true before an execution succeeds
    or the tries run out. At the first such point it stops: the result carries the context's error
    and the attempt reached, nothing is counted. If there is none, the call ends like "at most
    budget + 1 tries".
  */
  lemma CancellationExactly(c: Call, workerRetries: int, worker: int, s: Stats)
    requires c.task.invalid.None?
    ensures var budget := if c.task.maxRetries > 0 then c.task.maxRetries else workerRetries;
      var v := VerdictOf(c, workerRetries);
      var r := ResultOf(c, v, worker);
      && (r.err == Some(Canceled) <==> exists p :: StopsAt(budget, 0, c.task.execute, c.pos, c.before, c.wait, p))
      && (forall p: nat :: StopsAt(budget, 0, c.task.execute, c.pos, c.before, c.wait, p) ==>
            && v.report.calls == (p + 1) / 2 && r.attempt == p / 2 + 1 && r.output == None
            && r.duration == c.elapsed(p / 2 + 1) && Account(s, v, r.duration) == s)
      && (r.err != Some(Canceled) ==> r.output == AtMost(TriesOf(budget), c.task.execute, c.pos).0)
  {
    hide StopsAt, WorkFrom;
    var budget := if c.task.maxRetries > 0 then c.task.maxRetries else workerRetries;
    WorkStopsExactly(budget, c.task.execute, c.pos, c.before, c.wait);
    if budget >= 0 {
      WorkVerdict(budget, 0, c.task.execute, c.pos, c.before, c.wait);
    }
  }

  /**
    Whose retry count applies: a task that always fails is executed once more than its own retry
    count if that is positive, whatever the worker's, and else once more than the worker's.
  */
  lemma FailingTaskExecutions(c: Call, workerRetries: int)
    requires c.task.invalid.None? && c.before == NEVER && c.wait == NEVER
    requires forall p {:trigger c.task.execute(p)} :: c.task.execute(p).result.Err?
    ensures VerdictOf(c, workerRetries).report.calls
         == if c.task.maxRetries > 0 then c.task.maxRetries + 1 else if workerRetries >= 0 then workerRetries + 1 else 0
  {
    var budget := EffectiveRetries(c.task.maxRetries, workerRetries);
    if budget >= 0 {
      NeverStops(budget, 0, c.task.execute, c.pos);
      WorkVerdict(budget, 0, c.task.execute, c.pos, c.before, c.wait);
    }
  }

  function AccountAll(s: Stats, cs: seq<Call>, workerRetries: int, worker: int): Stats
    decreases |cs|
  {
    if cs == [] then s
    else
      var v := VerdictOf(cs[0], workerRetries);
      AccountAll(Account(s, v, ResultOf(cs[0], v, worker).duration), cs[1..], workerRetries, worker)
  }

  /** Calls of a run that were rejected, cancelled, succeeded by their last execution, or never ran their task. */
  datatype Tally = Tally(rejected: nat, canceled: nat, succeeded: nat, silent: nat)

  function TallyOf(cs: seq<Call>, workerRetries: int): Tally {
    if cs == [] then Tally(0, 0, 0, 0)
    else
      var t := TallyOf(cs[1..], workerRetries);
      match VerdictOf(cs[0], workerRetries)
      case Rejected(_) => t.(rejected := t.rejected + 1)
      case Ran(r) =>
        if r.ending.Stopped? then t.(canceled := t.canceled + 1)
        else if r.calls > 0 && r.ending.Succeeded? then t.(succeeded := t.succeeded + 1)
        else if r.calls == 0 then t.(silent := t.silent + 1)
        else t
  }

  /** No valid task of the run uses the worker's retry count. */
  predicate NoneFallsBack(cs: seq<Call>) {
    forall i :: 0 <= i < |cs| && cs[i].task.invalid.None? ==> cs[i].task.maxRetries > 0
  }

  /** The time of the calls that are neither rejected nor cancelled. */
  function TimeOf(cs: seq<Call>, workerRetries: int, worker: int): nat {
    if cs == [] then 0
    else
      var r := ResultOf(cs[0], VerdictOf(cs[0], workerRetries), worker);
      var counted := match r.err { case Some(Invalid(_)) => false case Some(Canceled) => false case _ => true };
      (if counted then r.duration else 0) + TimeOf(cs[1..], workerRetries, worker)
  }

  /**
    Over any run of calls: processed + failed counts every call that was neither rejected nor
    cancelled; processed counts the calls whose last execution succeeded and those that never
    ran their task. Of the latter there are none if the worker's budget is not negative, and
    with a negative one every valid task without retries of its own is such a call. The total
    duration is the time of the calls counted.
  */
  lemma {:induction false} StatsAccountForRun(s: Stats, cs: seq<Call>, workerRetries: int, worker: int)
    ensures var t, e := TallyOf(cs, workerRetries), AccountAll(s, cs, workerRetries, worker);
      && e.tasksProcessed + e.tasksFailed - s.tasksProcessed - s.tasksFailed == |cs| - t.rejected - t.canceled
      && e.tasksProcessed - s.tasksProcessed == t.succeeded + t.silent
      && e.totalDuration - s.totalDuration == TimeOf(cs, workerRetries, worker)
      && (t.silent == 0 <==> workerRetries >= 0 || NoneFallsBack(cs))
    decreases |cs|
  {
    if cs != [] {
      var c := cs[0];
      var v := VerdictOf(c, workerRetries);
      StatsAccountForRun(Account(s, v, ResultOf(c, v, worker).duration), cs[1..], workerRetries, worker);
      assert NoneFallsBack(cs) <==> (c.task.invalid.None? ==> c.task.maxRetries > 0) && NoneFallsBack(cs[1..]);
      if v.Ran? && EffectiveRetries(c.task.maxRetries, workerRetries) >= 0 {
        WorkVerdict(EffectiveRetries(c.task.maxRetries, workerRetries), 0, c.task.execute, c.pos, c.before, c.wait);
      }
    }
  }

  /** A task that fails every try has slept the whole backoff schedule of its budget. */
  lemma ExhaustedSleepsWholeSchedule(c: Call, workerRetries: int)
    requires c.task.invalid.None?
    requires VerdictOf(c, workerRetries).report.ending.Exhausted?
    ensures var budget := EffectiveRetries(c.task.maxRetries, workerRetries);
      && budget >= 0
      && TotalWait(CompletedWaits(VerdictOf(c, workerRetries)))
         == if budget <= 7 then 10 * (Pow2(budget) - 1) else 1270 + 1000 * (budget - 7)
  {
    var budget := EffectiveRetries(c.task.maxRetries, workerRetries);
    if budget >= 0 {
      WorkVerdict(budget, 0, c.task.execute, c.pos, c.before, c.wait);
      TotalWaitClosed(budget);
    }
  }
}
