/**
  pkg/manager/manager.go: the manager's fields, its counters and its calls. Each method is
  proved to do the steps of the protocol and nothing else, so that what holds of every run
  holds of the manager.
*/
module Managers {
  import opened Wrappers
  import opened Protocol
  import opened Calls

  /** managerStats */
  class ManagerStats {
    var tasksSubmitted: int
    var tasksCompleted: int
    var tasksFailed: int
    var tasksInProgress: int
    var totalTaskTime: int
    var avgProcessTime: int

    function Totals(): Stats
      reads this
    {
      Stats(tasksSubmitted, tasksCompleted, tasksFailed, tasksInProgress, totalTaskTime, avgProcessTime)
    }

    constructor ()
      ensures Totals() == Stats(0, 0, 0, 0, 0, 0)
    {
      tasksSubmitted, tasksCompleted, tasksFailed := 0, 0, 0;
      tasksInProgress, totalTaskTime, avgProcessTime := 0, 0, 0;
    }

    method CountSubmission()
      modifies this
      ensures Totals() == Submitted(old(Totals()))
    {
      tasksSubmitted := tasksSubmitted + 1;
      tasksInProgress := tasksInProgress + 1;
    }

    method CountResult(result: Result)
      modifies this
      ensures Totals() == Handled(old(Totals()), result)
    {
      if result.failed {
        tasksFailed := tasksFailed + 1;
      } else {
        tasksCompleted := tasksCompleted + 1;
      }
      tasksInProgress := tasksInProgress - 1;
      totalTaskTime := totalTaskTime + result.duration;
      if tasksCompleted > 0 {
        avgProcessTime := totalTaskTime / tasksCompleted;
      }
    }
  }

  /**
    The manager with what its goroutines hold: the tasks its workers execute, the results its
    processors have received, and the submitters between send and count.
  */
  class Manager {
    const capacity: nat
    const stats: ManagerStats
    var started: bool
    /** How far Stop has come; from Closing on the shutdown channel is closed. */
    var stop: StopPhase
    var taskQueue: seq<Task>
    var resultQueue: seq<Result>
    var executing: seq<Task>
    var inHand: seq<Result>
    var uncounted: set<nat>
    ghost var enqueued: seq<Task>
    ghost var taken: seq<Task>
    ghost var dropped: seq<Result>
    ghost var handled: seq<Result>

    ghost function Current(): State
      reads this, stats
    {
      State(started, stop, capacity, taskQueue, executing, resultQueue, inHand, uncounted, stats.Totals(),
            enqueued, taken, dropped, handled)
    }

    ghost predicate Valid()
      reads this, stats
    {
      Inv(Current())
    }

    constructor (capacity: nat)
      ensures Valid() && Current() == Initial(capacity) && fresh(stats)
    {
      hide Inv;
      this.capacity := capacity;
      stats := new ManagerStats();
      started, stop := false, NotStopped;
      taskQueue, resultQueue, executing, inHand, uncounted := [], [], [], [], {};
      enqueued, taken, dropped, handled := [], [], [], [];
      new;
      InitialInv(capacity);
    }

    // ---------- the steps ----------

    method Send(who: nat, task: Task, direct: bool)
      requires Enabled(Current(), Enqueue(who, task, direct))
      modifies this
      ensures Current() == Apply(old(Current()), Enqueue(who, task, direct))
    {
      uncounted := uncounted + {who};
      enqueued := enqueued + [task];
      if direct {
        executing := executing + [task];
        taken := taken + [task];
      } else {
        taskQueue := taskQueue + [task];
      }
    }

    method CountSubmission(who: nat)
      requires Enabled(Current(), Count(who))
      modifies this, stats
      ensures Current() == Apply(old(Current()), Count(who))
    {
      uncounted := uncounted - {who};
      stats.CountSubmission();
    }

    method TakeTask()
      requires Enabled(Current(), Take)
      modifies this
      ensures Current() == Apply(old(Current()), Take)
    {
      executing := executing + [taskQueue[0]];
      taken := taken + [taskQueue[0]];
      taskQueue := taskQueue[1..];
    }

    method SendResult(i: nat, failed: bool, duration: nat, direct: bool)
      requires Enabled(Current(), Finish(i, failed, duration, direct))
      modifies this
      ensures Current() == Apply(old(Current()), Finish(i, failed, duration, direct))
    {
      var result := Result(executing[i], failed, duration);
      executing := Without(executing, i);
      if direct {
        inHand := inHand + [result];
      } else if |resultQueue| < capacity {
        resultQueue := resultQueue + [result];
      } else {
        dropped := dropped + [result];
      }
    }

    method ReceiveResult()
      requires Enabled(Current(), Receive)
      modifies this
      ensures Current() == Apply(old(Current()), Receive)
    {
      inHand := inHand + [resultQueue[0]];
      resultQueue := resultQueue[1..];
    }

    method HandleResult(i: nat)
      requires Enabled(Current(), Handle(i))
      modifies this, stats
      ensures Current() == Apply(old(Current()), Handle(i))
    {
      var result := inHand[i];
      inHand := Without(inHand, i);
      handled := handled + [result];
      stats.CountResult(result);
    }

    /** One atomic action of some goroutine. */
    method Do(step: Step)
      requires Enabled(Current(), step)
      modifies this, stats
      ensures Current() == Apply(old(Current()), step)
    {
      match step
      case Enqueue(who, task, direct) => Send(who, task, direct);
      case Count(who) => CountSubmission(who);
      case Take => TakeTask();
      case Finish(i, failed, duration, direct) => SendResult(i, failed, duration, direct);
      case Receive => ReceiveResult();
      case Handle(i) => HandleResult(i);
      case Start => started := true;
      case CloseShutdown => stop := Closing;
      case StopPool => stop := WorkersDown;
      case MarkStopped => started, stop := false, Stopped;
    }

    /** Whether the step could be done now. */
    method Ready(step: Step) returns (ready: bool)
      ensures ready == Enabled(Current(), step)
    {
      match step
      case Enqueue(who, _, direct) =>
        ready := who !in uncounted && (if direct then started && stop != WorkersDown && taskQueue == [] else |taskQueue| < capacity);
      case Count(who) => ready := who in uncounted;
      case Take => ready := started && stop != WorkersDown && taskQueue != [];
      case Finish(i, _, _, direct) => ready := i < |executing| && (direct ==> resultQueue == []);
      case Receive => ready := resultQueue != [];
      case Handle(i) => ready := i < |inHand|;
      case Start => ready := !started;
      case CloseShutdown => ready := started && stop == NotStopped;
      case StopPool => ready := stop == Closing && executing == [];
      case MarkStopped => ready := stop == WorkersDown;
    }

    /** The other goroutines act. */
    method Others(steps: seq<Step>)
      requires Valid()
      modifies this, stats
      ensures Valid() && Current() == After(old(Current()), steps)
    {
      hide Inv, Enabled, Apply, Legal;
      var i := 0;
      while i < |steps|
        invariant 0 <= i <= |steps|
        invariant After(Current(), steps[i..]) == After(old(Current()), steps)
      {
        ghost var before, rest := Current(), steps[i..];
        AfterCons(before, rest);
        assert rest[1..] == steps[i + 1..];
        var ready := Ready(steps[i]);
        if ready {
          Do(steps[i]);
        }
        i := i + 1;
      }
      assert steps[i..] == [];
      RunKeepsInv(old(Current()), Happens(old(Current()), steps));
    }

    // ---------- the calls ----------

    /** Start; `workersStart` says whether the pool's Start succeeded. */
    method Start(workersStart: bool) returns (ok: bool)
      requires Valid()
      modifies this
      ensures Valid() && ok == (!old(started) && workersStart)
      ensures Current() == if ok then Apply(old(Current()), Protocol.Step.Start) else old(Current())
    {
      if started {
        return false;
      }
      if !workersStart {
        return false;
      }
      StepKeepsInv(Current(), Protocol.Step.Start);
      started := true;
      return true;
    }

    /** Stop; while the workers do not finish it waits, and a second close of the channel panics. */
    method Stop(before: seq<Step>, during: seq<Step>, after: seq<Step>) returns (outcome: StopOutcome)
      requires Valid() && NotOfStop(during) && NotOfStop(after)
      modifies this, stats
      ensures Valid() && outcome == Calls.Stop(old(Current()), before, during, after).outcome
      ensures Current() == Calls.Stop(old(Current()), before, during, after).final
      ensures outcome == Returned ==> !started && executing == []
    {
      hide Inv, Happens, Run, Legal, Enabled, Apply;
      ghost var s := Current();
      StopTells(s, before, during, after);
      if !started {
        return NotRunning;
      }
      Others(before);
      if stop != NotStopped {
        return ClosedTwice;
      }
      ghost var s1 := Current();
      StartedStays(s, Happens(s, before));
      ClosesNow(s1, during);
      StepKeepsInv(s1, CloseShutdown);
      Do(CloseShutdown);
      Others(during);
      if executing != [] {
        return StillWaiting;
      }
      ghost var s2 := Current();
      CloseTells(s1, during);
      DownNow(s2, after);
      StepKeepsInv(s2, StopPool);
      Do(StopPool);
      Others(after);
      StepKeepsInv(Current(), MarkStopped);
      Do(MarkStopped);
      return Returned;
    }

    /** The select of SubmitWithTimeout. */
    method Offer(me: nat, task: Task, timed: bool, rounds: seq<Round>) returns (outcome: Outcome)
      requires Valid()
      modifies this, stats
      ensures Valid() && outcome == Select(old(Current()), me, task, timed, rounds).outcome
      ensures Current() == Select(old(Current()), me, task, timed, rounds).final
    {
      hide Inv, Enabled, Apply, Legal, Happens, Run;
      ghost var start := Current();
      var i := 0;
      while i < |rounds|
        invariant 0 <= i <= |rounds| && Valid()
        invariant Ends(Select(Current(), me, task, timed, rounds[i..])) == Ends(Select(start, me, task, timed, rounds))
      {
        ghost var was, rest := Current(), rounds[i..];
        assert rest[1..] == rounds[i + 1..];
        Others(rounds[i].others);
        match rounds[i].choice {
          case Send(direct) =>
            var ready := Ready(Enqueue(me, task, direct));
            if ready {
              StepKeepsInv(Current(), Enqueue(me, task, direct));
              Send(me, task, direct);
              return Accepted(direct);
            }
          case Timer =>
            if timed {
              return TimedOut;
            }
          case Shutdown =>
            if stop != NotStopped {
              return ShuttingDown;
            }
        }
        i := i + 1;
      }
      assert rounds[i..] == [];
      return Blocked;
    }

    /** One call: its outcome and its effect are those of Submit, whose run SubmitTells describes. */
    method SubmitWithTimeout(me: nat, task: Task, timed: bool, plan: Plan) returns (outcome: Outcome)
      requires Valid() && me !in uncounted && ForeignPlan(me, plan)
      modifies this, stats
      ensures Valid() && me !in uncounted
      ensures outcome == Submit(old(Current()), me, task, timed, plan).outcome
      ensures Current() == Submit(old(Current()), me, task, timed, plan).final
    {
      hide Inv, Apply, Legal, Happens, Run, Select;
      ghost var start := Current();
      SubmitTells(start, me, task, timed, plan);
      if !started {
        return NotStarted;
      }
      if !task.valid {
        return InvalidTask;
      }
      OthersAct(me, start, plan.before);
      Others(plan.before);
      SelectTells(Current(), me, task, timed, plan.rounds);
      outcome := Offer(me, task, timed, plan.rounds);
      if outcome.Accepted? {
        OthersAct(me, Current(), plan.after);
        Others(plan.after);
        StepKeepsInv(Current(), Count(me));
        CountSubmission(me);
      }
    }

    /** Submits in order until one is not accepted; `error` is None if all were. */
    method SubmitBatch(me: nat, tasks: seq<Task>, plans: seq<Plan>) returns (submitted: nat, error: Option<Outcome>)
      requires Valid() && me !in uncounted
      requires |tasks| == |plans| && forall i :: 0 <= i < |plans| ==> ForeignPlan(me, plans[i])
      modifies this, stats
      ensures Valid() && me !in uncounted
      ensures submitted == Calls.SubmitBatch(old(Current()), me, tasks, plans).submitted
      ensures error == Calls.SubmitBatch(old(Current()), me, tasks, plans).error
      ensures Current() == Calls.SubmitBatch(old(Current()), me, tasks, plans).final
    {
      hide Inv, Submit, ForeignPlan;
      if !started {
        return 0, Some(NotStarted);
      }
      ghost var start := Current();
      submitted := 0;
      while submitted < |tasks|
        invariant 0 <= submitted <= |tasks| && Valid() && me !in uncounted
        invariant SameEnd(SubmitAll(start, me, tasks, plans), submitted,
                          SubmitAll(Current(), me, tasks[submitted..], plans[submitted..]))
      {
        assert tasks[submitted..][1..] == tasks[submitted + 1..];
        assert plans[submitted..][1..] == plans[submitted + 1..];
        var outcome := SubmitWithTimeout(me, tasks[submitted], false, plans[submitted]);
        if !outcome.Accepted? {
          return submitted, Some(outcome);
        }
        submitted := submitted + 1;
      }
      return submitted, None;
    }

    /** The loop of WaitForCompletion over the ticks and the cancellation that come. */
    method WaitForCompletion(ticks: seq<Tick>) returns (answer: Answer)
      requires Valid()
      modifies this, stats
      ensures Valid() && answer == Await(old(Current()), ticks).answer
      ensures Current() == Await(old(Current()), ticks).final
      ensures answer == Done && old(uncounted) == {} && Quiet(ticks) ==> AllHandled(Current())
    {
      hide Inv, Happens, Run, Legal, After, Quiet, AllHandled;
      ghost var start := Current();
      if start.uncounted == {} && Quiet(ticks) && Await(start, ticks).answer == Done {
        QuietDoneIsFinal(start, ticks);
      }
      var i := 0;
      while i < |ticks|
        invariant 0 <= i <= |ticks| && Valid()
        invariant Concludes(Await(Current(), ticks[i..])) == Concludes(Await(start, ticks))
      {
        ghost var rest := ticks[i..];
        assert rest[1..] == ticks[i + 1..];
        match ticks[i] {
          case Cancel(others) =>
            Others(others);
            return Canceled;
          case Poll(before, between) =>
            Others(before);
            var inProgress := stats.tasksInProgress;
            Others(between);
            var queueLen := |taskQueue|;
            if inProgress == 0 && queueLen == 0 {
              return Done;
            }
        }
        i := i + 1;
      }
      assert ticks[i..] == [];
      return Waiting;
    }
  }

  function Ends(c: Call): (Outcome, State) {
    (c.outcome, c.final)
  }

  function Concludes(w: Wait): (Answer, State) {
    (w.answer, w.final)
  }

  /** The batch is n accepted submissions and then the rest. */
  ghost predicate SameEnd(whole: Batch, n: nat, rest: Batch) {
    whole.submitted == n + rest.submitted && whole.error == rest.error && whole.final == rest.final
  }

  lemma ClosesNow(s1: State, during: seq<Step>)
    requires s1.started && s1.stop == NotStopped
    ensures Enabled(s1, CloseShutdown)
    ensures After(s1, [CloseShutdown] + during) == After(Apply(s1, CloseShutdown), during)
  {
    HappensCons(s1, CloseShutdown, during);
  }

  lemma DownNow(s2: State, after: seq<Step>)
    requires s2.stop == Closing && s2.executing == [] && NotOfStop(after)
    ensures Enabled(s2, StopPool)
    ensures var e := After(Apply(s2, StopPool), after);
      Enabled(e, MarkStopped) && After(s2, [StopPool] + after + [MarkStopped]) == Apply(e, MarkStopped)
  {
    hide Run, Legal, Happens;
    var d := Apply(s2, StopPool);
    var e := After(d, after);
    HappensFrom(d, after);
    StopPhaseKept(d, Happens(d, after));
    assert [StopPool] + after + [MarkStopped] == [StopPool] + (after + [MarkStopped]);
    HappensCons(s2, StopPool, after + [MarkStopped]);
    HappensAppend(d, after, [MarkStopped]);
    RunOne(e, MarkStopped);
    LegalHappens(e, [MarkStopped]);
    RunAppend(d, Happens(d, after), [MarkStopped]);
  }

  lemma AfterCons(s: State, steps: seq<Step>)
    requires steps != []
    ensures After(s, steps) == After(if Enabled(s, steps[0]) then Apply(s, steps[0]) else s, steps[1..])
  {
    if Enabled(s, steps[0]) {
      RunCons(s, steps[0], Happens(Apply(s, steps[0]), steps[1..]));
    }
  }
}
