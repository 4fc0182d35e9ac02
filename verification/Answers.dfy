/**
  Which answer a call gives, read off the states that it finds: the first ready case of a select,
  the first submission of a batch that is not accepted, the first poll that finds both reads zero.
*/
module Answers {
  import opened Wrappers
  import opened Protocol
  import opened Calls

  // ---------- SubmitWithTimeout ----------

  /** The case could be chosen in this state. */
  predicate Ready(s: State, timed: bool, choice: Case) {
    match choice
    case Send(direct) => if direct then Working(s) && s.taskQueue == [] else |s.taskQueue| < s.capacity
    case Timer => timed
    case Shutdown => s.stop != NotStopped
  }

  /** The states that the rounds of a waiting call find. */
  function RoundStates(s: State, rounds: seq<Round>): (states: seq<State>)
    ensures |states| == |rounds|
    decreases |rounds|
  {
    if rounds == [] then []
    else
      var s' := After(s, rounds[0].others);
      [s'] + RoundStates(s', rounds[1..])
  }

  /** Which rounds find their case ready. */
  function Readiness(s: State, timed: bool, rounds: seq<Round>): (bs: seq<bool>)
    ensures |bs| == |rounds|
    ensures forall i :: 0 <= i < |rounds| ==> bs[i] == Ready(RoundStates(s, rounds)[i], timed, rounds[i].choice)
    decreases |rounds|
  {
    if rounds == [] then []
    else
      var s' := After(s, rounds[0].others);
      [Ready(s', timed, rounds[0].choice)] + Readiness(s', timed, rounds[1..])
  }

  /** Round k is the first whose case is ready. */
  predicate FirstReady(s: State, timed: bool, rounds: seq<Round>, k: int) {
    FirstTrue(Readiness(s, timed, rounds), k)
  }

  predicate NoneReady(s: State, timed: bool, rounds: seq<Round>) {
    NoneTrue(Readiness(s, timed, rounds))
  }

  lemma RoundStatesStep(s: State, rounds: seq<Round>)
    requires rounds != []
    ensures var s' := After(s, rounds[0].others);
      RoundStates(s, rounds) == [s'] + RoundStates(s', rounds[1..])
  {
    hide After;
  }

  lemma FirstReadyStep(s: State, timed: bool, rounds: seq<Round>, k: int)
    requires rounds != []
    ensures var s' := After(s, rounds[0].others);
      && (FirstReady(s, timed, rounds, k) <==>
            if Ready(s', timed, rounds[0].choice) then k == 0
            else k > 0 && FirstReady(s', timed, rounds[1..], k - 1))
      && (NoneReady(s, timed, rounds) <==> !Ready(s', timed, rounds[0].choice) && NoneReady(s', timed, rounds[1..]))
      && (0 < k < |rounds| ==> RoundStates(s, rounds)[k] == RoundStates(s', rounds[1..])[k - 1])
      && RoundStates(s, rounds)[0] == s'
  {
    hide Ready, After, FirstTrue, NoneTrue, RoundStates;
    var s' := After(s, rounds[0].others);
    RoundStatesStep(s, rounds);
    FirstTrueStep(Ready(s', timed, rounds[0].choice), Readiness(s', timed, rounds[1..]), k);
  }

  function OutcomeOf(choice: Case): Outcome {
    match choice
    case Send(direct) => Accepted(direct)
    case Timer => TimedOut
    case Shutdown => ShuttingDown
  }

  /** The state after the chosen case: with the task sent, or as it was found. */
  function Chose(s: State, me: nat, task: Task, choice: Case): State {
    match choice
    case Send(direct) =>
      s.(uncounted := s.uncounted + {me}, enqueued := s.enqueued + [task],
         taskQueue := if direct then s.taskQueue else s.taskQueue + [task],
         executing := if direct then s.executing + [task] else s.executing,
         taken := if direct then s.taken + [task] else s.taken)
    case _ => s
  }

  /** The first ready round decides. */
  lemma {:induction false} SelectExactly(s: State, me: nat, task: Task, timed: bool, rounds: seq<Round>)
    requires me !in s.uncounted && ForeignRounds(me, rounds)
    ensures var c := Select(s, me, task, timed, rounds);
      && (c.outcome == Blocked <==> NoneReady(s, timed, rounds))
      && (forall k :: 0 <= k < |rounds| && FirstReady(s, timed, rounds, k) ==>
            && c.outcome == OutcomeOf(rounds[k].choice)
            && c.final == Chose(RoundStates(s, rounds)[k], me, task, rounds[k].choice))
    decreases |rounds|
  {
    hide FirstReady, NoneReady, Run, Legal, Happens, RoundStates;
    if rounds == [] {
      NoRounds(s, timed);
    } else {
      var s' := After(s, rounds[0].others);
      OthersAct(me, s, rounds[0].others);
      SelectExactly(s', me, task, timed, rounds[1..]);
      forall k | 0 <= k < |rounds| && FirstReady(s, timed, rounds, k)
        ensures Select(s, me, task, timed, rounds).outcome == OutcomeOf(rounds[k].choice)
        ensures Select(s, me, task, timed, rounds).final == Chose(RoundStates(s, rounds)[k], me, task, rounds[k].choice)
      {
        FirstReadyStep(s, timed, rounds, k);
      }
      FirstReadyStep(s, timed, rounds, 0);
    }
  }

  lemma NoRounds(s: State, timed: bool)
    ensures NoneReady(s, timed, []) && forall k :: !FirstReady(s, timed, [], k)
  {
  }

  /**
    A call on a started manager with a valid task: it is accepted, times out or meets the shutdown
    exactly as the first ready round says, and blocks exactly if no round is ready. It leaves the
    state that this round found, with the task sent if that is what it chose.
  */
  lemma SubmitExactly(s: State, me: nat, task: Task, timed: bool, plan: Plan)
    requires s.started && task.valid && me !in s.uncounted && ForeignPlan(me, plan)
    ensures var c, s' := Submit(s, me, task, timed, plan), After(s, plan.before);
      && (c.outcome == Blocked <==> NoneReady(s', timed, plan.rounds))
      && (c.outcome == TimedOut <==> exists k :: 0 <= k < |plan.rounds| && FirstReady(s', timed, plan.rounds, k) && plan.rounds[k].choice == Timer)
      && (c.outcome == ShuttingDown <==> exists k :: 0 <= k < |plan.rounds| && FirstReady(s', timed, plan.rounds, k) && plan.rounds[k].choice == Shutdown)
      && (c.outcome.Accepted? <==> exists k :: 0 <= k < |plan.rounds| && FirstReady(s', timed, plan.rounds, k) && plan.rounds[k].choice.Send?)
      && (forall k :: 0 <= k < |plan.rounds| && FirstReady(s', timed, plan.rounds, k) ==>
            var found := Chose(RoundStates(s', plan.rounds)[k], me, task, plan.rounds[k].choice);
            && c.outcome == OutcomeOf(plan.rounds[k].choice)
            && c.final == (if c.outcome.Accepted? then CountedBy(me, After(found, plan.after)) else found))
  {
    hide FirstReady, NoneReady, Run, Legal, Happens, RoundStates, Select, Chose;
    var s' := After(s, plan.before);
    OthersAct(me, s, plan.before);
    SelectExactly(s', me, task, timed, plan.rounds);
    SelectTells(s', me, task, timed, plan.rounds);
    var c := Select(s', me, task, timed, plan.rounds);
    if c.outcome.Accepted? {
      OthersAct(me, c.final, plan.after);
    }
    if c.outcome != Blocked {
      var k := FirstReadyRound(s', timed, plan.rounds);
    } else {
      NoneIsFirst(s', timed, plan.rounds);
    }
  }

  /** The submission of `me` is counted. */
  function CountedBy(me: nat, s: State): State {
    s.(uncounted := s.uncounted - {me},
       stats := s.stats.(tasksSubmitted := s.stats.tasksSubmitted + 1, tasksInProgress := s.stats.tasksInProgress + 1))
  }

  lemma {:induction false} FirstReadyRound(s: State, timed: bool, rounds: seq<Round>) returns (k: nat)
    requires !NoneReady(s, timed, rounds)
    ensures k < |rounds| && FirstReady(s, timed, rounds, k)
    decreases |rounds|
  {
    hide FirstReady, NoneReady;
    if rounds == [] {
      NoRounds(s, timed);
      assert false;
    }
    var s' := After(s, rounds[0].others);
    FirstReadyStep(s, timed, rounds, 0);
    if Ready(s', timed, rounds[0].choice) {
      k := 0;
    } else {
      var k' := FirstReadyRound(s', timed, rounds[1..]);
      k := k' + 1;
      FirstReadyStep(s, timed, rounds, k);
    }
  }

  lemma NoneIsFirst(s: State, timed: bool, rounds: seq<Round>)
    requires NoneReady(s, timed, rounds)
    ensures forall k :: !FirstReady(s, timed, rounds, k)
  {
  }

  // ---------- SubmitBatch ----------

  /** The state after the first k submissions of a batch, if all are accepted. */
  function BatchState(s: State, me: nat, tasks: seq<Task>, plans: seq<Plan>, k: nat): State
    requires k <= |tasks| == |plans|
  {
    if k == 0 then s
    else Submit(BatchState(s, me, tasks, plans, k - 1), me, tasks[k - 1], false, plans[k - 1]).final
  }

  lemma {:induction false} BatchStateStep(s: State, me: nat, tasks: seq<Task>, plans: seq<Plan>, k: nat)
    requires k < |tasks| == |plans|
    ensures var first := Submit(s, me, tasks[0], false, plans[0]).final;
      BatchState(s, me, tasks, plans, k + 1) == BatchState(first, me, tasks[1..], plans[1..], k)
    decreases k
  {
    hide Submit;
    assert BatchState(s, me, tasks, plans, 0) == s;
    if k > 0 {
      BatchStateStep(s, me, tasks, plans, k - 1);
    }
  }

  /** Submission k of a batch, without a timeout, after the ones before it. */
  function CallNo(s: State, me: nat, tasks: seq<Task>, plans: seq<Plan>, k: nat): Call
    requires k < |tasks| == |plans|
  {
    Submit(BatchState(s, me, tasks, plans, k), me, tasks[k], false, plans[k])
  }

  lemma {:induction false} SubmitAllExactly(s: State, me: nat, tasks: seq<Task>, plans: seq<Plan>)
    requires |tasks| == |plans|
    ensures var b := SubmitAll(s, me, tasks, plans);
      && b.submitted <= |tasks|
      && (forall k :: 0 <= k < b.submitted ==> CallNo(s, me, tasks, plans, k).outcome.Accepted?)
      && (if b.submitted == |tasks| then b.error == None && b.final == BatchState(s, me, tasks, plans, |tasks|)
          else var c := CallNo(s, me, tasks, plans, b.submitted);
            !c.outcome.Accepted? && b.error == Some(c.outcome) && b.final == c.final)
    decreases |tasks|
  {
    hide Submit, BatchState;
    BatchStart(s, me, tasks, plans);
    if tasks != [] {
      var c := Submit(s, me, tasks[0], false, plans[0]);
      assert CallNo(s, me, tasks, plans, 0) == c;
      if c.outcome.Accepted? {
        SubmitAllExactly(c.final, me, tasks[1..], plans[1..]);
        forall k | 0 <= k < |tasks|
          ensures BatchState(s, me, tasks, plans, k + 1) == BatchState(c.final, me, tasks[1..], plans[1..], k)
        {
          BatchStateStep(s, me, tasks, plans, k);
        }
        var n := SubmitAll(c.final, me, tasks[1..], plans[1..]).submitted;
        forall k | 0 <= k < |tasks| - 1
          ensures CallNo(s, me, tasks, plans, k + 1) == CallNo(c.final, me, tasks[1..], plans[1..], k)
        {
          BatchStateStep(s, me, tasks, plans, k);
        }
        forall k | 0 <= k < n + 1 ensures CallNo(s, me, tasks, plans, k).outcome.Accepted? {
          if k > 0 {
            assert CallNo(s, me, tasks, plans, (k - 1) + 1) == CallNo(c.final, me, tasks[1..], plans[1..], k - 1);
          }
        }
      }
    }
  }

  lemma BatchStart(s: State, me: nat, tasks: seq<Task>, plans: seq<Plan>)
    requires |tasks| == |plans|
    ensures BatchState(s, me, tasks, plans, 0) == s
  {
  }

  /**
    A batch reports as submitted the tasks before the first submission that is not accepted, with
    that submission's outcome as its error; all of them and no error if there is none. On a
    manager that is not started it does nothing.
  */
  lemma BatchExactly(s: State, me: nat, tasks: seq<Task>, plans: seq<Plan>)
    requires |tasks| == |plans|
    ensures var b := SubmitBatch(s, me, tasks, plans);
      if !s.started then b.submitted == 0 && b.error == Some(NotStarted) && b.trace == [] && b.final == s
      else
        && b.submitted <= |tasks|
        && (forall k :: 0 <= k < b.submitted ==> CallNo(s, me, tasks, plans, k).outcome.Accepted?)
        && (if b.submitted == |tasks| then b.error == None && b.final == BatchState(s, me, tasks, plans, |tasks|)
            else var c := CallNo(s, me, tasks, plans, b.submitted);
              !c.outcome.Accepted? && b.error == Some(c.outcome) && b.final == c.final)
  {
    hide CallNo, SubmitAll, BatchState;
    SubmitAllExactly(s, me, tasks, plans);
  }

  // ---------- WaitForCompletion ----------

  /** The states at the two reads of each poll, up to a cancellation. */
  function Reads(s: State, ticks: seq<Tick>): seq<(State, State)>
    decreases |ticks|
  {
    if ticks == [] || ticks[0].Cancel? then []
    else
      var first := After(s, ticks[0].before);
      var second := After(first, ticks[0].between);
      [(first, second)] + Reads(second, ticks[1..])
  }

  predicate BothZero(polls: (State, State)) {
    polls.0.stats.tasksInProgress == 0 && polls.1.taskQueue == []
  }

  /** Which polls find both reads zero. */
  function Zeros(polls: seq<(State, State)>): (bs: seq<bool>)
    ensures |bs| == |polls| && forall i :: 0 <= i < |polls| ==> bs[i] == BothZero(polls[i])
  {
    if polls == [] then [] else [BothZero(polls[0])] + Zeros(polls[1..])
  }

  /** Poll k is the first that finds both reads zero. */
  predicate FirstZero(polls: seq<(State, State)>, k: int) {
    FirstTrue(Zeros(polls), k)
  }

  predicate NeverZero(polls: seq<(State, State)>) {
    NoneTrue(Zeros(polls))
  }

  predicate SomeCancel(ticks: seq<Tick>) {
    exists i :: 0 <= i < |ticks| && ticks[i].Cancel?
  }

  lemma FirstZeroStep(r: (State, State), rest: seq<(State, State)>, k: int)
    ensures FirstZero([r] + rest, k) <==> if BothZero(r) then k == 0 else k > 0 && FirstZero(rest, k - 1)
    ensures NeverZero([r] + rest) <==> !BothZero(r) && NeverZero(rest)
  {
    hide BothZero, FirstTrue, NoneTrue;
    assert ([r] + rest)[1..] == rest;
    FirstTrueStep(BothZero(r), Zeros(rest), k);
  }

  lemma SomeCancelStep(ticks: seq<Tick>)
    requires ticks != []
    ensures SomeCancel(ticks) <==> ticks[0].Cancel? || SomeCancel(ticks[1..])
  {
    assert forall i :: 0 <= i < |ticks[1..]| ==> ticks[1..][i] == ticks[i + 1];
    if i :| 0 <= i < |ticks| && ticks[i].Cancel? {
      if i > 0 {
        assert ticks[1..][i - 1].Cancel?;
      }
    }
  }

  /**
    Amid any steps of others: nil exactly if some poll before a cancellation finds both reads
    zero, at the first such poll; else the context's error exactly if it is cancelled; else the
    call is still waiting.
  */
  lemma {:induction false} AwaitExactly(s: State, ticks: seq<Tick>)
    ensures var w, polls := Await(s, ticks), Reads(s, ticks);
      && (w.answer == Done <==> !NeverZero(polls))
      && (w.answer == Canceled <==> NeverZero(polls) && SomeCancel(ticks))
      && (forall k :: 0 <= k < |polls| && FirstZero(polls, k) ==> w.first == polls[k].0 && w.final == polls[k].1)
    decreases |ticks|
  {
    hide Run, Legal, Happens, After, FirstZero, NeverZero, SomeCancel;
    if ticks == [] {
      NoTicks(s);
    } else {
      SomeCancelStep(ticks);
      if ticks[0].Cancel? {
        NoTicks(s);
      } else {
        var first := After(s, ticks[0].before);
        var second := After(first, ticks[0].between);
        var rest := Reads(second, ticks[1..]);
        AwaitExactly(second, ticks[1..]);
        var w, polls := Await(s, ticks), [(first, second)] + rest;
        FirstZeroStep((first, second), rest, 0);
        forall k | 0 <= k < |polls| && FirstZero(polls, k) ensures w.first == polls[k].0 && w.final == polls[k].1 {
          FirstZeroStep((first, second), rest, k);
        }
      }
    }
  }

  lemma NoTicks(s: State)
    ensures NeverZero([]) && !SomeCancel([]) && forall k :: !FirstZero([], k)
  {
  }
}
