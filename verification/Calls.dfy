/**
  The calls of one goroutine on the manager, amid the steps of all others: SubmitWithTimeout,
  SubmitBatch and WaitForCompletion. What the others do between two actions of the call is a
  schedule, an arbitrary sequence of steps of which those take place that are enabled when
  their turn comes.
*/
module Calls {
  import opened Wrappers
  import opened Protocol

  // ---------- schedules ----------

  /** The steps of the schedule that take place. */
  function Happens(s: State, steps: seq<Step>): (r: seq<Step>)
    ensures Legal(s, r)
    decreases |steps|
  {
    if steps == [] then []
    else if Enabled(s, steps[0]) then
      var rest := Happens(Apply(s, steps[0]), steps[1..]);
      RunCons(s, steps[0], rest);
      [steps[0]] + rest
    else Happens(s, steps[1..])
  }

  function After(s: State, steps: seq<Step>): State {
    Run(s, Happens(s, steps))
  }

  /** Any legal run is a schedule of which every step takes place. */
  lemma {:induction false} LegalHappens(s: State, steps: seq<Step>)
    requires Legal(s, steps)
    ensures Happens(s, steps) == steps
    decreases |steps|
  {
    hide Enabled, Apply;
    if steps != [] {
      LegalHappens(Apply(s, steps[0]), steps[1..]);
    }
  }

  lemma {:induction false} HappensFrom(s: State, steps: seq<Step>)
    ensures forall x :: x in Happens(s, steps) ==> x in steps
    decreases |steps|
  {
    hide Enabled, Apply;
    if steps != [] {
      if Enabled(s, steps[0]) {
        HappensFrom(Apply(s, steps[0]), steps[1..]);
      } else {
        HappensFrom(s, steps[1..]);
      }
    }
  }

  predicate By(me: nat, step: Step) {
    (step.Enqueue? || step.Count?) && step.who == me
  }

  /** The steps of the submitter `me`. */
  function Own(me: nat, steps: seq<Step>): (r: seq<Step>)
    ensures |r| <= |steps|
  {
    if steps == [] then []
    else if By(me, steps[0]) then [steps[0]] + Own(me, steps[1..])
    else Own(me, steps[1..])
  }

  predicate Foreign(me: nat, steps: seq<Step>) {
    forall x :: x in steps ==> !By(me, x)
  }

  lemma {:induction false} OwnAppend(me: nat, xs: seq<Step>, ys: seq<Step>)
    ensures Own(me, xs + ys) == Own(me, xs) + Own(me, ys)
  {
    if xs == [] {
      assert xs + ys == ys;
    } else {
      assert (xs + ys)[0] == xs[0] && (xs + ys)[1..] == xs[1..] + ys;
      OwnAppend(me, xs[1..], ys);
    }
  }

  lemma {:induction false} ForeignOwnsNothing(me: nat, steps: seq<Step>)
    requires Foreign(me, steps)
    ensures Own(me, steps) == []
  {
    if steps != [] {
      assert steps[0] in steps;
      ForeignOwnsNothing(me, steps[1..]);
    }
  }

  /** Others neither count for `me` nor put `me` between send and count. */
  lemma {:induction false} ForeignKeepsUncounted(me: nat, s: State, steps: seq<Step>)
    requires Legal(s, steps) && Foreign(me, steps)
    ensures me in Run(s, steps).uncounted <==> me in s.uncounted
    decreases |steps|
  {
    if steps != [] {
      assert steps[0] in steps;
      ForeignKeepsUncounted(me, Apply(s, steps[0]), steps[1..]);
    }
  }

  lemma OthersAct(me: nat, s: State, steps: seq<Step>)
    requires Foreign(me, steps)
    ensures Own(me, Happens(s, steps)) == []
    ensures me in After(s, steps).uncounted <==> me in s.uncounted
  {
    HappensFrom(s, steps);
    ForeignOwnsNothing(me, Happens(s, steps));
    ForeignKeepsUncounted(me, s, Happens(s, steps));
  }

  // ---------- SubmitWithTimeout ----------

  datatype Outcome = Accepted(direct: bool) | NotStarted | InvalidTask | TimedOut | ShuttingDown | Blocked

  /** The case of the select that is tried; it is chosen if it is ready. */
  datatype Case = Send(direct: bool) | Timer | Shutdown

  datatype Round = Round(others: seq<Step>, choice: Case)

  /** The schedule of one call: after the started check, while it waits, before it counts. */
  datatype Plan = Plan(before: seq<Step>, rounds: seq<Round>, after: seq<Step>)

  /** Outcome, every step of the system during the call, and the state on return. */
  datatype Call = Call(outcome: Outcome, trace: seq<Step>, final: State)

  function Then(trace: seq<Step>, c: Call): Call {
    c.(trace := trace + c.trace)
  }

  function Select(s: State, me: nat, task: Task, timed: bool, rounds: seq<Round>): Call
    decreases |rounds|
  {
    if rounds == [] then Call(Blocked, [], s)
    else
      var others := Happens(s, rounds[0].others);
      var s' := Run(s, others);
      match rounds[0].choice
      case Send(direct) =>
        var send := Enqueue(me, task, direct);
        if Enabled(s', send) then Call(Accepted(direct), others + [send], Apply(s', send))
        else Then(others, Select(s', me, task, timed, rounds[1..]))
      case Timer =>
        if timed then Call(TimedOut, others, s')
        else Then(others, Select(s', me, task, timed, rounds[1..]))
      case Shutdown =>
        if s'.stop != NotStopped then Call(ShuttingDown, others, s')
        else Then(others, Select(s', me, task, timed, rounds[1..]))
  }

  /** From the send to the return: others may act before the submission is counted. */
  function Counted(c: Call, me: nat, after: seq<Step>): Call {
    if c.outcome.Accepted? then
      var rest := Happens(c.final, after);
      var s := Run(c.final, rest);
      Call(c.outcome, c.trace + rest + [Count(me)], if Enabled(s, Count(me)) then Apply(s, Count(me)) else s)
    else c
  }

  function Submit(s: State, me: nat, task: Task, timed: bool, plan: Plan): Call {
    if !s.started then Call(NotStarted, [], s)
    else if !task.valid then Call(InvalidTask, [], s)
    else
      var before := Happens(s, plan.before);
      Then(before, Counted(Select(Run(s, before), me, task, timed, plan.rounds), me, plan.after))
  }

  ghost predicate ForeignRounds(me: nat, rounds: seq<Round>) {
    forall i :: 0 <= i < |rounds| ==> Foreign(me, rounds[i].others)
  }

  ghost predicate ForeignPlan(me: nat, plan: Plan) {
    Foreign(me, plan.before) && ForeignRounds(me, plan.rounds) && Foreign(me, plan.after)
  }

  /** The trace is a run of the protocol from s to the final state, with these steps of `me`. */
  ghost predicate Tells(s: State, me: nat, c: Call, own: seq<Step>) {
    Legal(s, c.trace) && Run(s, c.trace) == c.final && Own(me, c.trace) == own
  }

  lemma TellsThen(s: State, me: nat, trace: seq<Step>, c: Call, own: seq<Step>)
    requires Legal(s, trace) && Own(me, trace) == [] && Tells(Run(s, trace), me, c, own)
    ensures Tells(s, me, Then(trace, c), own)
  {
    RunAppend(s, trace, c.trace);
    OwnAppend(me, trace, c.trace);
  }

  lemma TellsStep(s: State, me: nat, c: Call, own: seq<Step>, step: Step)
    requires Tells(s, me, c, own) && By(me, step) && Enabled(c.final, step)
    ensures Tells(s, me, Call(c.outcome, c.trace + [step], Apply(c.final, step)), own + [step])
  {
    RunOne(c.final, step);
    RunAppend(s, c.trace, [step]);
    OwnAppend(me, c.trace, [step]);
  }

  lemma {:induction false} SelectTells(s: State, me: nat, task: Task, timed: bool, rounds: seq<Round>)
    requires me !in s.uncounted && ForeignRounds(me, rounds)
    ensures var c := Select(s, me, task, timed, rounds);
      && (c.outcome.Accepted? ==> Tells(s, me, c, [Enqueue(me, task, c.outcome.direct)]) && me in c.final.uncounted)
      && (!c.outcome.Accepted? ==> Tells(s, me, c, []) && me !in c.final.uncounted)
    decreases |rounds|
  {
    hide Happens, Run, Legal, Enabled;
    if rounds == [] {
      RunNothing(s);
    } else {
      var others := Happens(s, rounds[0].others);
      var s' := Run(s, others);
      OthersAct(me, s, rounds[0].others);
      SelectTells(s', me, task, timed, rounds[1..]);
      var c := Select(s', me, task, timed, rounds[1..]);
      TellsThen(s, me, others, c, if c.outcome.Accepted? then [Enqueue(me, task, c.outcome.direct)] else []);
      match rounds[0].choice
      case Send(direct) =>
        if Enabled(s', Enqueue(me, task, direct)) {
          TellsStep(s, me, Call(Accepted(direct), others, s'), [], Enqueue(me, task, direct));
        }
      case _ =>
    }
  }

  lemma RunNothing(s: State)
    ensures Legal(s, []) && Run(s, []) == s
  {
  }

  /**
    Whatever the others do, a call of `me` adds to the run exactly one send and then one count
    if it is accepted, and no step at all otherwise.
  */
  lemma SubmitTells(s: State, me: nat, task: Task, timed: bool, plan: Plan)
    requires me !in s.uncounted && ForeignPlan(me, plan)
    ensures var c := Submit(s, me, task, timed, plan);
      && Tells(s, me, c, if c.outcome.Accepted? then [Enqueue(me, task, c.outcome.direct), Count(me)] else [])
      && me !in c.final.uncounted
  {
    if s.started && task.valid {
      var before := Happens(s, plan.before);
      var s' := Run(s, before);
      OthersAct(me, s, plan.before);
      SelectTells(s', me, task, timed, plan.rounds);
      var c := Select(s', me, task, timed, plan.rounds);
      if c.outcome.Accepted? {
        var rest := Happens(c.final, plan.after);
        var send := Enqueue(me, task, c.outcome.direct);
        OthersAct(me, c.final, plan.after);
        RunAppend(s', c.trace, rest);
        OwnAppend(me, c.trace, rest);
        TellsStep(s', me, Call(c.outcome, c.trace + rest, Run(c.final, rest)), [send], Count(me));
        TellsThen(s, me, before, Counted(c, me, plan.after), [send, Count(me)]);
      } else {
        TellsThen(s, me, before, c, []);
      }
    }
  }

  /** What an outcome says about the manager and the call. */
  lemma {:induction false} SelectOutcome(s: State, me: nat, task: Task, timed: bool, rounds: seq<Round>)
    ensures var c := Select(s, me, task, timed, rounds);
      && c.outcome !in {NotStarted, InvalidTask}
      && (c.outcome == TimedOut ==> timed)
      && (c.outcome == ShuttingDown ==> c.final.stop != NotStopped)
    decreases |rounds|
  {
    hide Happens, Run, Legal, Enabled;
    if rounds != [] {
      SelectOutcome(Run(s, Happens(s, rounds[0].others)), me, task, timed, rounds[1..]);
    }
  }

  lemma SubmitOutcome(s: State, me: nat, task: Task, timed: bool, plan: Plan)
    ensures var c := Submit(s, me, task, timed, plan);
      && (c.outcome == NotStarted <==> !s.started)
      && (c.outcome == InvalidTask <==> s.started && !task.valid)
      && (c.outcome == TimedOut ==> timed)
      && (c.outcome == ShuttingDown ==> c.final.stop != NotStopped)
  {
    hide Happens, Run, Legal, Enabled;
    SelectOutcome(Run(s, Happens(s, plan.before)), me, task, timed, plan.rounds);
  }

  /** Every interleaving of a successful submission with steps of others is one of these calls. */
  lemma SubmitCovers(s: State, me: nat, task: Task, timed: bool, before: seq<Step>, direct: bool, after: seq<Step>)
    requires s.started && task.valid && Foreign(me, before) && Foreign(me, after)
    requires Legal(s, before) && Enabled(Run(s, before), Enqueue(me, task, direct))
    requires Legal(Apply(Run(s, before), Enqueue(me, task, direct)), after)
    ensures var c := Submit(s, me, task, timed, Plan(before, [Round([], Send(direct))], after));
      && c.outcome == Accepted(direct)
      && c.trace == before + [Enqueue(me, task, direct)] + after + [Count(me)]
      && Legal(s, c.trace) && Run(s, c.trace) == c.final
  {
    hide Happens, Run, Legal, Enabled, Apply;
    var send := Enqueue(me, task, direct);
    var s' := Run(s, before);
    var sent := Apply(s', send);
    LegalHappens(s, before);
    LegalHappens(sent, after);
    SelectNow(s', me, task, timed, direct);
    CountReady(s', send, after);
    var plan := Plan(before, [Round([], Send(direct))], after);
    var c := Submit(s, me, task, timed, plan);
    assert c.trace == before + ([send] + after + [Count(me)]);
    RunOne(Run(sent, after), Count(me));
    RunAppend(sent, after, [Count(me)]);
    RunCons(s', send, after + [Count(me)]);
    RunAppend(s, before, [send] + (after + [Count(me)]));
    assert [send] + after + [Count(me)] == [send] + (after + [Count(me)]);
    assert c.trace == before + [send] + after + [Count(me)];
  }

  lemma SelectNow(s: State, me: nat, task: Task, timed: bool, direct: bool)
    requires Enabled(s, Enqueue(me, task, direct))
    ensures Select(s, me, task, timed, [Round([], Send(direct))])
         == Call(Accepted(direct), [Enqueue(me, task, direct)], Apply(s, Enqueue(me, task, direct)))
  {
    hide Apply, Enabled;
    RunNothing(s);
  }

  lemma CountReady(s: State, send: Step, after: seq<Step>)
    requires send.Enqueue? && Enabled(s, send) && Legal(Apply(s, send), after) && Foreign(send.who, after)
    ensures Enabled(Run(Apply(s, send), after), Count(send.who))
  {
    ForeignKeepsUncounted(send.who, Apply(s, send), after);
  }

  // ---------- SubmitBatch ----------

  /** How many were accepted, the outcome that ended the batch early, the run, the final state. */
  datatype Batch = Batch(submitted: nat, error: Option<Outcome>, trace: seq<Step>, final: State)

  function Ahead(n: nat, trace: seq<Step>, b: Batch): Batch {
    b.(submitted := n + b.submitted, trace := trace + b.trace)
  }

  function SubmitAll(s: State, me: nat, tasks: seq<Task>, plans: seq<Plan>): Batch
    requires |tasks| == |plans|
    decreases |tasks|
  {
    if tasks == [] then Batch(0, None, [], s)
    else
      var c := Submit(s, me, tasks[0], false, plans[0]);
      if c.outcome.Accepted? then Ahead(1, c.trace, SubmitAll(c.final, me, tasks[1..], plans[1..]))
      else Batch(0, Some(c.outcome), c.trace, c.final)
  }

  function SubmitBatch(s: State, me: nat, tasks: seq<Task>, plans: seq<Plan>): Batch
    requires |tasks| == |plans|
  {
    if s.started then SubmitAll(s, me, tasks, plans) else Batch(0, Some(NotStarted), [], s)
  }

  /** The tasks sent in a run of steps, in order. */
  function Sent(steps: seq<Step>): (ts: seq<Task>)
    ensures |ts| <= |steps|
  {
    if steps == [] then []
    else (if steps[0].Enqueue? then [steps[0].task] else []) + Sent(steps[1..])
  }

  function Counts(steps: seq<Step>): (n: nat)
    ensures n <= |steps|
  {
    if steps == [] then 0 else (if steps[0].Count? then 1 else 0) + Counts(steps[1..])
  }

  lemma SentNothing(me: nat)
    ensures Own(me, []) == [] && Sent([]) == [] && Counts([]) == 0
  {
  }

  lemma SentTwo(e: Step, c: Step, steps: seq<Step>)
    requires e.Enqueue? && c.Count?
    ensures Sent([e, c] + steps) == [e.task] + Sent(steps) && Counts([e, c] + steps) == 1 + Counts(steps)
  {
    assert ([e, c] + steps)[1..] == [c] + steps && ([c] + steps)[1..] == steps;
  }

  /**
    A batch sends, in order and counted each, the tasks it reports as submitted and no other:
    all of them if it ends without error, else those before the first that was not accepted.
  */
  lemma {:induction false} BatchTells(s: State, me: nat, tasks: seq<Task>, plans: seq<Plan>)
    requires |tasks| == |plans| && me !in s.uncounted
    requires forall i :: 0 <= i < |plans| ==> ForeignPlan(me, plans[i])
    ensures var b := SubmitAll(s, me, tasks, plans);
      && Legal(s, b.trace) && Run(s, b.trace) == b.final && me !in b.final.uncounted
      && b.submitted <= |tasks| && (b.error == None <==> b.submitted == |tasks|)
      && Sent(Own(me, b.trace)) == tasks[..b.submitted] && Counts(Own(me, b.trace)) == b.submitted
    decreases |tasks|
  {
    hide Submit, Happens, Run, Legal, ForeignPlan, Enabled, Apply, Own, Sent, Counts;
    if tasks == [] {
      RunNothing(s);
      SentNothing(me);
    } else {
      var c := Submit(s, me, tasks[0], false, plans[0]);
      SentNothing(me);
      SubmitTells(s, me, tasks[0], false, plans[0]);
      if c.outcome.Accepted? {
        var rest := SubmitAll(c.final, me, tasks[1..], plans[1..]);
        BatchTells(c.final, me, tasks[1..], plans[1..]);
        RunAppend(s, c.trace, rest.trace);
        OwnAppend(me, c.trace, rest.trace);
        SentTwo(Enqueue(me, tasks[0], c.outcome.direct), Count(me), Own(me, rest.trace));
        assert tasks[..1 + rest.submitted] == [tasks[0]] + tasks[1..][..rest.submitted];
      }
    }
  }

  // ---------- WaitForCompletion ----------

  /** One round of its loop: cancelled, or a tick with what others do before and between the reads. */
  datatype Tick = Cancel(others: seq<Step>) | Poll(before: seq<Step>, between: seq<Step>)

  datatype Answer = Done | Canceled | Waiting

  /** Answer, the state at the last first read, what happened since, and the state on return. */
  datatype Wait = Wait(answer: Answer, first: State, between: seq<Step>, final: State)

  function Await(s: State, ticks: seq<Tick>): Wait
    decreases |ticks|
  {
    if ticks == [] then Wait(Waiting, s, [], s)
    else
      match ticks[0]
      case Cancel(others) => Wait(Canceled, s, Happens(s, others), After(s, others))
      case Poll(before, between) =>
        var first := After(s, before);
        var final := After(first, between);
        if first.stats.tasksInProgress == 0 && final.taskQueue == [] then
          Wait(Done, first, Happens(first, between), final)
        else Await(final, ticks[1..])
  }

  lemma {:induction false} DoneReads(s: State, ticks: seq<Tick>)
    requires Inv(s)
    ensures var w := Await(s, ticks);
      && Inv(w.first) && Legal(w.first, w.between) && Run(w.first, w.between) == w.final
      && (w.answer == Done ==> w.first.stats.tasksInProgress == 0 && w.final.taskQueue == [])
    decreases |ticks|
  {
    hide Inv, Run, Happens, Legal;
    if ticks == [] {
      RunNothing(s);
    } else if ticks[0].Poll? {
      var first := After(s, ticks[0].before);
      RunKeepsInv(s, Happens(s, ticks[0].before));
      RunKeepsInv(first, Happens(first, ticks[0].between));
      DoneReads(After(first, ticks[0].between), ticks[1..]);
    }
  }

  /**
    The answer nil is right if at the deciding tick no submitter was between send and count
    at the first read and none sent before the second: every task ever accepted was handled.
  */
  lemma DoneMeansHandled(s: State, ticks: seq<Tick>)
    requires Inv(s) && Await(s, ticks).answer == Done
    requires Await(s, ticks).first.uncounted == {} && NoEnqueue(Await(s, ticks).between)
    ensures var final := Await(s, ticks).final;
      AllHandled(final) && multiset(TasksOf(final.handled)) == multiset(final.enqueued)
  {
    DoneReads(s, ticks);
    var w := Await(s, ticks);
    TwoReadsSuffice(w.first, w.between);
  }

  /** At the first read of a nil answer everything was handled exactly if nobody was about to count. */
  lemma DoneExactly(s: State, ticks: seq<Tick>)
    requires Inv(s) && Await(s, ticks).answer == Done
    ensures AllHandled(Await(s, ticks).first) <==> Await(s, ticks).first.uncounted == {}
  {
    DoneReads(s, ticks);
    ZeroInProgressExactly(Await(s, ticks).first);
  }

  /** No submitter acts during the wait. */
  ghost predicate Quiet(ticks: seq<Tick>) {
    forall i :: 0 <= i < |ticks| ==> QuietTick(ticks[i])
  }

  predicate QuietTick(t: Tick) {
    match t
    case Cancel(others) => NoEnqueue(others)
    case Poll(before, between) => NoEnqueue(before) && NoEnqueue(between)
  }

  /** The states at the first reads, up to a cancellation. */
  function FirstReads(s: State, ticks: seq<Tick>): seq<State>
    decreases |ticks|
  {
    if ticks == [] || ticks[0].Cancel? then []
    else
      var first := After(s, ticks[0].before);
      [first] + FirstReads(After(first, ticks[0].between), ticks[1..])
  }

  ghost predicate SomeHandled(states: seq<State>) {
    exists i :: 0 <= i < |states| && AllHandled(states[i])
  }

  lemma {:induction false} NoEnqueueKeepsCounted(s: State, steps: seq<Step>)
    requires Legal(s, steps) && NoEnqueue(steps) && s.uncounted == {}
    ensures Run(s, steps).uncounted == {}
    decreases |steps|
  {
    if steps != [] {
      assert steps[0] in steps;
      NoEnqueueKeepsCounted(Apply(s, steps[0]), steps[1..]);
    }
  }

  lemma QuietAfter(s: State, steps: seq<Step>)
    requires Inv(s) && s.uncounted == {} && NoEnqueue(steps)
    ensures Inv(After(s, steps)) && After(s, steps).uncounted == {}
    ensures AllHandled(s) ==> AllHandled(After(s, steps))
  {
    hide Inv, Run, Happens, Legal;
    HappensFrom(s, steps);
    RunKeepsInv(s, Happens(s, steps));
    NoEnqueueKeepsCounted(s, Happens(s, steps));
    if AllHandled(s) {
      DoneStaysDone(s, Happens(s, steps));
    }
  }

  /**
    With every submitter back and none starting, WaitForCompletion answers nil exactly if at one
    of its first reads everything had been handled: neither read can mislead it.
  */
  lemma {:induction false} QuietWaitExactly(s: State, ticks: seq<Tick>)
    requires Inv(s) && s.uncounted == {} && Quiet(ticks)
    ensures Await(s, ticks).answer == Done
       <==> SomeHandled(FirstReads(s, ticks))
    decreases |ticks|
  {
    hide Inv, Run, Happens, Legal, After, SomeHandled, AllHandled;
    if ticks == [] || ticks[0].Cancel? {
      NoneHandled();
    } else {
      var first := After(s, ticks[0].before);
      var final := After(first, ticks[0].between);
      assert QuietTick(ticks[0]);
      QuietAfter(s, ticks[0].before);
      QuietAfter(first, ticks[0].between);
      var rest := FirstReads(final, ticks[1..]);
      SomeHandledOf(first, rest);
      HandledIsZero(first);
      HandledIsEmpty(final);
      if !AllHandled(first) {
        assert Quiet(ticks[1..]);
        QuietWaitExactly(final, ticks[1..]);
      }
    }
  }

  /** So in a quiet wait the answer nil means that nothing is left, on return as well. */
  lemma {:induction false} QuietDoneIsFinal(s: State, ticks: seq<Tick>)
    requires Inv(s) && s.uncounted == {} && Quiet(ticks) && Await(s, ticks).answer == Done
    ensures var final := Await(s, ticks).final;
      AllHandled(final) && multiset(TasksOf(final.handled)) == multiset(final.enqueued)
    decreases |ticks|
  {
    hide Inv, Run, Happens, Legal, AllHandled, TasksOf;
    var first := After(s, ticks[0].before);
    assert QuietTick(ticks[0]);
    QuietAfter(s, ticks[0].before);
    QuietAfter(first, ticks[0].between);
    if first.stats.tasksInProgress == 0 && After(first, ticks[0].between).taskQueue == [] {
      HappensFrom(first, ticks[0].between);
      DoneMeansHandled(s, ticks);
    } else {
      assert Quiet(ticks[1..]);
      QuietDoneIsFinal(After(first, ticks[0].between), ticks[1..]);
    }
  }

  lemma NoneHandled()
    ensures !SomeHandled([])
  {
  }

  lemma SomeHandledOf(first: State, rest: seq<State>)
    ensures SomeHandled([first] + rest) <==> AllHandled(first) || SomeHandled(rest)
  {
    var all := [first] + rest;
    if AllHandled(first) {
      assert AllHandled(all[0]);
    }
    if i :| 0 <= i < |rest| && AllHandled(rest[i]) {
      assert AllHandled(all[i + 1]);
    }
  }

  lemma HandledIsEmpty(s: State)
    ensures AllHandled(s) ==> s.taskQueue == []
  {
  }

  lemma HandledIsZero(s: State)
    requires Inv(s) && s.uncounted == {}
    ensures s.stats.tasksInProgress == 0 <==> AllHandled(s)
  {
    Conservation(s);
  }

  /** After a dropped result the answer nil is given only while a submission is not counted. */
  lemma {:induction false} DropEndsWaiting(s: State, ticks: seq<Tick>)
    requires Inv(s) && s.dropped != [] && Await(s, ticks).answer == Done
    ensures Await(s, ticks).first.uncounted != {}
    decreases |ticks|
  {
    hide Inv, Run, Happens, Legal;
    var first := After(s, ticks[0].before);
    var before := Happens(s, ticks[0].before);
    var between := Happens(first, ticks[0].between);
    RunKeepsInv(s, before);
    DroppedStayDropped(s, before);
    RunKeepsInv(first, between);
    DroppedStayDropped(first, between);
    if first.stats.tasksInProgress == 0 && After(first, ticks[0].between).taskQueue == [] {
      if first.uncounted == {} {
        HandledIsZero(first);
      }
    } else {
      DropEndsWaiting(After(first, ticks[0].between), ticks[1..]);
    }
  }

  // ---------- Stop ----------

  /** Closing the shutdown channel a second time panics in the source. */
  datatype StopOutcome = NotRunning | ClosedTwice | StillWaiting | Returned

  /** Outcome, the run from the close on, and the state on return or while it waits. */
  datatype StopCall = StopCall(outcome: StopOutcome, trace: seq<Step>, final: State)

  /**
    Stop with what others do before it closes the channel, while it waits for the workers, and
    before it clears the started flag.
  */
  function Stop(s: State, before: seq<Step>, during: seq<Step>, after: seq<Step>): StopCall {
    if !s.started then StopCall(NotRunning, [], s)
    else
      var s1 := After(s, before);
      if s1.stop != NotStopped then StopCall(ClosedTwice, [], s1)
      else
        var waiting := Happens(s1, [CloseShutdown] + during);
        var s2 := Run(s1, waiting);
        if s2.executing != [] then StopCall(StillWaiting, waiting, s2)
        else
          var rest := Happens(s2, [StopPool] + after + [MarkStopped]);
          StopCall(Returned, waiting + rest, Run(s2, rest))
  }

  /** The steps of Stop itself. */
  predicate OfStop(step: Step) {
    step.CloseShutdown? || step.StopPool? || step.MarkStopped?
  }

  predicate NotOfStop(steps: seq<Step>) {
    forall x :: x in steps ==> !OfStop(x)
  }

  lemma {:induction false} StopPhaseKept(s: State, steps: seq<Step>)
    requires Legal(s, steps) && NotOfStop(steps)
    ensures Run(s, steps).stop == s.stop && (s.started ==> Run(s, steps).started)
    decreases |steps|
  {
    if steps != [] {
      assert steps[0] in steps;
      StopPhaseKept(Apply(s, steps[0]), steps[1..]);
    }
  }

  /** The channel is not opened again, and a started manager is only cleared by a Stop. */
  lemma {:induction false} StartedStays(s: State, steps: seq<Step>)
    requires Legal(s, steps) && Run(s, steps).stop == NotStopped
    ensures s.stop == NotStopped && (s.started ==> Run(s, steps).started)
    decreases |steps|
  {
    if steps != [] {
      StartedStays(Apply(s, steps[0]), steps[1..]);
    }
  }

  lemma HappensCons(s: State, step: Step, steps: seq<Step>)
    requires Enabled(s, step)
    ensures Happens(s, [step] + steps) == [step] + Happens(Apply(s, step), steps)
    ensures After(s, [step] + steps) == After(Apply(s, step), steps)
  {
    assert ([step] + steps)[1..] == steps;
    hide Enabled, Apply, Run, Legal;
    RunCons(s, step, Happens(Apply(s, step), steps));
  }

  lemma {:induction false} HappensAppend(s: State, xs: seq<Step>, ys: seq<Step>)
    ensures Happens(s, xs + ys) == Happens(s, xs) + Happens(After(s, xs), ys)
    decreases |xs|
  {
    hide Enabled, Apply;
    if xs == [] {
      assert xs + ys == ys;
      RunNothing(s);
    } else {
      assert (xs + ys)[0] == xs[0] && (xs + ys)[1..] == xs[1..] + ys;
      assert xs == [xs[0]] + xs[1..];
      if Enabled(s, xs[0]) {
        HappensCons(s, xs[0], xs[1..]);
        HappensAppend(Apply(s, xs[0]), xs[1..], ys);
      } else {
        HappensAppend(s, xs[1..], ys);
      }
    }
  }

  /**
    A Stop returns exactly if the manager is started, the channel not closed before, and nothing
    executes when the workers are waited for; else it waits. One that returns has closed the
    channel, waited until nothing executes, and then cleared the flag: it is one of the runs that
    StopFinishesExactly and StopHandlesAllExactly speak of.
  */
  lemma StopTells(s: State, before: seq<Step>, during: seq<Step>, after: seq<Step>)
    requires Inv(s) && NotOfStop(during) && NotOfStop(after)
    ensures var c, s1 := Stop(s, before, during, after), After(s, before);
      && Inv(c.final)
      && (c.outcome == NotRunning <==> !s.started)
      && (c.outcome == ClosedTwice <==> s.started && s1.stop != NotStopped)
      && (s.started && s1.stop == NotStopped ==>
            var waiting := After(s1.(stop := Closing), during);
            && (c.outcome == Returned <==> waiting.executing == [])
            && (c.outcome == StillWaiting <==> waiting.executing != [])
            && (c.outcome == StillWaiting ==> c.final == waiting && waiting.stop == Closing))
      && (!s.started ==> c.final == s) && (c.outcome == ClosedTwice ==> c.final == s1)
      && (c.outcome == Returned ==>
            && c.final.executing == [] && !c.final.started && c.final.stop == Stopped
            && Inv(s1) && StopRun(s1, c.trace) && Run(s1, c.trace) == c.final)
  {
    hide Inv, Run, Legal, Happens, Enabled, Apply;
    if s.started {
      var s1 := After(s, before);
      RunKeepsInv(s, Happens(s, before));
      if s1.stop == NotStopped {
        StartedStays(s, Happens(s, before));
        CloseTells(s1, during);
        var waiting := Happens(s1, [CloseShutdown] + during);
        var s2 := Run(s1, waiting);
        RunKeepsInv(s1, waiting);
        if s2.executing == [] {
          DownTells(s2, after);
          var rest := Happens(s2, [StopPool] + after + [MarkStopped]);
          RunKeepsInv(s2, rest);
          RunAppend(s1, waiting, rest);
          StoppedExecutesNothing(Run(s2, rest));
        }
      }
    }
  }

  lemma CloseTells(s1: State, during: seq<Step>)
    requires s1.started && s1.stop == NotStopped && NotOfStop(during)
    ensures var waiting := Happens(s1, [CloseShutdown] + during);
      && waiting != [] && waiting[0] == CloseShutdown
      && Run(s1, waiting).stop == Closing && Run(s1, waiting) == After(s1.(stop := Closing), during)
  {
    hide Run, Legal, Happens;
    var c := Apply(s1, CloseShutdown);
    HappensCons(s1, CloseShutdown, during);
    HappensFrom(c, during);
    StopPhaseKept(c, Happens(c, during));
  }

  lemma DownTells(s2: State, after: seq<Step>)
    requires s2.stop == Closing && s2.executing == [] && NotOfStop(after)
    ensures var rest := Happens(s2, [StopPool] + after + [MarkStopped]);
      && rest != [] && rest[|rest| - 1] == MarkStopped
      && !Run(s2, rest).started && Run(s2, rest).stop == Stopped
  {
    hide Run, Legal, Happens;
    var d := Apply(s2, StopPool);
    assert [StopPool] + after + [MarkStopped] == [StopPool] + (after + [MarkStopped]);
    HappensCons(s2, StopPool, after + [MarkStopped]);
    HappensAppend(d, after, [MarkStopped]);
    HappensFrom(d, after);
    StopPhaseKept(d, Happens(d, after));
    var e := After(d, after);
    RunOne(e, MarkStopped);
    LegalHappens(e, [MarkStopped]);
    EndsStopped(s2, Happens(s2, [StopPool] + after + [MarkStopped]));
  }
}
