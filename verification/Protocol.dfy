/**
  The submit / execute / result protocol of pkg/manager/manager.go and pkg/worker/worker.go
  as a step machine. A step is one atomic action of one goroutine; a run is any legal
  sequence of steps, so it stands for any interleaving of submitters, workers and result
  processors. Assumed wiring: the workers share the manager's two channels.
*/
module Protocol {
  import opened Wrappers

  datatype Task = Task(id: nat, priority: int, valid: bool)

  datatype Result = Result(task: Task, failed: bool, duration: nat)

  /** managerStats. `tasksInProgress` may be negative for a moment. */
  datatype Stats = Stats(
    tasksSubmitted: int, tasksCompleted: int, tasksFailed: int, tasksInProgress: int,
    totalTaskTime: int, avgProcessTime: int)

  /**
    How far Manager.Stop has come: the shutdown channel is closed; the pool's Stop has returned,
    which waits for every worker; Stop itself has returned.
  */
  datatype StopPhase = NotStopped | Closing | WorkersDown | Stopped

  datatype State = State(
    started: bool, stop: StopPhase,
    capacity: nat,                 // of the task queue and of the result queue
    taskQueue: seq<Task>,
    executing: seq<Task>,          // taken by a worker, result not yet sent
    resultQueue: seq<Result>,
    inHand: seq<Result>,           // received by a result processor, not yet handled
    uncounted: set<nat>,           // submitters between their send and their count
    stats: Stats,
    // history
    enqueued: seq<Task>, taken: seq<Task>, dropped: seq<Result>, handled: seq<Result>)

  /**
    `direct` is a send that meets a waiting receiver; a channel of capacity zero has no other.
    A worker's send never blocks: a result that finds the queue full is dropped.
  */
  datatype Step =
    | Enqueue(who: nat, task: Task, direct: bool)
    | Count(who: nat)
    | Take
    | Finish(i: nat, failed: bool, duration: nat, direct: bool)
    | Receive
    | Handle(i: nat)
    | Start | CloseShutdown | StopPool | MarkStopped

  /** The pool has workers. Until its Stop returns they may take tasks, cancelled or not. */
  predicate Working(s: State) {
    s.started && s.stop != WorkersDown
  }

  predicate Enabled(s: State, step: Step) {
    match step
    case Enqueue(who, _, direct) =>
      who !in s.uncounted && (if direct then Working(s) && s.taskQueue == [] else |s.taskQueue| < s.capacity)
    case Count(who) => who in s.uncounted
    case Take => Working(s) && s.taskQueue != []
    case Finish(i, _, _, direct) => i < |s.executing| && (direct ==> s.resultQueue == [])
    case Receive => s.resultQueue != []
    case Handle(i) => i < |s.inHand|
    case Start => !s.started
    case CloseShutdown => s.started && s.stop == NotStopped
    case StopPool => s.stop == Closing && s.executing == []
    case MarkStopped => s.stop == WorkersDown
  }

  function Submitted(t: Stats): Stats {
    t.(tasksSubmitted := t.tasksSubmitted + 1, tasksInProgress := t.tasksInProgress + 1)
  }

  /** handleResult on the counters. */
  function Handled(t: Stats, r: Result): Stats {
    var completed := if r.failed then t.tasksCompleted else t.tasksCompleted + 1;
    var total := t.totalTaskTime + r.duration;
    Stats(t.tasksSubmitted, completed, if r.failed then t.tasksFailed + 1 else t.tasksFailed, t.tasksInProgress - 1,
          total, if completed > 0 then total / completed else t.avgProcessTime)
  }

  function Apply(s: State, step: Step): State
    requires Enabled(s, step)
  {
    match step
    case Enqueue(who, t, direct) =>
      var s' := s.(uncounted := s.uncounted + {who}, enqueued := s.enqueued + [t]);
      if direct then s'.(executing := s.executing + [t], taken := s.taken + [t])
      else s'.(taskQueue := s.taskQueue + [t])
    case Count(who) => s.(uncounted := s.uncounted - {who}, stats := Submitted(s.stats))
    case Take =>
      var t := s.taskQueue[0];
      s.(taskQueue := s.taskQueue[1..], executing := s.executing + [t], taken := s.taken + [t])
    case Finish(i, failed, duration, direct) =>
      var r := Result(s.executing[i], failed, duration);
      var s' := s.(executing := Without(s.executing, i));
      if direct then s'.(inHand := s.inHand + [r])
      else if |s.resultQueue| < s.capacity then s'.(resultQueue := s.resultQueue + [r])
      else s'.(dropped := s.dropped + [r])
    case Receive => s.(resultQueue := s.resultQueue[1..], inHand := s.inHand + [s.resultQueue[0]])
    case Handle(i) =>
      s.(inHand := Without(s.inHand, i), handled := s.handled + [s.inHand[i]], stats := Handled(s.stats, s.inHand[i]))
    case Start => s.(started := true)
    case CloseShutdown => s.(stop := Closing)
    case StopPool => s.(stop := WorkersDown)
    case MarkStopped => s.(started := false, stop := Stopped)
  }

  predicate Legal(s: State, steps: seq<Step>)
    decreases |steps|
  {
    steps == [] || (Enabled(s, steps[0]) && Legal(Apply(s, steps[0]), steps[1..]))
  }

  function Run(s: State, steps: seq<Step>): State
    requires Legal(s, steps)
    decreases |steps|
  {
    if steps == [] then s else Run(Apply(s, steps[0]), steps[1..])
  }

  lemma {:induction false} RunAppend(s: State, xs: seq<Step>, ys: seq<Step>)
    requires Legal(s, xs) && Legal(Run(s, xs), ys)
    ensures Legal(s, xs + ys) && Run(s, xs + ys) == Run(Run(s, xs), ys)
    decreases |xs|
  {
    hide Enabled, Apply;
    if xs == [] {
      assert xs + ys == ys;
    } else {
      assert (xs + ys)[0] == xs[0] && (xs + ys)[1..] == xs[1..] + ys;
      RunAppend(Apply(s, xs[0]), xs[1..], ys);
    }
  }

  lemma RunOne(s: State, step: Step)
    requires Enabled(s, step)
    ensures Legal(s, [step]) && Run(s, [step]) == Apply(s, step)
  {
    assert [step][1..] == [];
  }

  lemma RunCons(s: State, step: Step, steps: seq<Step>)
    requires Enabled(s, step) && Legal(Apply(s, step), steps)
    ensures Legal(s, [step] + steps) && Run(s, [step] + steps) == Run(Apply(s, step), steps)
  {
    assert ([step] + steps)[1..] == steps;
  }

  function Initial(capacity: nat): State {
    State(false, NotStopped, capacity, [], [], [], [], {}, Stats(0, 0, 0, 0, 0, 0), [], [], [], [])
  }

  // ---------- the invariant ----------

  function TasksOf(rs: seq<Result>): (ts: seq<Task>)
    ensures |ts| == |rs|
  {
    seq(|rs|, i requires 0 <= i < |rs| => rs[i].task)
  }

  function Succeeded(rs: seq<Result>): (n: nat)
    ensures n <= |rs|
  {
    if rs == [] then 0 else Succeeded(rs[..|rs| - 1]) + (if rs[|rs| - 1].failed then 0 else 1)
  }

  function Durations(rs: seq<Result>): nat {
    if rs == [] then 0 else Durations(rs[..|rs| - 1]) + rs[|rs| - 1].duration
  }

  /** The tasks that were taken and not lost sight of: each is in exactly one place. */
  function Places(s: State): multiset<Task> {
    multiset(s.executing) + multiset(TasksOf(s.resultQueue)) + multiset(TasksOf(s.inHand))
      + multiset(TasksOf(s.dropped)) + multiset(TasksOf(s.handled))
  }

  /** The counters against the history. */
  ghost predicate CountersMatch(t: Stats, accepted: nat, uncounted: nat, handled: seq<Result>) {
    && t.tasksSubmitted + uncounted == accepted
    && t.tasksCompleted == Succeeded(handled)
    && t.tasksFailed == |handled| - Succeeded(handled)
    && t.tasksInProgress == t.tasksSubmitted - t.tasksCompleted - t.tasksFailed
    && t.totalTaskTime == Durations(handled)
    && t.avgProcessTime == if t.tasksCompleted > 0 then t.totalTaskTime / t.tasksCompleted else 0
  }

  ghost predicate Inv(s: State) {
    && |s.taskQueue| <= s.capacity && |s.resultQueue| <= s.capacity
    && (s.stop.Closing? || s.stop.WorkersDown? ==> s.started)
    && (!Working(s) ==> s.executing == [])
    && s.enqueued == s.taken + s.taskQueue
    && multiset(s.taken) == Places(s)
    && CountersMatch(s.stats, |s.enqueued|, |s.uncounted|, s.handled)
  }

  lemma TasksOfAppend(rs: seq<Result>, r: Result)
    ensures TasksOf(rs + [r]) == TasksOf(rs) + [r.task]
    ensures Succeeded(rs + [r]) == Succeeded(rs) + (if r.failed then 0 else 1)
    ensures Durations(rs + [r]) == Durations(rs) + r.duration
    ensures multiset(TasksOf(rs + [r])) == multiset(TasksOf(rs)) + multiset{r.task}
  {
    assert (rs + [r])[..|rs|] == rs;
  }

  lemma TasksOfWithout(rs: seq<Result>, i: nat)
    requires i < |rs|
    ensures multiset(TasksOf(rs)) == multiset(TasksOf(Without(rs, i))) + multiset{rs[i].task}
  {
    WithoutOne(TasksOf(rs), i);
    assert Without(TasksOf(rs), i) == TasksOf(Without(rs, i));
  }

  lemma FirstOut<T>(s: seq<T>)
    requires s != []
    ensures Without(s, 0) == s[1..]
  {
  }

  lemma EnqueueKeepsInv(s: State, step: Step)
    requires Inv(s) && step.Enqueue? && Enabled(s, step)
    ensures Inv(Apply(s, step))
  {
    hide TasksOf, CountersMatch;
    var t := step.task;
    assert CountersMatch(s.stats, |s.enqueued| + 1, |s.uncounted + {step.who}|, s.handled) by {
      MoreUncounted(s.stats, |s.enqueued|, |s.uncounted|, s.handled);
      assert |s.uncounted + {step.who}| == |s.uncounted| + 1;
    }
    if step.direct {
      assert s.taken + [] == s.taken && s.taken + [t] + [] == s.taken + [t];
      assert multiset(s.taken + [t]) == multiset(s.taken) + multiset{t};
      assert multiset(s.executing + [t]) == multiset(s.executing) + multiset{t};
    } else {
      assert s.taken + s.taskQueue + [t] == s.taken + (s.taskQueue + [t]);
    }
  }

  lemma MoreUncounted(t: Stats, accepted: nat, uncounted: nat, handled: seq<Result>)
    requires CountersMatch(t, accepted, uncounted, handled)
    ensures CountersMatch(t, accepted + 1, uncounted + 1, handled)
  {
  }

  lemma TakeKeepsInv(s: State)
    requires Inv(s) && Enabled(s, Take)
    ensures Inv(Apply(s, Take))
  {
    hide TasksOf, CountersMatch;
    var t := s.taskQueue[0];
    assert s.taken + s.taskQueue == s.taken + [t] + s.taskQueue[1..];
    assert multiset(s.taken + [t]) == multiset(s.taken) + multiset{t};
    assert multiset(s.executing + [t]) == multiset(s.executing) + multiset{t};
  }

  lemma FinishKeepsInv(s: State, step: Step)
    requires Inv(s) && step.Finish? && Enabled(s, step)
    ensures Inv(Apply(s, step))
  {
    hide Places, Without, CountersMatch;
    FinishKeepsPlaces(s, step);
  }

  lemma FinishKeepsPlaces(s: State, step: Step)
    requires step.Finish? && Enabled(s, step)
    ensures Places(Apply(s, step)) == Places(s)
  {
    hide TasksOf, CountersMatch, Without, Succeeded, Durations;
    var r := Result(s.executing[step.i], step.failed, step.duration);
    WithoutOne(s.executing, step.i);
    if step.direct {
      TasksOfAppend(s.inHand, r);
    } else if |s.resultQueue| < s.capacity {
      TasksOfAppend(s.resultQueue, r);
    } else {
      TasksOfAppend(s.dropped, r);
    }
  }

  lemma ReceiveKeepsInv(s: State)
    requires Inv(s) && Enabled(s, Receive)
    ensures Inv(Apply(s, Receive))
  {
    hide TasksOf, CountersMatch;
    TasksOfWithout(s.resultQueue, 0);
    FirstOut(s.resultQueue);
    TasksOfAppend(s.inHand, s.resultQueue[0]);
  }

  lemma HandleKeepsInv(s: State, i: nat)
    requires Inv(s) && Enabled(s, Handle(i))
    ensures Inv(Apply(s, Handle(i)))
  {
    hide TasksOf, CountersMatch;
    TasksOfWithout(s.inHand, i);
    TasksOfAppend(s.handled, s.inHand[i]);
    HandledCounts(s.stats, |s.enqueued|, |s.uncounted|, s.handled, s.inHand[i]);
  }

  lemma HandledCounts(t: Stats, accepted: nat, uncounted: nat, handled: seq<Result>, r: Result)
    requires CountersMatch(t, accepted, uncounted, handled)
    ensures CountersMatch(Handled(t, r), accepted, uncounted, handled + [r])
  {
    TasksOfAppend(handled, r);
  }

  /** Every step of every goroutine keeps the invariant. */
  lemma StepKeepsInv(s: State, step: Step)
    requires Inv(s) && Enabled(s, step)
    ensures Inv(Apply(s, step))
  {
    hide TasksOf;
    match step
    case Enqueue(_, _, _) => EnqueueKeepsInv(s, step);
    case Count(who) => assert |s.uncounted - {who}| == |s.uncounted| - 1;
    case Take => TakeKeepsInv(s);
    case Finish(_, _, _, _) => FinishKeepsInv(s, step);
    case Receive => ReceiveKeepsInv(s);
    case Handle(i) => HandleKeepsInv(s, i);
    case _ =>
  }

  lemma {:induction false} RunKeepsInv(s: State, steps: seq<Step>)
    requires Inv(s) && Legal(s, steps)
    ensures Inv(Run(s, steps))
    decreases |steps|
  {
    hide Inv, Enabled, Apply;
    if steps != [] {
      StepKeepsInv(s, steps[0]);
      RunKeepsInv(Apply(s, steps[0]), steps[1..]);
    }
  }

  lemma InitialInv(capacity: nat)
    ensures Inv(Initial(capacity))
  {
    assert TasksOf([]) == [] && multiset(TasksOf([])) == multiset{};
  }

  // ---------- main results ----------

  /** How many accepted tasks have not been handled and whose result was not dropped. */
  function Pending(s: State): nat {
    |s.taskQueue| + |s.executing| + |s.resultQueue| + |s.inHand|
  }

  /** Nothing queued, executing, waiting or dropped: every accepted task has been handled. */
  predicate AllHandled(s: State) {
    s.taskQueue == [] && s.executing == [] && s.resultQueue == [] && s.inHand == [] && s.dropped == []
  }

  lemma Conservation(s: State)
    requires Inv(s)
    ensures s.stats.tasksSubmitted + |s.uncounted|
         == Pending(s) + |s.dropped| + s.stats.tasksCompleted + s.stats.tasksFailed
    ensures s.stats.tasksInProgress + |s.uncounted| == Pending(s) + |s.dropped|
    ensures s.stats.tasksInProgress == s.stats.tasksSubmitted - s.stats.tasksCompleted - s.stats.tasksFailed
    ensures s.enqueued == s.taken + s.taskQueue
  {
    assert |s.enqueued| == |s.taken| + |s.taskQueue|;
    assert |multiset(s.taken)| == |s.taken|;
    assert |Places(s)| == |s.executing| + |s.resultQueue| + |s.inHand| + |s.dropped| + |s.handled|;
  }

  /**
    In every interleaving: counted plus uncounted submissions are queued, executing, waiting,
    in hand, dropped or handled, and tasks are taken in the order they were enqueued.
  */
  lemma EveryRunConserves(capacity: nat, steps: seq<Step>)
    requires Legal(Initial(capacity), steps)
    ensures var s := Run(Initial(capacity), steps);
      && s.stats.tasksSubmitted + |s.uncounted|
         == Pending(s) + |s.dropped| + s.stats.tasksCompleted + s.stats.tasksFailed
      && s.stats.tasksInProgress == s.stats.tasksSubmitted - s.stats.tasksCompleted - s.stats.tasksFailed
      && s.enqueued == s.taken + s.taskQueue
      && (AllHandled(s) ==> multiset(TasksOf(s.handled)) == multiset(s.enqueued))
  {
    hide Inv, AllHandled, Run, Legal, TasksOf;
    InitialInv(capacity);
    RunKeepsInv(Initial(capacity), steps);
    var s := Run(Initial(capacity), steps);
    Conservation(s);
    if AllHandled(s) {
      HandledAreEnqueued(s);
    }
  }

  lemma HandledAreEnqueued(s: State)
    requires Inv(s) && AllHandled(s)
    ensures multiset(TasksOf(s.handled)) == multiset(s.enqueued)
  {
    assert s.enqueued == s.taken;
    assert multiset(TasksOf([])) == multiset{} && multiset(s.executing) == multiset{};
  }

  /** With tasksInProgress at zero the system is done exactly if no submitter is about to count. */
  lemma ZeroInProgressExactly(s: State)
    requires Inv(s) && s.stats.tasksInProgress == 0
    ensures AllHandled(s) <==> s.uncounted == {}
  {
    Conservation(s);
    if |s.uncounted| == 0 {
      assert s.uncounted == {};
    }
  }

  predicate NoEnqueue(steps: seq<Step>) {
    forall x :: x in steps ==> !x.Enqueue?
  }

  lemma {:induction false} DoneStaysDone(s: State, steps: seq<Step>)
    requires AllHandled(s) && Legal(s, steps) && NoEnqueue(steps)
    ensures AllHandled(Run(s, steps)) && Run(s, steps).enqueued == s.enqueued && Run(s, steps).handled == s.handled
    decreases |steps|
  {
    if steps != [] {
      assert steps[0] in steps;
      DoneStaysDone(Apply(s, steps[0]), steps[1..]);
    }
  }

  /**
    The two reads of WaitForCompletion: zero in progress at `first`, an empty queue after
    `between`. If no submitter was about to count at the first read and none enqueued between
    the reads, every task accepted so far has been handled.
  */
  lemma TwoReadsSuffice(first: State, between: seq<Step>)
    requires Inv(first) && Legal(first, between)
    requires first.stats.tasksInProgress == 0 && Run(first, between).taskQueue == []
    requires first.uncounted == {} && NoEnqueue(between)
    ensures AllHandled(Run(first, between))
    ensures multiset(TasksOf(Run(first, between).handled)) == multiset(Run(first, between).enqueued)
  {
    ZeroInProgressExactly(first);
    DoneStaysDone(first, between);
    RunKeepsInv(first, between);
    HandledAreEnqueued(Run(first, between));
  }

  /**
    Without those conditions the answer can be wrong: a task that was sent, and taken, but not
    yet counted is executing while both reads are zero.
  */
  lemma UncountedTaskDeceives(t: Task)
    ensures var s, steps := Initial(1), [Start, Enqueue(0, t, false), Take];
      && Legal(s, steps)
      && Run(s, steps).stats.tasksInProgress == 0 && Run(s, steps).taskQueue == []
      && Run(s, steps).executing == [t] && !AllHandled(Run(s, steps))
  {
    var s := Initial(1);
    var s1 := Apply(s, Start);
    var e := Enqueue(0, t, false);
    RunOne(Apply(s1, e), Take);
    RunCons(s1, e, [Take]);
    RunCons(s, Start, [e] + [Take]);
    assert [Start] + ([e] + [Take]) == [Start, e, Take];
  }

  lemma {:induction false} DroppedStayDropped(s: State, steps: seq<Step>)
    requires Legal(s, steps)
    ensures |Run(s, steps).dropped| >= |s.dropped|
    decreases |steps|
  {
    if steps != [] {
      DroppedStayDropped(Apply(s, steps[0]), steps[1..]);
    }
  }

  /**
    A dropped result is never made up for: from then on, whenever no submitter is about to
    count, tasksInProgress stays positive, so the first read of WaitForCompletion fails.
  */
  lemma DroppedResultBlocksCompletion(s: State, steps: seq<Step>)
    requires Inv(s) && s.dropped != [] && Legal(s, steps)
    requires Run(s, steps).uncounted == {}
    ensures Run(s, steps).stats.tasksInProgress > 0
  {
    RunKeepsInv(s, steps);
    DroppedStayDropped(s, steps);
    Conservation(Run(s, steps));
  }

  // ---------- the counters against the executions ----------

  /** How many executions ended, how many of them well, and the time they took. */
  datatype Work = Work(finished: nat, succeeded: nat, duration: nat)

  function Plus(a: Work, b: Work): Work {
    Work(a.finished + b.finished, a.succeeded + b.succeeded, a.duration + b.duration)
  }

  /** The executions that end in a run, from its steps alone. */
  function WorkDone(steps: seq<Step>): Work {
    if steps == [] then Work(0, 0, 0)
    else Plus(WorkOfStep(steps[0]), WorkDone(steps[1..]))
  }

  function WorkOfStep(step: Step): Work {
    if step.Finish? then Work(1, if step.failed then 0 else 1, step.duration) else Work(0, 0, 0)
  }

  function WorkOf(rs: seq<Result>): Work {
    Work(|rs|, Succeeded(rs), Durations(rs))
  }

  /** The work that the results in the system stand for. */
  function WorkIn(s: State): Work {
    Plus(Plus(WorkOf(s.resultQueue), WorkOf(s.inHand)), Plus(WorkOf(s.dropped), WorkOf(s.handled)))
  }

  lemma {:induction false} WorkWithout(rs: seq<Result>, i: nat)
    requires i < |rs|
    ensures WorkOf(rs) == Plus(WorkOf(Without(rs, i)), WorkOf([rs[i]]))
    decreases |rs|
  {
    var m := |rs| - 1;
    var init := rs[..m];
    assert rs == init + [rs[m]];
    TasksOfAppend([], rs[i]);
    assert [] + [rs[i]] == [rs[i]];
    if i == m {
      assert Without(rs, i) == init;
    } else {
      WorkWithout(init, i);
      assert Without(rs, i) == Without(init, i) + [rs[m]];
      TasksOfAppend(Without(init, i), rs[m]);
    }
  }

  lemma WorkAppend(rs: seq<Result>, r: Result)
    ensures WorkOf(rs + [r]) == Plus(WorkOf(rs), WorkOf([r]))
    ensures WorkOf([r]) == Work(1, if r.failed then 0 else 1, r.duration)
  {
    TasksOfAppend(rs, r);
    TasksOfAppend([], r);
    assert [] + [r] == [r];
  }

  lemma FinishAccounts(s: State, step: Step)
    requires step.Finish? && Enabled(s, step)
    ensures WorkIn(Apply(s, step)) == Plus(WorkIn(s), WorkOfStep(step))
  {
    hide WorkOf, Without;
    var r := Result(s.executing[step.i], step.failed, step.duration);
    if step.direct {
      WorkAppend(s.inHand, r);
    } else if |s.resultQueue| < s.capacity {
      WorkAppend(s.resultQueue, r);
    } else {
      WorkAppend(s.dropped, r);
    }
  }

  lemma StepAccounts(s: State, step: Step)
    requires Enabled(s, step)
    ensures WorkIn(Apply(s, step)) == Plus(WorkIn(s), WorkOfStep(step))
  {
    hide WorkOf, Without;
    match step
    case Finish(_, _, _, _) => FinishAccounts(s, step);
    case Receive =>
      WorkWithout(s.resultQueue, 0);
      FirstOut(s.resultQueue);
      WorkAppend(s.inHand, s.resultQueue[0]);
    case Handle(i) =>
      WorkWithout(s.inHand, i);
      WorkAppend(s.handled, s.inHand[i]);
    case _ =>
  }

  lemma PlusNothing(a: Work)
    ensures Plus(a, Work(0, 0, 0)) == a && Plus(Work(0, 0, 0), a) == a
  {
  }

  lemma PlusAssociates(a: Work, b: Work, c: Work)
    ensures Plus(Plus(a, b), c) == Plus(a, Plus(b, c))
  {
  }

  lemma {:induction false} RunAccounts(s: State, steps: seq<Step>)
    requires Legal(s, steps)
    ensures WorkIn(Run(s, steps)) == Plus(WorkIn(s), WorkDone(steps))
    decreases |steps|
  {
    hide Enabled, Apply, WorkIn, WorkOfStep, Plus;
    if steps == [] {
      PlusNothing(WorkIn(s));
    } else {
      StepAccounts(s, steps[0]);
      RunAccounts(Apply(s, steps[0]), steps[1..]);
      PlusAssociates(WorkIn(s), WorkOfStep(steps[0]), WorkDone(steps[1..]));
    }
  }

  lemma WorkOfNothing(s: State)
    requires s.resultQueue == s.inHand == s.dropped == s.handled == []
    ensures WorkIn(s) == Work(0, 0, 0)
  {
    hide WorkOf;
    WorkOfEmpty(s.handled);
  }

  lemma WorkOfEmpty(rs: seq<Result>)
    requires |rs| == 0
    ensures WorkOf(rs) == Work(0, 0, 0)
  {
  }

  lemma WorkWhenHandled(s: State)
    requires Inv(s) && AllHandled(s)
    ensures WorkIn(s) == Work(s.stats.tasksCompleted + s.stats.tasksFailed, s.stats.tasksCompleted, s.stats.totalTaskTime)
  {
    hide Places;
    WorkOfEmpty(s.inHand);
  }

  /**
    No result is altered, lost or handled twice: once all is handled, the counters are the
    number of successful and failed executions of the run, and the time they took.
  */
  lemma CountersCountExecutions(capacity: nat, steps: seq<Step>)
    requires Legal(Initial(capacity), steps) && AllHandled(Run(Initial(capacity), steps))
    ensures var t, w := Run(Initial(capacity), steps).stats, WorkDone(steps);
      t.tasksCompleted == w.succeeded && t.tasksFailed == w.finished - w.succeeded && t.totalTaskTime == w.duration
  {
    hide Inv, AllHandled, Run, Legal, WorkIn, WorkDone, Plus;
    InitialInv(capacity);
    RunKeepsInv(Initial(capacity), steps);
    RunAccounts(Initial(capacity), steps);
    WorkOfNothing(Initial(capacity));
    WorkWhenHandled(Run(Initial(capacity), steps));
    PlusNothing(WorkDone(steps));
  }

  // ---------- what Stop leaves ----------

  /** Once Stop has returned, and until a Start, nothing executes and no task is taken. */
  lemma {:induction false} StoppedStaysIdle(s: State, steps: seq<Step>)
    requires Inv(s) && s.stop == Stopped && !s.started
    requires Legal(s, steps) && Start !in steps
    ensures Run(s, steps).executing == [] && Run(s, steps).taken == s.taken
    decreases |steps|
  {
    if steps != [] {
      assert steps[0] in steps;
      StepKeepsInv(s, steps[0]);
      StoppedStaysIdle(Apply(s, steps[0]), steps[1..]);
    }
  }

  /** A run from the call of Stop to its return. */
  ghost predicate StopRun(s: State, steps: seq<Step>) {
    && Legal(s, steps)
    && |steps| >= 2 && steps[0] == CloseShutdown && steps[|steps| - 1] == MarkStopped
  }

  lemma {:induction false} HistoryGrows(s: State, steps: seq<Step>)
    requires Legal(s, steps)
    ensures s.taken <= Run(s, steps).taken && s.handled <= Run(s, steps).handled
    decreases |steps|
  {
    if steps != [] {
      HistoryGrows(Apply(s, steps[0]), steps[1..]);
    }
  }

  lemma {:induction false} EndsStopped(s: State, steps: seq<Step>)
    requires steps != [] && steps[|steps| - 1] == MarkStopped && Legal(s, steps)
    ensures !Run(s, steps).started && Run(s, steps).stop == Stopped
    decreases |steps|
  {
    hide Enabled;
    if |steps| > 1 {
      EndsStopped(Apply(s, steps[0]), steps[1..]);
    } else {
      RunOne(s, MarkStopped);
    }
  }

  const FINISH := Finish(0, false, 0, false)

  /** The workers finish what they execute; the results are queued or dropped. */
  lemma {:induction false} WorkersFinish(s: State)
    ensures var steps := Copies(FINISH, |s.executing|);
      && Legal(s, steps)
      && var r := Run(s, steps);
      && r.executing == [] && r.started == s.started && r.stop == s.stop
      && r.taken == s.taken && r.handled == s.handled
    decreases |s.executing|
  {
    if s.executing != [] {
      var s' := Apply(s, FINISH);
      WorkersFinish(s');
      RunCons(s, FINISH, Copies(FINISH, |s'.executing|));
    }
  }

  /** The shortest Stop: the workers finish, and nobody handles a result. */
  function HastyStop(s: State): seq<Step> {
    [CloseShutdown] + (Copies(FINISH, |s.executing|) + [StopPool, MarkStopped])
  }

  lemma HastyStopLeaves(s: State)
    requires s.started && s.stop == NotStopped
    ensures StopRun(s, HastyStop(s))
    ensures var r := Run(s, HastyStop(s));
      && r.executing == [] && r.taken == s.taken && r.handled == s.handled
  {
    hide Run, Legal;
    var c := Apply(s, CloseShutdown);
    var finish := Copies(FINISH, |s.executing|);
    WorkersFinish(c);
    var w := Run(c, finish);
    RunOne(Apply(w, StopPool), MarkStopped);
    RunCons(w, StopPool, [MarkStopped]);
    assert [StopPool] + [MarkStopped] == [StopPool, MarkStopped];
    RunAppend(c, finish, [StopPool, MarkStopped]);
    RunCons(s, CloseShutdown, finish + [StopPool, MarkStopped]);
  }

  /**
    Stop's comment promises to wait for all current tasks. It returns, in every run, with every
    task accepted by the time of the call executed, exactly if the queue is empty at the call:
    tasks that workers have taken are waited for, queued ones need not be.
  */
  lemma StopFinishesExactly(s: State)
    requires Inv(s) && s.started && s.stop == NotStopped
    ensures (forall steps :: StopRun(s, steps) ==> s.enqueued <= Run(s, steps).taken && Run(s, steps).executing == [])
       <==> s.taskQueue == []
  {
    hide Run, Legal, Inv;
    Conservation(s);
    if s.taskQueue == [] {
      forall steps | StopRun(s, steps) ensures s.enqueued <= Run(s, steps).taken && Run(s, steps).executing == [] {
        HistoryGrows(s, steps);
        EndsStopped(s, steps);
        RunKeepsInv(s, steps);
        StoppedExecutesNothing(Run(s, steps));
      }
    } else {
      HastyStopLeaves(s);
      assert StopRun(s, HastyStop(s));
    }
  }

  lemma StoppedExecutesNothing(s: State)
    requires Inv(s) && !s.started
    ensures s.executing == []
  {
  }

  /**
    And it returns, in every run, with the result of every such task handled exactly if all was
    handled at the call: the result processor may leave as soon as the shutdown channel is closed.
  */
  lemma StopHandlesAllExactly(s: State)
    requires Inv(s) && s.started && s.stop == NotStopped
    ensures (forall steps :: StopRun(s, steps) ==> multiset(s.enqueued) <= multiset(TasksOf(Run(s, steps).handled)))
       <==> AllHandled(s)
  {
    hide Run, Legal, Inv, TasksOf, AllHandled;
    if AllHandled(s) {
      HandledAreEnqueued(s);
      forall steps | StopRun(s, steps) ensures multiset(s.enqueued) <= multiset(TasksOf(Run(s, steps).handled)) {
        HistoryGrows(s, steps);
        TasksOfPrefix(s.handled, Run(s, steps).handled);
      }
    } else {
      HastyStopLeaves(s);
      assert StopRun(s, HastyStop(s));
      if multiset(s.enqueued) <= multiset(TasksOf(s.handled)) {
        EnoughHandled(s);
      }
    }
  }

  lemma TasksOfPrefix(rs: seq<Result>, more: seq<Result>)
    requires rs <= more
    ensures multiset(TasksOf(rs)) <= multiset(TasksOf(more))
  {
    assert TasksOf(more) == TasksOf(rs) + TasksOf(more[|rs|..]);
  }

  lemma EnoughHandled(s: State)
    requires Inv(s) && multiset(s.enqueued) <= multiset(TasksOf(s.handled))
    ensures AllHandled(s)
  {
    Conservation(s);
    SmallerMultiset(s.enqueued, TasksOf(s.handled));
  }

  lemma SmallerMultiset<T>(a: seq<T>, b: seq<T>)
    requires multiset(a) <= multiset(b)
    ensures |a| <= |b|
  {
    assert multiset(b) == multiset(a) + (multiset(b) - multiset(a));
    assert |multiset(a)| == |a| && |multiset(b)| == |b|;
  }

  // ---------- the order in which tasks are taken ----------

  /** The head of the queue has the highest priority in it. */
  predicate HeadIsTop(q: seq<Task>) {
    forall i :: 0 <= i < |q| ==> q[i].priority <= q[0].priority
  }

  /** What Submit's comment promises: each task taken has the highest priority among those queued. */
  predicate TakesByPriority(s: State, steps: seq<Step>)
    requires Legal(s, steps)
    decreases |steps|
  {
    steps == [] || ((steps[0].Take? ==> HeadIsTop(s.taskQueue)) && TakesByPriority(Apply(s, steps[0]), steps[1..]))
  }

  /** A run of a manager with this capacity in which exactly the tasks `ts` are accepted, in this order. */
  ghost predicate Accepts(capacity: nat, ts: seq<Task>, steps: seq<Step>) {
    Legal(Initial(capacity), steps) && Run(Initial(capacity), steps).enqueued == ts
  }

  predicate NeverRises(ts: seq<Task>) {
    forall i :: 0 < i < |ts| ==> ts[i].priority <= ts[i - 1].priority
  }

  lemma {:induction false} StepsDown(q: seq<Task>, i: nat, j: nat)
    requires i <= j < |q| && NeverRises(q)
    ensures q[i].priority >= q[j].priority
    decreases j - i
  {
    if i < j {
      StepsDown(q, i, j - 1);
    }
  }

  lemma {:induction false} EnqueuedGrows(s: State, steps: seq<Step>)
    requires Legal(s, steps)
    ensures s.enqueued <= Run(s, steps).enqueued
    decreases |steps|
  {
    if steps != [] {
      EnqueuedGrows(Apply(s, steps[0]), steps[1..]);
    }
  }

  lemma HeadOfSegment(ts: seq<Task>, from: nat, q: seq<Task>)
    requires NeverRises(ts) && from + |q| <= |ts| && q == ts[from..from + |q|]
    ensures HeadIsTop(q)
  {
    forall i | 0 <= i < |q| ensures q[i].priority <= q[0].priority {
      StepsDown(ts, from, from + i);
    }
  }

  lemma {:induction false} SortedTakes(s: State, steps: seq<Step>, ts: seq<Task>)
    requires Inv(s) && Legal(s, steps) && Run(s, steps).enqueued == ts
    requires s.capacity <= 1 || NeverRises(ts)
    ensures TakesByPriority(s, steps)
    decreases |steps|
  {
    hide Inv, NeverRises, HeadIsTop, Enabled;
    if steps != [] {
      EnqueuedGrows(s, steps);
      QueueInOrder(s, ts);
      StepKeepsInv(s, steps[0]);
      CapacityKept(s, steps[0]);
      SortedTakes(Apply(s, steps[0]), steps[1..], ts);
    }
  }

  lemma CapacityKept(s: State, step: Step)
    requires Enabled(s, step)
    ensures Apply(s, step).capacity == s.capacity
  {
  }

  lemma QueueInOrder(s: State, ts: seq<Task>)
    requires Inv(s) && s.enqueued <= ts && (s.capacity <= 1 || NeverRises(ts))
    ensures HeadIsTop(s.taskQueue)
  {
    hide Places, CountersMatch, NeverRises;
    if s.capacity > 1 {
      HeadOfSegment(ts, |s.taken|, s.taskQueue);
    }
  }

  lemma {:induction false} TakesAppend(s: State, xs: seq<Step>, ys: seq<Step>)
    requires Legal(s, xs) && Legal(Run(s, xs), ys) && Legal(s, xs + ys)
    requires TakesByPriority(s, xs + ys)
    ensures TakesByPriority(Run(s, xs), ys)
    decreases |xs|
  {
    hide Enabled, Apply, HeadIsTop;
    if xs == [] {
      assert xs + ys == ys;
    } else {
      assert (xs + ys)[0] == xs[0] && (xs + ys)[1..] == xs[1..] + ys;
      TakesAppend(Apply(s, xs[0]), xs[1..], ys);
    }
  }

  /** Submissions that each meet a waiting worker. */
  function Directs(from: nat, ts: seq<Task>): (steps: seq<Step>)
    ensures |steps| == |ts|
    decreases |ts|
  {
    if ts == [] then [] else [Enqueue(from, ts[0], true)] + Directs(from + 1, ts[1..])
  }

  /** Ready for submitters from `from` on, with everything accepted so far taken. */
  predicate Open(s: State, capacity: nat, from: nat, ts: seq<Task>) {
    && Working(s) && s.taskQueue == [] && s.capacity == capacity && s.enqueued == ts
    && forall w :: w in s.uncounted ==> w < from
  }

  lemma {:induction false} DirectsRun(s: State, capacity: nat, from: nat, before: seq<Task>, ts: seq<Task>)
    requires Open(s, capacity, from, before)
    ensures Legal(s, Directs(from, ts)) && Open(Run(s, Directs(from, ts)), capacity, from + |ts|, before + ts)
    decreases |ts|
  {
    if ts == [] {
      assert before + ts == before;
    } else {
      var send := Enqueue(from, ts[0], true);
      DirectsRun(Apply(s, send), capacity, from + 1, before + [ts[0]], ts[1..]);
      assert before + [ts[0]] + ts[1..] == before + ts;
      RunCons(s, send, Directs(from + 1, ts[1..]));
    }
  }

  /** Two submissions are queued before either is taken. */
  function Pair(who: nat, low: Task, high: Task): seq<Step> {
    [Enqueue(who, low, false), Enqueue(who + 1, high, false), Take, Take]
  }

  lemma PairRun(s: State, capacity: nat, who: nat, before: seq<Task>, low: Task, high: Task)
    requires Open(s, capacity, who, before) && capacity >= 2 && low.priority < high.priority
    ensures Legal(s, Pair(who, low, high)) && !TakesByPriority(s, Pair(who, low, high))
    ensures Open(Run(s, Pair(who, low, high)), capacity, who + 2, before + [low, high])
  {
    var a, b := Enqueue(who, low, false), Enqueue(who + 1, high, false);
    var s1 := Apply(s, a);
    var s2 := Apply(s1, b);
    var s3 := Apply(s2, Take);
    assert s2.taskQueue == [low, high] && s3.taskQueue == [high];
    RunOne(s3, Take);
    RunCons(s2, Take, [Take]);
    RunCons(s1, b, [Take] + [Take]);
    RunCons(s, a, [b] + ([Take] + [Take]));
    var all := Pair(who, low, high);
    assert all == [a] + ([b] + ([Take] + [Take]));
    assert all[1..] == [b, Take, Take] && all[1..][1..] == [Take, Take];
    assert !HeadIsTop(s2.taskQueue) by { assert s2.taskQueue[1] == high; }
    assert !TakesByPriority(s2, all[1..][1..]);
    assert !TakesByPriority(s1, all[1..]);
  }

  /** A run that accepts `ts` and takes the lower of two queued tasks where the priority rises. */
  lemma RiseIsIgnored(capacity: nat, ts: seq<Task>, i: nat) returns (steps: seq<Step>)
    requires capacity >= 2 && i + 1 < |ts| && ts[i].priority < ts[i + 1].priority
    ensures Accepts(capacity, ts, steps) && !TakesByPriority(Initial(capacity), steps)
  {
    hide Run, Legal, Open, TakesByPriority, Directs, Pair;
    var s := Initial(capacity);
    var s0 := Apply(s, Start);
    assert Open(s0, capacity, 0, []) by { JustStarted(capacity); }
    var xs, ys, zs := Directs(0, ts[..i]), Pair(i, ts[i], ts[i + 1]), Directs(i + 2, ts[i + 2..]);
    DirectsRun(s0, capacity, 0, [], ts[..i]);
    var s1 := Run(s0, xs);
    assert [] + ts[..i] == ts[..i];
    PairRun(s1, capacity, i, ts[..i], ts[i], ts[i + 1]);
    var s2 := Run(s1, ys);
    DirectsRun(s2, capacity, i + 2, ts[..i] + [ts[i], ts[i + 1]], ts[i + 2..]);
    assert ts[..i] + [ts[i], ts[i + 1]] + ts[i + 2..] == ts;
    RunAppend(s1, ys, zs);
    RunAppend(s0, xs, ys + zs);
    RunCons(s, Start, xs + (ys + zs));
    steps := [Start] + (xs + (ys + zs));
    assert Run(s, steps).enqueued == ts by { OpenAccepts(Run(s2, zs), capacity, i + 2 + |ts[i + 2..]|, ts); }
    if TakesByPriority(s, steps) {
      RunOne(s, Start);
      TakesAppend(s, [Start], xs + (ys + zs));
      TakesAppend(s0, xs, ys + zs);
      TakesPrefix(s1, ys, zs);
    }
  }

  lemma JustStarted(capacity: nat)
    ensures Open(Apply(Initial(capacity), Start), capacity, 0, [])
  {
  }

  lemma OpenAccepts(s: State, capacity: nat, from: nat, ts: seq<Task>)
    requires Open(s, capacity, from, ts)
    ensures s.enqueued == ts
  {
  }

  lemma {:induction false} TakesPrefix(s: State, xs: seq<Step>, ys: seq<Step>)
    requires Legal(s, xs) && Legal(s, xs + ys) && TakesByPriority(s, xs + ys)
    ensures TakesByPriority(s, xs)
    decreases |xs|
  {
    hide Enabled, Apply, HeadIsTop;
    if xs != [] {
      assert (xs + ys)[0] == xs[0] && (xs + ys)[1..] == xs[1..] + ys;
      TakesPrefix(Apply(s, xs[0]), xs[1..], ys);
    }
  }

  /**
    The queue is a plain channel, whatever the priorities. In every run that accepts `ts` each
    task taken has the highest priority among those queued, as promised, if and only if no two
    tasks can be queued together or no submission has a higher priority than the one before it.
  */
  lemma TakesByPriorityExactly(capacity: nat, ts: seq<Task>)
    ensures (forall steps :: Accepts(capacity, ts, steps) ==> TakesByPriority(Initial(capacity), steps))
       <==> capacity <= 1 || NeverRises(ts)
  {
    hide Run, Legal, TakesByPriority;
    if capacity <= 1 || NeverRises(ts) {
      InitialInv(capacity);
      forall steps | Accepts(capacity, ts, steps) ensures TakesByPriority(Initial(capacity), steps) {
        SortedTakes(Initial(capacity), steps, ts);
      }
    } else {
      var i :| 0 < i < |ts| && ts[i].priority > ts[i - 1].priority;
      var steps := RiseIsIgnored(capacity, ts, i - 1);
      assert Accepts(capacity, ts, steps);
    }
  }

  /** A task of high priority is still queued when one of low priority is taken. */
  lemma QueueIgnoresPriority(low: Task, high: Task)
    requires low.priority < high.priority
    ensures var s, steps := Initial(2), [Start, Enqueue(0, low, false), Enqueue(1, high, false), Take];
      Legal(s, steps) && Run(s, steps).taken == [low] && Run(s, steps).taskQueue == [high]
  {
    var s := Initial(2);
    var a, b := Enqueue(0, low, false), Enqueue(1, high, false);
    var s0 := Apply(s, Start);
    var s1 := Apply(s0, a);
    var s2 := Apply(s1, b);
    RunOne(s2, Take);
    RunCons(s1, b, [Take]);
    RunCons(s0, a, [b] + [Take]);
    RunCons(s, Start, [a] + ([b] + [Take]));
    assert [Start] + ([a] + ([b] + [Take])) == [Start, a, b, Take];
  }
}
