/**
  SimpleWorker's processing loop and Stop (pkg/worker/worker.go) as a step machine: each
  Start launches one goroutine that selects between cancellation and the task channel, and
  Stop cancels and waits for the wait group. A select with several ready cases may take
  any of them.
*/
module WorkerLoops {

  type TaskId = nat

  datatype Position = Selecting | Executing(task: TaskId) | Exited

  datatype State = State(
    loops: seq<Position>,       // one per Start
    running: int,               // the wait group's counter
    tasks: seq<TaskId>, closed: bool,
    results: seq<TaskId>, capacity: nat,
    contextDone: set<nat>,      // loops whose Start context is done
    canceled: bool,             // the worker's own context
    returned: bool,             // Stop has returned
    taken: seq<TaskId>, sent: seq<TaskId>, dropped: seq<TaskId>)

  /** `direct` is a send that meets a waiting receiver; a channel of capacity zero has no other. */
  datatype Step =
    | Start
    | Arrive(task: TaskId) | Close | EndContext(i: nat) | Consume
    | Take(i: nat) | Finish(i: nat, direct: bool) | Leave(i: nat)
    | Cancel | Return

  predicate At(s: State, i: nat, p: Position) {
    i < |s.loops| && s.loops[i] == p
  }

  predicate Enabled(s: State, step: Step) {
    match step
    case Start => true
    case Arrive(_) => !s.closed
    case Close => !s.closed
    case EndContext(i) => i < |s.loops|
    case Consume => s.results != []
    case Take(i) => At(s, i, Selecting) && s.tasks != []
    case Finish(i, direct) => i < |s.loops| && s.loops[i].Executing? && (direct ==> s.results == [])
    case Leave(i) => At(s, i, Selecting) && (s.canceled || i in s.contextDone || (s.closed && s.tasks == []))
    case Cancel => true
    case Return => s.canceled && !s.returned && s.running == 0
  }

  function Apply(s: State, step: Step): State
    requires Enabled(s, step)
  {
    match step
    case Start => s.(loops := s.loops + [Selecting], running := s.running + 1)
    case Arrive(t) => s.(tasks := s.tasks + [t])
    case Close => s.(closed := true)
    case EndContext(i) => s.(contextDone := s.contextDone + {i})
    case Consume => s.(results := s.results[1..])
    case Take(i) => s.(tasks := s.tasks[1..], taken := s.taken + [s.tasks[0]], loops := s.loops[i := Executing(s.tasks[0])])
    case Finish(i, direct) =>
      var t := s.loops[i].task;
      var s' := s.(loops := s.loops[i := Selecting]);
      if direct then s'.(sent := s.sent + [t])
      else if |s.results| < s.capacity then s'.(results := s.results + [t], sent := s.sent + [t])
      else s'.(dropped := s.dropped + [t])
    case Leave(i) => s.(loops := s.loops[i := Exited], running := s.running - 1)
    case Cancel => s.(canceled := true)
    case Return => s.(returned := true)
  }

  predicate Legal(s: State, steps: seq<Step>)
    decreases |steps|
  {
    steps == [] || (Enabled(s, steps[0]) && Legal(Apply(s, steps[0]), steps[1..]))
  }

  function Run(s: State, steps: seq<Step>): State
    requires Legal(s, steps)
    decreases |steps|
  {
    if steps == [] then s else Run(Apply(s, steps[0]), steps[1..])
  }

  function Initial(capacity: nat): State {
    State([], 0, [], false, [], capacity, {}, false, false, [], [], [])
  }

  function Weight(p: Position): nat {
    if p.Exited? then 0 else 1
  }

  function Held(p: Position): multiset<TaskId> {
    if p.Executing? then multiset{p.task} else multiset{}
  }

  function Active(loops: seq<Position>): nat {
    if loops == [] then 0 else Weight(loops[0]) + Active(loops[1..])
  }

  /** The tasks being executed. */
  function InHand(loops: seq<Position>): multiset<TaskId> {
    if loops == [] then multiset{} else Held(loops[0]) + InHand(loops[1..])
  }

  lemma Regroup(h: multiset<TaskId>, a: multiset<TaskId>, b: multiset<TaskId>, c: multiset<TaskId>, d: multiset<TaskId>)
    requires a + b == c + d
    ensures (h + a) + b == (h + c) + d
  {
    assert (h + a) + b == h + (a + b);
    assert (h + c) + d == h + (c + d);
  }

  lemma {:induction false} LoopMoves(loops: seq<Position>, i: nat, p: Position)
    requires i < |loops|
    ensures Active(loops[i := p]) == Active(loops) - Weight(loops[i]) + Weight(p)
    ensures InHand(loops[i := p]) + Held(loops[i]) == InHand(loops) + Held(p)
    decreases |loops|
  {
    hide Held, Weight;
    if i > 0 {
      assert loops[i := p][1..] == loops[1..][i - 1 := p];
      LoopMoves(loops[1..], i - 1, p);
      Regroup(Held(loops[0]), InHand(loops[1..][i - 1 := p]), Held(loops[i]), InHand(loops[1..]), Held(p));
    } else {
      assert loops[i := p][1..] == loops[1..];
    }
  }

  lemma {:induction false} LoopStarts(loops: seq<Position>)
    ensures Active(loops + [Selecting]) == Active(loops) + 1
    ensures InHand(loops + [Selecting]) == InHand(loops)
    decreases |loops|
  {
    if loops != [] {
      assert (loops + [Selecting])[1..] == loops[1..] + [Selecting];
      LoopStarts(loops[1..]);
    } else {
      assert [Selecting][1..] == [];
      assert loops + [Selecting] == [Selecting];
    }
  }

  lemma {:induction false} NoneActive(loops: seq<Position>)
    requires Active(loops) == 0
    ensures InHand(loops) == multiset{}
    ensures forall i :: 0 <= i < |loops| ==> loops[i].Exited?
    decreases |loops|
  {
    if loops != [] {
      NoneActive(loops[1..]);
      assert forall i :: 0 < i < |loops| ==> loops[i] == loops[1..][i - 1];
    }
  }

  /** The wait group counts the loops that have not exited; no taken task is lost. */
  ghost predicate Inv(s: State) {
    && s.running == Active(s.loops)
    && multiset(s.taken) == multiset(s.sent) + multiset(s.dropped) + InHand(s.loops)
    && |s.results| <= s.capacity
  }

  lemma TakeKeepsInv(s: State, i: nat)
    requires Inv(s) && Enabled(s, Take(i))
    ensures Inv(Apply(s, Take(i)))
  {
    hide InHand, Active;
    var t := s.tasks[0];
    LoopMoves(s.loops, i, Executing(t));
    var inHand := InHand(s.loops[i := Executing(t)]);
    assert inHand == InHand(s.loops) + multiset{t} by { assert inHand + multiset{} == inHand; }
    assert multiset(s.taken + [t]) == multiset(s.taken) + multiset{t};
  }

  lemma FinishKeepsInv(s: State, i: nat, direct: bool)
    requires Inv(s) && Enabled(s, Finish(i, direct))
    ensures Inv(Apply(s, Finish(i, direct)))
  {
    hide InHand, Active;
    var t := s.loops[i].task;
    LoopMoves(s.loops, i, Selecting);
    var inHand := InHand(s.loops[i := Selecting]);
    assert InHand(s.loops) == inHand + multiset{t} by { assert InHand(s.loops) + multiset{} == InHand(s.loops); }
    assert multiset(s.sent + [t]) == multiset(s.sent) + multiset{t};
    assert multiset(s.dropped + [t]) == multiset(s.dropped) + multiset{t};
  }

  lemma StepKeepsInv(s: State, step: Step)
    requires Inv(s) && Enabled(s, step)
    ensures Inv(Apply(s, step))
  {
    hide InHand, Active;
    match step
    case Start => LoopStarts(s.loops);
    case Take(i) => TakeKeepsInv(s, i);
    case Finish(i, direct) => FinishKeepsInv(s, i, direct);
    case Leave(i) =>
      LoopMoves(s.loops, i, Exited);
      assert InHand(s.loops[i := Exited]) == InHand(s.loops[i := Exited]) + Held(Selecting) == InHand(s.loops) + Held(Exited) == InHand(s.loops);
    case _ =>
  }

  lemma {:induction false} RunKeepsInv(s: State, steps: seq<Step>)
    requires Inv(s) && Legal(s, steps)
    ensures Inv(Run(s, steps))
    decreases |steps|
  {
    hide Inv, Enabled, Apply;
    if steps != [] {
      StepKeepsInv(s, steps[0]);
      RunKeepsInv(Apply(s, steps[0]), steps[1..]);
    }
  }

  // ---------- what Stop guarantees ----------

  predicate NoStart(steps: seq<Step>) {
    forall i :: 0 <= i < |steps| ==> !steps[i].Start?
  }

  predicate AllExited(s: State) {
    forall i :: 0 <= i < |s.loops| ==> s.loops[i].Exited?
  }

  lemma {:induction false} ExitedStaysQuiet(s: State, steps: seq<Step>)
    requires AllExited(s) && Legal(s, steps) && NoStart(steps)
    ensures var e := Run(s, steps);
      AllExited(e) && e.taken == s.taken && e.sent == s.sent && e.dropped == s.dropped
    decreases |steps|
  {
    if steps != [] {
      assert !steps[0].Start?;
      assert NoStart(steps[1..]) by {
        forall i | 0 <= i < |steps[1..]| ensures !steps[1..][i].Start? {
          assert steps[1..][i] == steps[i + 1];
        }
      }
      ExitedStaysQuiet(Apply(s, steps[0]), steps[1..]);
    }
  }

  /**
    Once Stop has returned, and as long as Start is not called again: nothing is executing,
    no further task is taken, and every task ever taken has had its result sent or dropped.
  */
  lemma StopQuiesces(capacity: nat, before: seq<Step>, after: seq<Step>)
    requires Legal(Initial(capacity), before) && Enabled(Run(Initial(capacity), before), Return)
    requires Legal(Apply(Run(Initial(capacity), before), Return), after) && NoStart(after)
    ensures var stopped := Run(Initial(capacity), before);
      var e := Run(Apply(stopped, Return), after);
      && AllExited(e)
      && e.taken == stopped.taken
      && multiset(e.taken) == multiset(e.sent) + multiset(e.dropped)
  {
    RunKeepsInv(Initial(capacity), before);
    var stopped := Run(Initial(capacity), before);
    NoneActive(stopped.loops);
    ExitedStaysQuiet(Apply(stopped, Return), after);
  }

  /** Between its cancellation and its return, Stop does not keep a loop from taking a task. */
  lemma TaskTakenAfterCancel(t: TaskId)
    ensures var s := Initial(1);
      var steps := [Start, Arrive(t), Cancel, Take(0), Finish(0, false), Leave(0), Return];
      Legal(s, steps) && Run(s, steps).returned && Run(s, steps).sent == [t]
  {
    var s0 := Initial(1);
    var s1 := Apply(s0, Start);
    var s2 := Apply(s1, Arrive(t));
    var s3 := Apply(s2, Cancel);
    var s4 := Apply(s3, Take(0));
    var s5 := Apply(s4, Finish(0, false));
    var s6 := Apply(s5, Leave(0));
    var s7 := Apply(s6, Return);
    Chain(s6, Return, []);
    Chain(s5, Leave(0), [Return]);
    Chain(s4, Finish(0, false), [Leave(0), Return]);
    Chain(s3, Take(0), [Finish(0, false), Leave(0), Return]);
    Chain(s2, Cancel, [Take(0), Finish(0, false), Leave(0), Return]);
    Chain(s1, Arrive(t), [Cancel, Take(0), Finish(0, false), Leave(0), Return]);
    Chain(s0, Start, [Arrive(t), Cancel, Take(0), Finish(0, false), Leave(0), Return]);
  }

  lemma Chain(s: State, step: Step, rest: seq<Step>)
    requires Enabled(s, step) && Legal(Apply(s, step), rest)
    ensures Legal(s, [step] + rest) && Run(s, [step] + rest) == Run(Apply(s, step), rest)
  {
    assert ([step] + rest)[1..] == rest;
  }

  /** A Start after Stop takes tasks again, although the worker stays cancelled. */
  lemma RestartTakesTask(t: TaskId)
    ensures var s := Initial(1);
      var steps := [Start, Cancel, Leave(0), Return, Arrive(t), Start, Take(1)];
      Legal(s, steps) && Run(s, steps).returned && Run(s, steps).canceled && Run(s, steps).taken == [t]
  {
    var s0 := Initial(1);
    var s1 := Apply(s0, Start);
    var s2 := Apply(s1, Cancel);
    var s3 := Apply(s2, Leave(0));
    var s4 := Apply(s3, Return);
    var s5 := Apply(s4, Arrive(t));
    var s6 := Apply(s5, Start);
    var s7 := Apply(s6, Take(1));
    Chain(s6, Take(1), []);
    Chain(s5, Start, [Take(1)]);
    Chain(s4, Arrive(t), [Start, Take(1)]);
    Chain(s3, Return, [Arrive(t), Start, Take(1)]);
    Chain(s2, Leave(0), [Return, Arrive(t), Start, Take(1)]);
    Chain(s1, Cancel, [Leave(0), Return, Arrive(t), Start, Take(1)]);
    Chain(s0, Start, [Cancel, Leave(0), Return, Arrive(t), Start, Take(1)]);
  }

  // ---------- tasks and results of the loops ----------

  function Arrivals(steps: seq<Step>): (ts: seq<TaskId>)
    ensures |ts| <= |steps|
  {
    if steps == [] then []
    else (if steps[0].Arrive? then [steps[0].task] else []) + Arrivals(steps[1..])
  }

  lemma StepTakesInOrder(s: State, step: Step)
    requires Enabled(s, step)
    ensures Apply(s, step).taken + Apply(s, step).tasks == s.taken + s.tasks + if step.Arrive? then [step.task] else []
  {
    if step.Take? {
      assert s.tasks == [s.tasks[0]] + s.tasks[1..];
    }
  }

  /** The loops take the tasks in the order in which they arrive, whichever loop takes which. */
  lemma {:induction false} TakenInOrder(s: State, steps: seq<Step>)
    requires Legal(s, steps)
    ensures Run(s, steps).taken + Run(s, steps).tasks == s.taken + s.tasks + Arrivals(steps)
    decreases |steps|
  {
    hide Enabled, Apply;
    if steps != [] {
      StepTakesInOrder(s, steps[0]);
      TakenInOrder(Apply(s, steps[0]), steps[1..]);
    }
  }

  /** The tasks whose result the run sends to a full channel at which nobody waits. */
  function Lost(s: State, steps: seq<Step>): (ts: seq<TaskId>)
    requires Legal(s, steps)
    ensures |ts| <= |steps|
    decreases |steps|
  {
    if steps == [] then []
    else
      (match steps[0]
       case Finish(i, direct) => if !direct && |s.results| >= s.capacity then [s.loops[i].task] else []
       case _ => [])
      + Lost(Apply(s, steps[0]), steps[1..])
  }

  /** In every run exactly these results are dropped. */
  lemma {:induction false} DropsExactly(s: State, steps: seq<Step>)
    requires Legal(s, steps)
    ensures Run(s, steps).dropped == s.dropped + Lost(s, steps)
    decreases |steps|
  {
    if steps != [] {
      DropsExactly(Apply(s, steps[0]), steps[1..]);
    }
  }

  // ---------- the way to Stop's return ----------

  /** No loop is started and no task taken. */
  predicate WindsDown(steps: seq<Step>) {
    forall x :: x in steps ==> x.Finish? || x.Leave?
  }

  /** Every loop of a cancelled worker can finish what it executes and leave. */
  lemma {:induction false} LoopsLeave(s: State, from: nat) returns (steps: seq<Step>)
    requires s.canceled && from <= |s.loops| && forall i :: 0 <= i < from ==> s.loops[i].Exited?
    ensures Legal(s, steps) && WindsDown(steps)
    ensures AllExited(Run(s, steps)) && Run(s, steps).canceled && Run(s, steps).returned == s.returned
    decreases |s.loops| - from, if from < |s.loops| && s.loops[from].Executing? then 1 else 0
  {
    if from == |s.loops| {
      steps := [];
    } else if s.loops[from].Exited? {
      steps := LoopsLeave(s, from + 1);
    } else if s.loops[from].Executing? {
      var rest := LoopsLeave(Apply(s, Finish(from, false)), from);
      Chain(s, Finish(from, false), rest);
      steps := [Finish(from, false)] + rest;
    } else {
      var rest := LoopsLeave(Apply(s, Leave(from)), from + 1);
      Chain(s, Leave(from), rest);
      steps := [Leave(from)] + rest;
    }
  }

  lemma {:induction false} NoneRunning(loops: seq<Position>)
    requires forall i :: 0 <= i < |loops| ==> loops[i].Exited?
    ensures Active(loops) == 0
    decreases |loops|
  {
    if loops != [] {
      NoneRunning(loops[1..]);
    }
  }

  /**
    A Stop that has cancelled is never stuck: from every reachable state the loops can finish what
    they execute and leave, without taking a task, and then it returns.
  */
  lemma StopCanReturn(s: State) returns (steps: seq<Step>)
    requires Inv(s) && s.canceled && !s.returned
    ensures Legal(s, steps) && WindsDown(steps) && Enabled(Run(s, steps), Return)
  {
    steps := LoopsLeave(s, 0);
    RunKeepsInv(s, steps);
    NoneRunning(Run(s, steps).loops);
  }

  // ---------- results and endings ----------

  /** The task whose result the step puts into the channel. */
  function QueuedBy(s: State, step: Step): seq<TaskId>
    requires Enabled(s, step)
  {
    match step
    case Finish(i, direct) => if !direct && |s.results| < s.capacity then [s.loops[i].task] else []
    case _ => []
  }

  /** The task whose result the step takes out of the channel. */
  function ConsumedBy(s: State, step: Step): seq<TaskId>
    requires Enabled(s, step)
  {
    if step.Consume? then [s.results[0]] else []
  }

  function Queued(s: State, steps: seq<Step>): seq<TaskId>
    requires Legal(s, steps)
    decreases |steps|
  {
    if steps == [] then [] else QueuedBy(s, steps[0]) + Queued(Apply(s, steps[0]), steps[1..])
  }

  function Consumed(s: State, steps: seq<Step>): seq<TaskId>
    requires Legal(s, steps)
    decreases |steps|
  {
    if steps == [] then [] else ConsumedBy(s, steps[0]) + Consumed(Apply(s, steps[0]), steps[1..])
  }

  lemma StepResults(s: State, step: Step)
    requires Enabled(s, step)
    ensures ConsumedBy(s, step) + Apply(s, step).results == s.results + QueuedBy(s, step)
  {
    if step.Consume? {
      assert s.results == [s.results[0]] + s.results[1..];
    }
  }

  lemma Interchange<T>(a: seq<T>, b: seq<T>, c: seq<T>, d: seq<T>, e: seq<T>, f: seq<T>, g: seq<T>)
    requires a + b == c + d && e + f == b + g
    ensures (a + e) + f == c + (d + g)
  {
    assert (a + e) + f == a + (e + f) == (a + b) + g == c + (d + g);
  }

  /** Results leave the channel one by one, in the order in which they entered it. */
  lemma {:induction false} ResultsInOrder(s: State, steps: seq<Step>)
    requires Legal(s, steps)
    ensures Consumed(s, steps) + Run(s, steps).results == s.results + Queued(s, steps)
    decreases |steps|
  {
    hide Enabled, Apply, QueuedBy, ConsumedBy;
    if steps != [] {
      var s' := Apply(s, steps[0]);
      StepResults(s, steps[0]);
      ResultsInOrder(s', steps[1..]);
      Interchange(ConsumedBy(s, steps[0]), s'.results, s.results, QueuedBy(s, steps[0]),
                  Consumed(s', steps[1..]), Run(s, steps).results, Queued(s', steps[1..]));
    }
  }

  /** Steps of loop i alone. */
  predicate OfLoop(i: nat, steps: seq<Step>) {
    forall x :: x in steps ==> x == Take(i) || x == Leave(i) || (x.Finish? && x.i == i)
  }

  /** What ends a loop: the worker's context, its own, or a closed task channel. */
  predicate Ending(s: State, i: nat) {
    s.canceled || i in s.contextDone || s.closed
  }

  lemma {:induction false} LoopEnds(s: State, i: nat) returns (steps: seq<Step>)
    requires i < |s.loops| && !s.loops[i].Exited? && Ending(s, i)
    ensures Legal(s, steps) && OfLoop(i, steps)
    ensures i < |Run(s, steps).loops| && Run(s, steps).loops[i].Exited?
    decreases |s.tasks|, if s.loops[i].Executing? then 1 else 0
  {
    if s.loops[i].Executing? {
      var rest := LoopEnds(Apply(s, Finish(i, false)), i);
      Chain(s, Finish(i, false), rest);
      steps := [Finish(i, false)] + rest;
    } else if Enabled(s, Leave(i)) {
      Chain(s, Leave(i), []);
      steps := [Leave(i)] + [];
    } else {
      var rest := LoopEnds(Apply(s, Take(i)), i);
      Chain(s, Take(i), rest);
      steps := [Take(i)] + rest;
    }
  }

  lemma LoopStays(s: State, i: nat, step: Step)
    requires i < |s.loops| && !s.loops[i].Exited? && !Ending(s, i)
    requires Enabled(s, step) && OfLoop(i, [step])
    ensures var r := Apply(s, step);
      i < |r.loops| && !r.loops[i].Exited? && !Ending(r, i)
  {
    assert step in [step];
  }

  lemma {:induction false} LoopGoesOn(s: State, i: nat, steps: seq<Step>)
    requires i < |s.loops| && !s.loops[i].Exited? && !Ending(s, i)
    requires Legal(s, steps) && OfLoop(i, steps)
    ensures i < |Run(s, steps).loops| && !Run(s, steps).loops[i].Exited?
    decreases |steps|
  {
    if steps != [] {
      assert steps[0] in steps && forall x :: x in steps[1..] ==> x in steps;
      LoopStays(s, i, steps[0]);
      LoopGoesOn(Apply(s, steps[0]), i, steps[1..]);
    }
  }

  /**
    A live loop can end by its own steps exactly if the worker is stopped, the context of its Start
    is done, or the task channel is closed; in the last case it first takes the tasks left in it.
  */
  lemma LoopEndsExactly(s: State, i: nat)
    requires i < |s.loops| && !s.loops[i].Exited?
    ensures (exists steps :: OfLoop(i, steps) && Legal(s, steps) && At(Run(s, steps), i, Exited)) <==> Ending(s, i)
  {
    if Ending(s, i) {
      var steps := LoopEnds(s, i);
      assert OfLoop(i, steps) && Legal(s, steps) && At(Run(s, steps), i, Exited);
    } else {
      forall steps | OfLoop(i, steps) && Legal(s, steps) ensures !At(Run(s, steps), i, Exited) {
        LoopGoesOn(s, i, steps);
      }
    }
  }
}
