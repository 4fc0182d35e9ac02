/**
  Which results reach the manager: when a result is dropped, in which order results are
  received, and when everything submitted can still be completed.
*/
module Deliveries {
  import opened Wrappers
  import opened Protocol

  // ---------- drops ----------

  /** The step sends a result to a full queue at which nobody waits. */
  predicate Overflows(s: State, step: Step) {
    step.Finish? && !step.direct && |s.resultQueue| >= s.capacity
  }

  function ResultOf(s: State, step: Step): Result
    requires step.Finish? && Enabled(s, step)
  {
    Result(s.executing[step.i], step.failed, step.duration)
  }

  /** The results that the run sends to a full queue. */
  function Lost(s: State, steps: seq<Step>): (rs: seq<Result>)
    requires Legal(s, steps)
    ensures |rs| <= |steps|
    decreases |steps|
  {
    if steps == [] then []
    else (if Overflows(s, steps[0]) then [ResultOf(s, steps[0])] else []) + Lost(Apply(s, steps[0]), steps[1..])
  }

  /** The results that the run sends to a queue with room or to a waiting processor. */
  function Kept(s: State, steps: seq<Step>): (rs: seq<Result>)
    requires Legal(s, steps)
    ensures |rs| <= |steps|
    decreases |steps|
  {
    if steps == [] then []
    else
      (if steps[0].Finish? && !Overflows(s, steps[0]) then [ResultOf(s, steps[0])] else [])
      + Kept(Apply(s, steps[0]), steps[1..])
  }

  /** In every run exactly the results sent to a full queue are dropped. */
  lemma {:induction false} DropsExactly(s: State, steps: seq<Step>)
    requires Legal(s, steps)
    ensures Run(s, steps).dropped == s.dropped + Lost(s, steps)
    decreases |steps|
  {
    if steps != [] {
      var s' := Apply(s, steps[0]);
      DropsExactly(s', steps[1..]);
      assert s'.dropped == s.dropped + (if Overflows(s, steps[0]) then [ResultOf(s, steps[0])] else []);
    }
  }

  lemma StepDelivers(s: State, step: Step)
    requires Enabled(s, step) && !step.Handle?
    ensures Apply(s, step).inHand + Apply(s, step).resultQueue
         == s.inHand + s.resultQueue + if step.Finish? && !Overflows(s, step) then [ResultOf(s, step)] else []
  {
    if step.Receive? {
      assert s.resultQueue == [s.resultQueue[0]] + s.resultQueue[1..];
    }
  }

  /** Results are received in the order in which they were sent. */
  lemma {:induction false} ReceivedInOrder(s: State, steps: seq<Step>)
    requires Legal(s, steps) && forall x :: x in steps ==> !x.Handle?
    ensures Run(s, steps).inHand + Run(s, steps).resultQueue == s.inHand + s.resultQueue + Kept(s, steps)
    decreases |steps|
  {
    hide Apply, Enabled, Overflows, ResultOf;
    if steps != [] {
      assert steps[0] in steps;
      StepDelivers(s, steps[0]);
      ReceivedInOrder(Apply(s, steps[0]), steps[1..]);
    }
  }

  lemma StepDrops(s: State, step: Step)
    requires Enabled(s, step) && !step.Receive? && (step.Finish? ==> !step.direct)
    ensures var r, n := Apply(s, step), WorkOfStep(step).finished;
      && r.capacity == s.capacity && n <= 1
      && |r.resultQueue| == |s.resultQueue| + (if |s.resultQueue| < s.capacity then n else 0)
      && |r.dropped| == |s.dropped| + (if |s.resultQueue| < s.capacity then 0 else n)
  {
  }

  /** While nobody receives, the queue takes results up to its capacity and drops the rest. */
  lemma {:induction false} DropsBeyondCapacity(s: State, steps: seq<Step>)
    requires Legal(s, steps) && |s.resultQueue| <= s.capacity
    requires forall x :: x in steps ==> !x.Receive? && (x.Finish? ==> !x.direct)
    ensures var n := |s.resultQueue| + WorkDone(steps).finished;
      && |Run(s, steps).resultQueue| == Min(n, s.capacity)
      && |Run(s, steps).dropped| - |s.dropped| == Max(0, n - s.capacity)
    decreases |steps|
  {
    hide Apply, Enabled, WorkOfStep;
    if steps != [] {
      assert steps[0] in steps;
      StepDrops(s, steps[0]);
      DropsBeyondCapacity(Apply(s, steps[0]), steps[1..]);
    }
  }

  // ---------- completion ----------

  predicate Onward(steps: seq<Step>) {
    forall x :: x in steps ==> !x.Enqueue? && !x.Start?
  }

  /** A run that takes, finishes, receives and handles everything there is. */
  lemma {:induction false} Completes(s: State) returns (steps: seq<Step>)
    requires s.dropped == []
    requires Working(s) || (s.taskQueue == [] && s.executing == [])
    ensures Legal(s, steps) && Onward(steps) && AllHandled(Run(s, steps))
    decreases 4 * |s.taskQueue| + 3 * |s.executing| + 2 * |s.resultQueue| + |s.inHand|
  {
    if AllHandled(s) {
      steps := [];
    } else {
      var step :=
        if s.inHand != [] then Handle(0)
        else if s.resultQueue != [] then Receive
        else if s.executing != [] then Finish(0, false, 0, true)
        else Take;
      var rest := Completes(Apply(s, step));
      RunCons(s, step, rest);
      steps := [step] + rest;
    }
  }

  lemma {:induction false} IdleKeepsQueue(s: State, steps: seq<Step>)
    requires !Working(s) && Legal(s, steps) && Onward(steps)
    ensures Run(s, steps).taskQueue == s.taskQueue
    decreases |steps|
  {
    if steps != [] {
      assert steps[0] in steps;
      IdleKeepsQueue(Apply(s, steps[0]), steps[1..]);
    }
  }

  /**
    From every reachable state everything submitted can still be completed, without a further
    submission or a restart, exactly if no result was dropped and the queue is empty or there
    are workers to take from it. No interleaving gets stuck in any other way.
  */
  lemma CompletableExactly(s: State)
    requires Inv(s)
    ensures (exists steps :: Legal(s, steps) && Onward(steps) && AllHandled(Run(s, steps)))
       <==> s.dropped == [] && (Working(s) || s.taskQueue == [])
  {
    hide Run, Legal, Places, CountersMatch;
    if s.dropped == [] && (Working(s) || s.taskQueue == []) {
      var steps := Completes(s);
    } else {
      forall steps | Legal(s, steps) && Onward(steps) ensures !AllHandled(Run(s, steps)) {
        DroppedStayDropped(s, steps);
        if !Working(s) {
          IdleKeepsQueue(s, steps);
        }
      }
    }
  }
}
