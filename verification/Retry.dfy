/**
  The two retry loops of the library: the worker's (pkg/worker/worker.go) and the retry
  middleware's (pkg/middleware/middleware.go).

  A handler is modelled by the stream of outcomes it draws on: called at position `pos`
  it answers with an outcome and the position after the raw executions it used up, so
  `next - pos` counts raw executions. Cancellation is an oracle, asked at every point
  where the source selects on the context.
*/
module Retry {
  import opened Wrappers

  datatype Error =
    | Raised(code: int)
    | Invalid(code: int)
    | Canceled
    | TaskError(attempts: int, cause: Option<Error>)

  datatype Attempt = Ok(output: int) | Err(error: Error)

  datatype Step = Step(result: Attempt, next: nat)

  type Handler = nat -> Step

  type Oracle = nat -> bool

  /** The handler that runs the task itself: one raw execution per call. */
  function Raw(outcomes: nat -> Attempt): Handler {
    (pos: nat) => Step(outcomes(pos), pos + 1)
  }

  /** Number of tries that a retry budget allows; a negative budget allows none. */
  function TriesOf(budget: int): nat {
    if budget < 0 then 0 else budget + 1
  }

  // ---------- the middleware's loop ----------

  /** RetryMiddleware from attempt `a` on: `check` is the select after a failure, `wait` the one during backoff. */
  function RetryFrom(budget: int, a: nat, next: Handler, pos: nat, check: Oracle, wait: Oracle): Step
    requires a <= budget
    decreases budget - a
  {
    var s := next(pos);
    if s.result.Ok? then s
    else if check(a) then Step(Err(Canceled), s.next)
    else if a < budget then
      if wait(a) then Step(Err(Canceled), s.next)
      else RetryFrom(budget, a + 1, next, s.next, check, wait)
    else Step(Err(TaskError(budget + 1, Some(s.result.error))), s.next)
  }

  function RetryCall(budget: int, next: Handler, pos: nat, check: Oracle, wait: Oracle): Step {
    if budget < 0 then Step(Err(TaskError(budget + 1, None)), pos)
    else RetryFrom(budget, 0, next, pos, check, wait)
  }

  const NEVER: Oracle := (a: nat) => false

  /** RetryMiddleware applied to a handler, with a context that is never cancelled. */
  function Retrying(budget: int): Handler -> Handler {
    (next: Handler) => (pos: nat) => RetryCall(budget, next, pos, NEVER, NEVER)
  }

  // ---------- the worker's loop ----------

  datatype Ending =
    | NotRun                      // the loop body was never entered: budget < 0
    | Succeeded(output: int)
    | Exhausted(error: Error)
    | Stopped                     // the context was cancelled

  /** How executeWithRetries ended, the attempt number it recorded, and what it used. */
  datatype Report = Report(ending: Ending, attempt: nat, calls: nat, next: nat)

  /** executeWithRetries from attempt `a` on: `before` is the select at the loop head, `wait` the one in waitForRetry. */
  function WorkFrom(budget: int, a: nat, execute: Handler, pos: nat, before: Oracle, wait: Oracle): Report
    requires a <= budget
    decreases budget - a
  {
    if before(a) then Report(Stopped, a + 1, 0, pos)
    else
      var s := execute(pos);
      if s.result.Ok? then Report(Succeeded(s.result.output), a + 1, 1, s.next)
      else if a >= budget then Report(Exhausted(TaskError(a + 1, Some(s.result.error))), a + 1, 1, s.next)
      else if wait(a) then Report(Stopped, a + 1, 1, s.next)
      else
        var r := WorkFrom(budget, a + 1, execute, s.next, before, wait);
        r.(calls := r.calls + 1)
  }

  lemma WorkUnfold(budget: int, a: nat, execute: Handler, pos: nat, before: Oracle, wait: Oracle)
    requires a <= budget
    ensures var s := execute(pos);
      WorkFrom(budget, a, execute, pos, before, wait)
        == if before(a) then Report(Stopped, a + 1, 0, pos)
           else if s.result.Ok? then Report(Succeeded(s.result.output), a + 1, 1, s.next)
           else if a >= budget then Report(Exhausted(TaskError(a + 1, Some(s.result.error))), a + 1, 1, s.next)
           else if wait(a) then Report(Stopped, a + 1, 1, s.next)
           else Later(WorkFrom(budget, a + 1, execute, s.next, before, wait), 1)
  {
  }

  /** The report with `k` calls more. */
  function Later(r: Report, k: nat): Report {
    r.(calls := r.calls + k)
  }

  function Work(budget: int, execute: Handler, pos: nat, before: Oracle, wait: Oracle): Report {
    if budget < 0 then Report(NotRun, 0, 0, pos)
    else WorkFrom(budget, 0, execute, pos, before, wait)
  }

  // ---------- the reference: at most n tries ----------

  /** Call the handler until it succeeds, at most `n` times. `None`: all tries failed. */
  function AtMost(n: nat, next: Handler, pos: nat): (Option<int>, nat) {
    if n == 0 then (None, pos)
    else
      var s := next(pos);
      if s.result.Ok? then (Some(s.result.output), s.next) else AtMost(n - 1, next, s.next)
  }

  function Seen(s: Step): (Option<int>, nat) {
    (if s.result.Ok? then Some(s.result.output) else None, s.next)
  }

  /** Where the k-th further call starts when the calls before it all fail. */
  function StartOf(k: nat, next: Handler, pos: nat): nat {
    if k == 0 then pos else StartOf(k - 1, next, next(pos).next)
  }

  lemma {:induction false} AtMostSum(m: nat, n: nat, next: Handler, pos: nat)
    ensures AtMost(m + n, next, pos)
         == if AtMost(m, next, pos).0.Some? then AtMost(m, next, pos) else AtMost(n, next, AtMost(m, next, pos).1)
    decreases m
  {
    if m > 0 && next(pos).result.Err? {
      AtMostSum(m - 1, n, next, next(pos).next);
    }
  }

  /** At most m tries of "at most n tries" are at most m*n tries. */
  lemma {:induction false} AtMostProduct(m: nat, n: nat, outer: Handler, next: Handler, pos: nat)
    requires forall p :: Seen(outer(p)) == AtMost(n, next, p)
    ensures AtMost(m, outer, pos) == AtMost(m * n, next, pos)
    decreases m
  {
    if m > 0 {
      assert m * n == n + (m - 1) * n;
      AtMostSum(n, (m - 1) * n, next, pos);
      assert Seen(outer(pos)) == AtMost(n, next, pos);
      if outer(pos).result.Err? {
        AtMostProduct(m - 1, n, outer, next, outer(pos).next);
      }
    }
  }

  // ---------- both loops against the reference ----------

  lemma {:induction false} RetryFromIsAtMost(budget: int, a: nat, next: Handler, pos: nat)
    requires a <= budget
    ensures Seen(RetryFrom(budget, a, next, pos, NEVER, NEVER)) == AtMost(budget - a + 1, next, pos)
    decreases budget - a
  {
    if next(pos).result.Err? && a < budget {
      RetryFromIsAtMost(budget, a + 1, next, next(pos).next);
    }
  }

  /** Uncancelled, RetryMiddleware is "at most budget + 1 tries". */
  lemma RetryingIsAtMost(budget: int, next: Handler, pos: nat)
    ensures Seen(Retrying(budget)(next)(pos)) == AtMost(TriesOf(budget), next, pos)
  {
    if budget >= 0 {
      RetryFromIsAtMost(budget, 0, next, pos);
    }
  }

  function SeenReport(r: Report): (Option<int>, nat) {
    (if r.ending.Succeeded? then Some(r.ending.output) else None, r.next)
  }

  lemma {:induction false} WorkFromIsAtMost(budget: int, a: nat, execute: Handler, pos: nat)
    requires a <= budget
    ensures SeenReport(WorkFrom(budget, a, execute, pos, NEVER, NEVER)) == AtMost(budget - a + 1, execute, pos)
    decreases budget - a
  {
    if execute(pos).result.Err? && a < budget {
      WorkFromIsAtMost(budget, a + 1, execute, execute(pos).next);
    }
  }

  /** Uncancelled, the worker's loop is "at most budget + 1 tries". */
  lemma WorkIsAtMost(budget: int, execute: Handler, pos: nat)
    ensures SeenReport(Work(budget, execute, pos, NEVER, NEVER)) == AtMost(TriesOf(budget), execute, pos)
  {
    if budget >= 0 {
      WorkFromIsAtMost(budget, 0, execute, pos);
    }
  }

  // ---------- main results: nested retries multiply ----------

  /** RetryMiddleware around RetryMiddleware is one retry loop of the product of the tries, on any handler. */
  lemma NestedRetries(outer: int, inner: int, next: Handler, pos: nat)
    ensures Seen(Retrying(outer)(Retrying(inner)(next))(pos))
         == Seen(Retrying(TriesOf(outer) * TriesOf(inner) - 1)(next)(pos))
  {
    var h := Retrying(inner)(next);
    forall p ensures Seen(h(p)) == AtMost(TriesOf(inner), next, p) {
      RetryingIsAtMost(inner, next, p);
    }
    RetryingIsAtMost(outer, h, pos);
    AtMostProduct(TriesOf(outer), TriesOf(inner), h, next, pos);
    RetryingIsAtMost(TriesOf(outer) * TriesOf(inner) - 1, next, pos);
  }

  /** The worker's retries around RetryMiddleware are the worker's retries with the product of the tries. */
  lemma WorkerAroundMiddleware(outer: int, inner: int, next: Handler, pos: nat)
    ensures SeenReport(Work(outer, Retrying(inner)(next), pos, NEVER, NEVER))
         == SeenReport(Work(TriesOf(outer) * TriesOf(inner) - 1, next, pos, NEVER, NEVER))
  {
    var h := Retrying(inner)(next);
    forall p ensures Seen(h(p)) == AtMost(TriesOf(inner), next, p) {
      RetryingIsAtMost(inner, next, p);
    }
    WorkIsAtMost(outer, h, pos);
    AtMostProduct(TriesOf(outer), TriesOf(inner), h, next, pos);
    WorkIsAtMost(TriesOf(outer) * TriesOf(inner) - 1, next, pos);
  }

  /** On the task itself: success exactly when one of the n next outcomes is a success, and then the first one is taken. */
  lemma {:induction false} AtMostOnRaw(n: nat, outcomes: nat -> Attempt, pos: nat)
    ensures var r := AtMost(n, Raw(outcomes), pos);
      && (r.0.None? <==> forall k {:trigger outcomes(k)} :: pos <= k < pos + n ==> outcomes(k).Err?)
      && (r.0.None? ==> r.1 == pos + n)
      && (r.0.Some? ==> && pos < r.1 <= pos + n && outcomes(r.1 - 1) == Ok(r.0.value)
                        && forall k {:trigger outcomes(k)} :: pos <= k < r.1 - 1 ==> outcomes(k).Err?)
    decreases n
  {
    if n > 0 {
      assert Raw(outcomes)(pos) == Step(outcomes(pos), pos + 1);
      if outcomes(pos).Err? {
        AtMostOnRaw(n - 1, outcomes, pos + 1);
      }
    }
  }

  // ---------- cancellation and verdicts ----------

  /**
    Under any cancellation: the worker calls the task at most budget + 1 times, every call but
    the last failed, and the ending agrees with the last call.
  */
  lemma {:induction false} WorkVerdict(budget: int, a: nat, execute: Handler, pos: nat, before: Oracle, wait: Oracle)
    requires a <= budget
    ensures var r := WorkFrom(budget, a, execute, pos, before, wait);
      && r.calls <= budget - a + 1
      && r.next == StartOf(r.calls, execute, pos)
      && (forall k {:trigger StartOf(k, execute, pos)} :: 0 <= k < r.calls - 1 ==> execute(StartOf(k, execute, pos)).result.Err?)
      && (r.ending.Succeeded? <==> r.calls > 0 && execute(StartOf(r.calls - 1, execute, pos)).result.Ok?)
      && (r.ending.Succeeded? ==> execute(StartOf(r.calls - 1, execute, pos)).result == Ok(r.ending.output))
      && (r.ending.Exhausted? ==>
            && r.calls == budget - a + 1
            && execute(StartOf(r.calls - 1, execute, pos)).result.Err?
            && r.ending.error == TaskError(budget + 1, Some(execute(StartOf(r.calls - 1, execute, pos)).result.error)))
      && !r.ending.NotRun?
      && a < r.attempt <= budget + 1
      && (r.attempt == a + r.calls || (r.ending.Stopped? && r.attempt == a + r.calls + 1))
    decreases budget - a
  {
    var s := execute(pos);
    assert StartOf(0, execute, pos) == pos;
    assert StartOf(1, execute, pos) == s.next by { assert StartOf(0, execute, s.next) == s.next; }
    if !before(a) && s.result.Err? && a < budget && !wait(a) {
      WorkVerdict(budget, a + 1, execute, s.next, before, wait);
      var r := WorkFrom(budget, a + 1, execute, s.next, before, wait);
      assert StartOf(r.calls + 1, execute, pos) == StartOf(r.calls, execute, s.next);
      if r.calls > 0 {
        assert StartOf(r.calls, execute, pos) == StartOf(r.calls - 1, execute, s.next);
      }
      forall k | 0 <= k < r.calls ensures execute(StartOf(k, execute, pos)).result.Err? {
        if k > 0 {
          assert StartOf(k, execute, pos) == StartOf(k - 1, execute, s.next);
        }
      }
    }
  }

  /**
    Under any cancellation RetryMiddleware runs the handler at most budget + 1 times. It reports
    success exactly if the last call succeeded, and then that call's result. Its error names the
    number of tries and the last call's error, after all tries were made, or else the context was
    found cancelled after the last call.
  */
  lemma {:induction false} RetryVerdict(budget: int, a: nat, next: Handler, pos: nat, check: Oracle, wait: Oracle) returns (calls: nat)
    requires a <= budget
    ensures 0 < calls <= budget - a + 1
    ensures var s, last := RetryFrom(budget, a, next, pos, check, wait), next(StartOf(calls - 1, next, pos)).result;
      && s.next == StartOf(calls, next, pos)
      && (forall k {:trigger StartOf(k, next, pos)} :: 0 <= k < calls - 1 ==> next(StartOf(k, next, pos)).result.Err?)
      && (s.result.Ok? <==> last.Ok?)
      && (s.result.Ok? ==> s.result == last)
      && (last.Err? ==>
            if check(a + calls - 1) || (calls < budget - a + 1 && wait(a + calls - 1)) then s.result == Err(Canceled)
            else calls == budget - a + 1 && s.result == Err(TaskError(budget + 1, Some(last.error))))
    decreases budget - a
  {
    var s := next(pos);
    assert StartOf(0, next, pos) == pos;
    assert StartOf(1, next, pos) == s.next by { assert StartOf(0, next, s.next) == s.next; }
    if s.result.Err? && !check(a) && a < budget && !wait(a) {
      var more := RetryVerdict(budget, a + 1, next, s.next, check, wait);
      calls := more + 1;
      assert StartOf(calls, next, pos) == StartOf(more, next, s.next);
      assert StartOf(calls - 1, next, pos) == StartOf(more - 1, next, s.next);
      forall k | 0 <= k < calls - 1 ensures next(StartOf(k, next, pos)).result.Err? {
        if k > 0 {
          assert StartOf(k, next, pos) == StartOf(k - 1, next, s.next);
        }
      }
    } else {
      calls := 1;
    }
  }

  // ---------- when a loop is cancelled ----------

  /** The cancellation points in order: the select of attempt 0, its backoff, the select of attempt 1, ... */
  predicate Cancels(select: Oracle, wait: Oracle, p: nat) {
    if p % 2 == 0 then select(p / 2) else wait(p / 2)
  }

  /** Of the points from attempt `a` on that a budget allows, p is the first that answers true. */
  ghost predicate FirstCancel(budget: int, a: nat, select: Oracle, wait: Oracle, p: int) {
    && 2 * a <= p <= 2 * budget && Cancels(select, wait, p)
    && forall q :: 2 * a <= q < p ==> !Cancels(select, wait, q)
  }

  /** The next n calls of the handler fail. */
  ghost predicate AllFail(n: int, next: Handler, pos: nat) {
    forall k {:trigger StartOf(k, next, pos)} :: 0 <= k < n ==> next(StartOf(k, next, pos)).result.Err?
  }

  lemma AllFailStep(n: int, next: Handler, pos: nat)
    ensures n > 0 ==> (AllFail(n, next, pos) <==> next(pos).result.Err? && AllFail(n - 1, next, next(pos).next))
    ensures n <= 0 ==> AllFail(n, next, pos)
  {
    var pos' := next(pos).next;
    assert StartOf(0, next, pos) == pos;
    if n > 0 {
      forall k | 0 <= k < n - 1 ensures StartOf(k + 1, next, pos) == StartOf(k, next, pos') {
      }
      if AllFail(n, next, pos) {
        forall k | 0 <= k < n - 1 ensures next(StartOf(k, next, pos')).result.Err? {
          assert next(StartOf(k + 1, next, pos)).result.Err?;
        }
      }
      if next(pos).result.Err? && AllFail(n - 1, next, pos') {
        forall k | 0 <= k < n ensures next(StartOf(k, next, pos)).result.Err? {
          if k > 0 {
            assert StartOf(k, next, pos) == StartOf(k - 1, next, pos');
          }
        }
      }
    }
  }

  /** Past attempt `a`, if neither of its points answers true. */
  lemma FirstCancelStep(budget: int, a: nat, select: Oracle, wait: Oracle, p: int)
    requires !select(a) && (a < budget ==> !wait(a))
    ensures FirstCancel(budget, a, select, wait, p) <==> FirstCancel(budget, a + 1, select, wait, p)
  {
    assert !Cancels(select, wait, 2 * a);
    assert a < budget ==> !Cancels(select, wait, 2 * a + 1);
  }

  lemma FirstCancelNow(budget: int, a: nat, select: Oracle, wait: Oracle)
    requires a <= budget
    ensures select(a) ==> forall p :: FirstCancel(budget, a, select, wait, p) <==> p == 2 * a
    ensures !select(a) && wait(a) && a < budget ==> forall p :: FirstCancel(budget, a, select, wait, p) <==> p == 2 * a + 1
    ensures !select(a) ==> !FirstCancel(budget, a, select, wait, 2 * a)
  {
    assert Cancels(select, wait, 2 * a) == select(a) && Cancels(select, wait, 2 * a + 1) == wait(a);
  }

  /** The worker's loop is stopped at point p: every execution before it failed. */
  ghost predicate StopsAt(budget: int, a: nat, execute: Handler, pos: nat, before: Oracle, wait: Oracle, p: int) {
    FirstCancel(budget, a, before, wait, p) && AllFail((p + 1) / 2 - a, execute, pos)
  }

  lemma {:induction false} WorkFromStops(budget: int, a: nat, execute: Handler, pos: nat, before: Oracle, wait: Oracle, p: int)
    requires a <= budget
    ensures var r := WorkFrom(budget, a, execute, pos, before, wait);
      StopsAt(budget, a, execute, pos, before, wait, p) ==>
        && r.ending == Stopped && r.attempt == p / 2 + 1 && r.calls == (p + 1) / 2 - a
        && r.next == StartOf(r.calls, execute, pos)
    decreases budget - a
  {
    hide FirstCancel, AllFail;
    var s := execute(pos);
    assert StartOf(0, execute, pos) == pos && StartOf(0, execute, s.next) == s.next;
    WorkUnfold(budget, a, execute, pos, before, wait);
    FirstCancelNow(budget, a, before, wait);
    FirstCancelBounds(budget, a, before, wait, p);
    AllFailStep((p + 1) / 2 - a, execute, pos);
    if !before(a) && s.result.Err? && a < budget && !wait(a) {
      FirstCancelStep(budget, a, before, wait, p);
      FirstCancelBounds(budget, a + 1, before, wait, p);
      WorkFromStops(budget, a + 1, execute, s.next, before, wait, p);
    } else if !before(a) && s.result.Err? && a >= budget {
      assert p == 2 * a || !FirstCancel(budget, a, before, wait, p);
    }
  }

  lemma FirstCancelBounds(budget: int, a: nat, select: Oracle, wait: Oracle, p: int)
    ensures FirstCancel(budget, a, select, wait, p) ==> 2 * a <= p <= 2 * budget
  {
  }

  /** A loop that no point stops ends as if there were no cancellation. */
  lemma {:induction false} WorkFromGoesOn(budget: int, a: nat, execute: Handler, pos: nat, before: Oracle, wait: Oracle)
    requires a <= budget
    requires forall p :: !StopsAt(budget, a, execute, pos, before, wait, p)
    ensures WorkFrom(budget, a, execute, pos, before, wait) == WorkFrom(budget, a, execute, pos, NEVER, NEVER)
    decreases budget - a
  {
    hide FirstCancel, AllFail;
    var s := execute(pos);
    WorkUnfold(budget, a, execute, pos, before, wait);
    WorkUnfold(budget, a, execute, pos, NEVER, NEVER);
    FirstCancelNow(budget, a, before, wait);
    AllFailStep(0, execute, pos);
    AllFailStep(1, execute, pos);
    AllFailStep(0, execute, s.next);
    assert !StopsAt(budget, a, execute, pos, before, wait, 2 * a);
    assert !StopsAt(budget, a, execute, pos, before, wait, 2 * a + 1);
    if s.result.Err? && a < budget {
      var a', pos' := a + 1, s.next;
      forall p ensures !StopsAt(budget, a', execute, pos', before, wait, p) {
        FirstCancelStep(budget, a, before, wait, p);
        FirstCancelBounds(budget, a + 1, before, wait, p);
        AllFailStep((p + 1) / 2 - a, execute, pos);
        assert !StopsAt(budget, a, execute, pos, before, wait, p);
      }
      WorkFromGoesOn(budget, a + 1, execute, s.next, before, wait);
    }
  }

  /**
    The worker's loop is cancelled exactly if some cancellation point answers true before an
    execution succeeds or the tries run out. At the first such point, the select of attempt n or
    its backoff, it stops: attempt n is the one recorded, and executed only if the point is the
    backoff. If there is none, the loop ends as if there were no cancellation.
  */
  lemma WorkStopsExactly(budget: int, execute: Handler, pos: nat, before: Oracle, wait: Oracle)
    ensures var r := Work(budget, execute, pos, before, wait);
      && (r.ending == Stopped <==> exists p :: StopsAt(budget, 0, execute, pos, before, wait, p))
      && (forall p :: StopsAt(budget, 0, execute, pos, before, wait, p) ==>
            r.attempt == p / 2 + 1 && r.calls == (p + 1) / 2 && r.next == StartOf(r.calls, execute, pos))
      && (r.ending != Stopped ==> SeenReport(r) == AtMost(TriesOf(budget), execute, pos))
  {
    hide StopsAt;
    if budget >= 0 {
      forall p ensures StopsAt(budget, 0, execute, pos, before, wait, p) ==>
        var r := Work(budget, execute, pos, before, wait);
        r.ending == Stopped && r.attempt == p / 2 + 1 && r.calls == (p + 1) / 2 && r.next == StartOf(r.calls, execute, pos)
      {
        WorkFromStops(budget, 0, execute, pos, before, wait, p);
      }
      if forall p :: !StopsAt(budget, 0, execute, pos, before, wait, p) {
        WorkFromGoesOn(budget, 0, execute, pos, before, wait);
        NeverStops(budget, 0, execute, pos);
        WorkIsAtMost(budget, execute, pos);
      }
    } else {
      forall p ensures !StopsAt(budget, 0, execute, pos, before, wait, p) {
        NoPointStops(budget, execute, pos, before, wait, p);
      }
    }
  }

  lemma {:induction false} NeverStops(budget: int, a: nat, execute: Handler, pos: nat)
    requires a <= budget
    ensures WorkFrom(budget, a, execute, pos, NEVER, NEVER).ending != Stopped
    decreases budget - a
  {
    if execute(pos).result.Err? && a < budget {
      NeverStops(budget, a + 1, execute, execute(pos).next);
    }
  }

  lemma NoPointStops(budget: int, execute: Handler, pos: nat, before: Oracle, wait: Oracle, p: int)
    requires budget < 0
    ensures !StopsAt(budget, 0, execute, pos, before, wait, p)
  {
  }

  /** RetryMiddleware is stopped at point p: its select comes after the execution. */
  ghost predicate RetryStopsAt(budget: int, a: nat, next: Handler, pos: nat, check: Oracle, wait: Oracle, p: int) {
    FirstCancel(budget, a, check, wait, p) && AllFail(p / 2 + 1 - a, next, pos)
  }

  lemma {:induction false} RetryFromStops(budget: int, a: nat, next: Handler, pos: nat, check: Oracle, wait: Oracle, p: int)
    requires a <= budget
    ensures RetryStopsAt(budget, a, next, pos, check, wait, p) ==>
      RetryFrom(budget, a, next, pos, check, wait) == Step(Err(Canceled), StartOf(p / 2 + 1 - a, next, pos))
    decreases budget - a
  {
    hide FirstCancel, AllFail;
    var s := next(pos);
    assert StartOf(0, next, s.next) == s.next;
    FirstCancelNow(budget, a, check, wait);
    FirstCancelBounds(budget, a, check, wait, p);
    AllFailStep(p / 2 + 1 - a, next, pos);
    if s.result.Err? && !check(a) && a < budget && !wait(a) {
      FirstCancelStep(budget, a, check, wait, p);
      FirstCancelBounds(budget, a + 1, check, wait, p);
      RetryFromStops(budget, a + 1, next, s.next, check, wait, p);
    }
  }

  lemma {:induction false} RetryFromGoesOn(budget: int, a: nat, next: Handler, pos: nat, check: Oracle, wait: Oracle)
    requires a <= budget
    requires forall p :: !RetryStopsAt(budget, a, next, pos, check, wait, p)
    ensures RetryFrom(budget, a, next, pos, check, wait) == RetryFrom(budget, a, next, pos, NEVER, NEVER)
    decreases budget - a
  {
    hide FirstCancel, AllFail;
    var s := next(pos);
    FirstCancelNow(budget, a, check, wait);
    AllFailStep(1, next, pos);
    AllFailStep(0, next, s.next);
    assert !RetryStopsAt(budget, a, next, pos, check, wait, 2 * a);
    assert !RetryStopsAt(budget, a, next, pos, check, wait, 2 * a + 1);
    if s.result.Err? && a < budget {
      var a', pos' := a + 1, s.next;
      forall p ensures !RetryStopsAt(budget, a', next, pos', check, wait, p) {
        FirstCancelStep(budget, a, check, wait, p);
        FirstCancelBounds(budget, a + 1, check, wait, p);
        AllFailStep(p / 2 + 1 - a, next, pos);
        assert !RetryStopsAt(budget, a, next, pos, check, wait, p);
      }
      RetryFromGoesOn(budget, a + 1, next, s.next, check, wait);
    }
  }

  lemma {:induction false} NeverCanceled(budget: int, a: nat, next: Handler, pos: nat)
    requires a <= budget
    ensures RetryFrom(budget, a, next, pos, NEVER, NEVER).result != Err(Canceled)
    decreases budget - a
  {
    if next(pos).result.Err? && a < budget {
      NeverCanceled(budget, a + 1, next, next(pos).next);
    }
  }

  /**
    RetryMiddleware answers with the context's error exactly if some cancellation point answers
    true before an execution succeeds or the tries run out; at the first such point p it has
    executed p/2 + 1 times. If there is none, it is the uncancelled loop. A negative budget
    executes nothing and fails.
  */
  lemma RetryStopsExactly(budget: int, next: Handler, pos: nat, check: Oracle, wait: Oracle)
    ensures var r := RetryCall(budget, next, pos, check, wait);
      && (r.result == Err(Canceled) <==> exists p :: RetryStopsAt(budget, 0, next, pos, check, wait, p))
      && (forall p: nat :: RetryStopsAt(budget, 0, next, pos, check, wait, p) ==> r.next == StartOf(p / 2 + 1, next, pos))
      && (r.result != Err(Canceled) ==> Seen(r) == AtMost(TriesOf(budget), next, pos))
      && (r.result.Err? && r.result != Err(Canceled) ==>
            r.result.error.TaskError? && r.result.error.attempts == budget + 1 && (r.result.error.cause == None <==> budget < 0))
  {
    hide RetryStopsAt;
    if budget >= 0 {
      forall p: nat ensures RetryStopsAt(budget, 0, next, pos, check, wait, p) ==>
        RetryCall(budget, next, pos, check, wait) == Step(Err(Canceled), StartOf(p / 2 + 1, next, pos))
      {
        RetryFromStops(budget, 0, next, pos, check, wait, p);
      }
      assert forall p :: RetryStopsAt(budget, 0, next, pos, check, wait, p) ==> p >= 0 by { RetryPoints(budget, next, pos, check, wait); }
      if forall p :: !RetryStopsAt(budget, 0, next, pos, check, wait, p) {
        RetryFromGoesOn(budget, 0, next, pos, check, wait);
        NeverCanceled(budget, 0, next, pos);
        RetryFromIsAtMost(budget, 0, next, pos);
        var calls := RetryVerdict(budget, 0, next, pos, check, wait);
      }
    } else {
      forall p ensures !RetryStopsAt(budget, 0, next, pos, check, wait, p) {
        NoPointStopsRetry(budget, next, pos, check, wait, p);
      }
    }
  }

  lemma RetryPoints(budget: int, next: Handler, pos: nat, check: Oracle, wait: Oracle)
    ensures forall p :: RetryStopsAt(budget, 0, next, pos, check, wait, p) ==> p >= 0
  {
  }

  lemma NoPointStopsRetry(budget: int, next: Handler, pos: nat, check: Oracle, wait: Oracle, p: int)
    requires budget < 0
    ensures !RetryStopsAt(budget, 0, next, pos, check, wait, p)
  {
  }
}
