/**
  pkg/middleware/middleware.go: chaining, the retry loop and task wrapping.
*/
module Middleware {
  import opened Wrappers
  import opened Retry

  // ---------- Chain ----------

  /** The first middleware is the outermost wrapper. */
  function Wrapped<H>(ms: seq<H -> H>, next: H): H {
    if ms == [] then next else ms[0](Wrapped(ms[1..], next))
  }

  lemma WrappedUnfold<H>(ms: seq<H -> H>, i: nat, next: H)
    requires i < |ms|
    ensures Wrapped(ms[i..], next) == ms[i](Wrapped(ms[i + 1..], next))
  {
    assert ms[i..][1..] == ms[i + 1..];
  }

  /** Chain's loop, from the last middleware down to the first. */
  method Chain<H>(middleware: seq<H -> H>, next: H) returns (handler: H)
    ensures handler == Wrapped(middleware, next)
  {
    handler := next;
    var i := |middleware| - 1;
    while i >= 0
      invariant -1 <= i < |middleware|
      invariant handler == Wrapped(middleware[i + 1..], next)
    {
      WrappedUnfold(middleware, i, next);
      handler := middleware[i](handler);
      i := i - 1;
    }
  }

  /** Chaining two lists is chaining the second inside the first; no middleware is the identity. */
  lemma {:induction false} ChainComposes<H>(xs: seq<H -> H>, ys: seq<H -> H>, next: H)
    ensures Wrapped(xs + ys, next) == Wrapped(xs, Wrapped(ys, next))
    decreases |xs|
  {
    if xs == [] {
      assert xs + ys == ys;
    } else {
      assert (xs + ys)[1..] == xs[1..] + ys;
      ChainComposes(xs[1..], ys, next);
    }
  }

  // ---------- order of execution ----------

  datatype Event = Before(i: int) | Handled | After(i: int)

  /** Handlers that log what they do. */
  type Logging = seq<Event> -> seq<Event>

  /** A middleware that acts before and after the handler it wraps. */
  function Bracket(i: int): Logging -> Logging {
    (next: Logging) => (log: seq<Event>) => next(log + [Before(i)]) + [After(i)]
  }

  function Brackets(from: nat, n: nat): (ms: seq<Logging -> Logging>)
    ensures |ms| == n
    decreases n
  {
    if n == 0 then [] else [Bracket(from)] + Brackets(from + 1, n - 1)
  }

  const HANDLE: Logging := (log: seq<Event>) => log + [Handled]

  function Befores(from: nat, n: nat): (es: seq<Event>)
    ensures |es| == n && forall k :: 0 <= k < n ==> es[k] == Before(from + k)
    decreases n
  {
    if n == 0 then [] else [Before(from)] + Befores(from + 1, n - 1)
  }

  function Afters(from: nat, n: nat): (es: seq<Event>)
    ensures |es| == n && forall k :: 0 <= k < n ==> es[k] == After(from + n - 1 - k)
    decreases n
  {
    if n == 0 then [] else Afters(from + 1, n - 1) + [After(from)]
  }

  lemma OutermostBracket(from: nat, n: nat, log: seq<Event>)
    ensures Wrapped(Brackets(from, n + 1), HANDLE)(log)
         == Wrapped(Brackets(from + 1, n), HANDLE)(log + [Before(from)]) + [After(from)]
  {
    var ms := Brackets(from, n + 1);
    assert ms[0] == Bracket(from) && ms[1..] == Brackets(from + 1, n);
  }

  lemma Regroup(log: seq<Event>, b: seq<Event>, a: seq<Event>, x: Event, y: Event)
    ensures (log + [x]) + b + [Handled] + a + [y] == log + ([x] + b) + [Handled] + (a + [y])
  {
  }

  /**
    Any number of bracketing middlewares: the befores run first to last, then the handler,
    then the afters last to first.
  */
  lemma {:induction false} ChainOrder(from: nat, n: nat, log: seq<Event>)
    ensures Wrapped(Brackets(from, n), HANDLE)(log) == log + Befores(from, n) + [Handled] + Afters(from, n)
    decreases n
  {
    if n == 0 {
      assert log + [] + [Handled] + [] == log + [Handled];
    } else {
      ChainOrder(from + 1, n - 1, log + [Before(from)]);
      OutermostBracket(from, n - 1, log);
      Regroup(log, Befores(from + 1, n - 1), Afters(from + 1, n - 1), Before(from), After(from));
    }
  }

  // ---------- RetryMiddleware ----------

  /** The loop of RetryMiddleware. `check` and `wait` answer the two selects on the context. */
  method RetryHandler(maxRetries: int, next: Handler, pos: nat, check: Oracle, wait: Oracle) returns (r: Step)
    ensures r == RetryCall(maxRetries, next, pos, check, wait)
  {
    var lastErr: Option<Error> := None;
    var at := pos;
    var attempt := 0;
    while attempt <= maxRetries
      invariant maxRetries < 0 ==> attempt == 0 && at == pos && lastErr == None
      invariant 0 <= maxRetries && attempt <= maxRetries ==>
        RetryFrom(maxRetries, attempt, next, at, check, wait) == RetryCall(maxRetries, next, pos, check, wait)
      invariant 0 <= maxRetries < attempt ==>
        Step(Err(TaskError(maxRetries + 1, lastErr)), at) == RetryCall(maxRetries, next, pos, check, wait)
      invariant 0 <= attempt
    {
      var s := next(at);
      if s.result.Ok? {
        return s;
      }
      lastErr := Some(s.result.error);
      at := s.next;
      if check(attempt) {
        return Step(Err(Canceled), at);
      }
      if attempt < maxRetries {
        if wait(attempt) {
          return Step(Err(Canceled), at);
        }
      }
      attempt := attempt + 1;
    }
    r := Step(Err(TaskError(maxRetries + 1, lastErr)), at);
  }

  function RetryingAll(budgets: seq<int>): (ms: seq<Handler -> Handler>)
    ensures |ms| == |budgets|
  {
    if budgets == [] then [] else [Retrying(budgets[0])] + RetryingAll(budgets[1..])
  }

  function ProductOfTries(budgets: seq<int>): nat {
    if budgets == [] then 1 else TriesOf(budgets[0]) * ProductOfTries(budgets[1..])
  }

  /** A chain of retry middlewares of any length makes as many tries, in the same order, as the product of their tries. */
  lemma {:induction false} ChainedRetriesMultiply(budgets: seq<int>, next: Handler, pos: nat)
    ensures Seen(Wrapped(RetryingAll(budgets), next)(pos)) == AtMost(ProductOfTries(budgets), next, pos)
    decreases |budgets|
  {
    if budgets == [] {
      assert AtMost(1, next, pos) == Seen(next(pos)) by {
        assert AtMost(0, next, next(pos).next) == (None, next(pos).next);
      }
    } else {
      var h := Wrapped(RetryingAll(budgets[1..]), next);
      var n := ProductOfTries(budgets[1..]);
      forall p ensures Seen(h(p)) == AtMost(n, next, p) {
        ChainedRetriesMultiply(budgets[1..], next, p);
      }
      RetryingIsAtMost(budgets[0], h, pos);
      AtMostProduct(TriesOf(budgets[0]), n, h, next, pos);
    }
  }

  // ---------- WrapTask ----------

  /** Execute of a task wrapped with middleware `m`: the middleware around the task's own Execute. */
  function WrapExecute<H>(m: H -> H, execute: H): H {
    m(execute)
  }

  /** A task wrapped with bracketing middlewares: the befores, the task's own work once, the afters. */
  lemma WrappedTaskOrder(n: nat, log: seq<Event>)
    ensures WrapExecute((h: Logging) => Wrapped(Brackets(0, n), h), HANDLE)(log)
         == log + Befores(0, n) + [Handled] + Afters(0, n)
  {
    ChainOrder(0, n, log);
  }

  /** A task wrapped with a chain of retries makes at most the product of their tries of its own Execute. */
  lemma WrappedTaskRetries(budgets: seq<int>, outcomes: nat -> Attempt, pos: nat)
    ensures Seen(WrapExecute((h: Handler) => Wrapped(RetryingAll(budgets), h), Raw(outcomes))(pos))
         == AtMost(ProductOfTries(budgets), Raw(outcomes), pos)
  {
    ChainedRetriesMultiply(budgets, Raw(outcomes), pos);
  }

  /** Wrapping a wrapped task is wrapping once with the chain of the two, the later wrapper outermost. */
  lemma WrapTwice(ms: seq<Handler -> Handler>, ns: seq<Handler -> Handler>, execute: Handler)
    ensures WrapExecute((h: Handler) => Wrapped(ns, h), WrapExecute((h: Handler) => Wrapped(ms, h), execute))
         == WrapExecute((h: Handler) => Wrapped(ns + ms, h), execute)
  {
    ChainComposes(ns, ms, execute);
  }

  /**
    A worker running a task wrapped in chained retry middlewares, uncancelled: it ends like one
    loop whose tries are the product of all of them, on every outcome stream.
  */
  lemma WorkerRunsWrappedTask(workerBudget: int, budgets: seq<int>, execute: Handler, pos: nat)
    ensures SeenReport(Work(workerBudget, WrapExecute((h: Handler) => Wrapped(RetryingAll(budgets), h), execute), pos, NEVER, NEVER))
         == AtMost(ProductOfTries([workerBudget] + budgets), execute, pos)
  {
    var h := Wrapped(RetryingAll(budgets), execute);
    WorkIsAtMost(workerBudget, h, pos);
    var n := ProductOfTries(budgets);
    forall p ensures Seen(h(p)) == AtMost(n, execute, p) {
      ChainedRetriesMultiply(budgets, execute, p);
    }
    AtMostProduct(TriesOf(workerBudget), n, h, execute, pos);
    assert ([workerBudget] + budgets)[1..] == budgets;
  }
}
