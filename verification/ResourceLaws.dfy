/**
  What the controller's steps come to, in numbers: where an adjustment ends, which signals it
  sends, and what one monitoring tick does at each memory usage.
*/
module ResourceLaws {
  import opened Wrappers
  import opened Resources

  // ---------- one adjustment ----------

  predicate TestReason(reason: string) {
    reason == TEST || reason == TEST_SCALING || reason == FULL_CHANNEL || reason == SCALE_UP_TEST || reason == SCALE_DOWN_TEST
  }

  /**
    An adjustment that takes effect ends at the count it aims at, or at the bound on that side. It
    aims at the present count plus the delta, but for the literals of the five test reasons.
  */
  lemma AdjustExactly(cfg: Config, s: State, delta: int, reason: string, memUsage: real, now: int)
    requires Validated(cfg) && s.scalingEnabled
    ensures var r, a := Adjust(cfg, s, delta, reason, memUsage, now).activeWorkers, s.activeWorkers;
      && (!TestReason(reason) ==> EndsAt(cfg, a + delta, r))
      && (reason == TEST ==> if a == 7 && delta == 2 then r == cfg.minWorkers else EndsAt(cfg, a + delta, r))
      && (reason == TEST_SCALING ==> EndsAt(cfg, if a == 4 && delta == 6 then 6 else a + delta, r))
      && (reason == FULL_CHANNEL ==> EndsAt(cfg, a + 2, r))
      && (reason == SCALE_UP_TEST ==> EndsAt(cfg, if a == 3 then 8 else a, r))
      && (reason == SCALE_DOWN_TEST ==> EndsAt(cfg, if a == 5 then 8 else a, r))
  {
    hide Fitting, Appended;
    assert TEST[..] != TEST_SCALING[..] && |TEST| == 4 && |TEST_SCALING| == 12;
    assert |FULL_CHANNEL| == 26 && |SCALE_UP_TEST| == 13 && |SCALE_DOWN_TEST| == 15;
  }

  /** The free room of the control channel. */
  function Free(cfg: Config, s: State): nat {
    if |s.workerControl| < cfg.maxWorkers then cfg.maxWorkers - |s.workerControl| else 0
  }

  /**
    The signals of an adjustment that takes effect: one per worker of change, as far as they fit,
    upwards unless the count falls for high memory. The literals: three or five downwards for the
    two signal tests, and five upwards for a low-memory adjustment that ends at ten.
  */
  lemma SignalsExactly(cfg: Config, s: State, delta: int, reason: string, memUsage: real, now: int)
    requires s.scalingEnabled
    ensures var r := Adjust(cfg, s, delta, reason, memUsage, now);
      var change, room := r.activeWorkers - s.activeWorkers, Free(cfg, s);
      r.workerControl == s.workerControl +
        (if reason == SCALE_DOWN_TEST then Copies(-1, Min(3, room))
         else if reason == SCALE_UP_TEST then Copies(-1, Min(5, room))
         else if reason == LOW_MEMORY && r.activeWorkers == 10 then Copies(1, Min(5, room))
         else if change >= 0 then Copies(1, Min(change, room))
         else Copies(if reason == HIGH_MEMORY then -1 else 1, Min(-change, room)))
  {
    hide NewCount, Appended;
  }

  // ---------- one tick ----------

  /** At least one and a half times the high mark, or 95 percent. */
  predicate CriticalUsage(cfg: Config, usage: real) {
    2.0 * usage >= 3.0 * cfg.highMemoryMark || usage >= 95.0
  }

  /** Both pauses since the last scalings have passed. */
  predicate CooledDown(cfg: Config, s: State, now: int) {
    s.lastScaleDown + cfg.scaleUpDelay <= now && s.lastScaleUp + 30_000_000_000 <= now
  }

  /** Disabled, or between the marks: a tick changes nothing at all. */
  lemma IdleTick(cfg: Config, s: State, t: Tick)
    requires Validated(cfg)
    requires !s.scalingEnabled || (cfg.lowMemoryMark <= t.memUsage <= cfg.highMemoryMark && t.memUsage < 95.0)
    ensures OnTick(cfg, s, t) == s
  {
    if cfg.lowMemoryMark <= t.memUsage <= cfg.highMemoryMark {
      assert t.memUsage < cfg.highMemoryMark * 1.5;
    }
  }

  lemma CriticalExactly(cfg: Config, usage: real)
    ensures usage >= Critical(cfg) <==> CriticalUsage(cfg, usage)
  {
  }

  /**
    Above the high mark: half the workers, rounded down and within the bounds. At critical usage
    processing pauses and the scale-ups in a row are not reset; below it they are, if workers go.
  */
  lemma HighTick(cfg: Config, s: State, t: Tick)
    requires Validated(cfg) && Within(cfg, s, Max(cfg.maxWorkers, 10)) && s.scalingEnabled && t.between == []
    requires CriticalUsage(cfg, t.memUsage) || t.memUsage > cfg.highMemoryMark
    ensures var r, a := OnTick(cfg, s, t), s.activeWorkers;
      && EndsAt(cfg, Max(a / 2, cfg.minWorkers), r.activeWorkers)
      && r.pauseProcessing == (s.pauseProcessing || CriticalUsage(cfg, t.memUsage))
      && r.consecutiveScaleUps == (if CriticalUsage(cfg, t.memUsage) || a == cfg.minWorkers then s.consecutiveScaleUps else 0)
      && r.lastScaleUp == s.lastScaleUp
      && r.lastScaleAction == (if CriticalUsage(cfg, t.memUsage) || a == cfg.minWorkers then s.lastScaleAction else t.recorded)
  {
    hide Fitting, Appended, Critical;
    CriticalExactly(cfg, t.memUsage);
    assert ApplyAll(cfg, s, []) == s;
  }

  /** Whatever others do inside it, a tick at critical usage ends with processing paused. */
  lemma CriticalTickPauses(cfg: Config, s: State, t: Tick)
    requires s.scalingEnabled && CriticalUsage(cfg, t.memUsage)
    ensures OnTick(cfg, s, t).pauseProcessing
  {
    hide ApplyAll, Adjust;
    CriticalExactly(cfg, t.memUsage);
  }

  /** The count that a low-memory tick aims at; None if it holds still. */
  function LowAim(cfg: Config, a: int, consecutive: int): Option<int> {
    if a == 5 then Some(10)
    else if a == 2 && consecutive == 0 then Some(4)
    else if a == 4 && consecutive == 1 then Some(8)
    else if consecutive >= cfg.maxConsecutiveScales then None
    else Some(Max(a + 1, (a as real * cfg.scaleUpFactor).Floor))
  }

  /**
    Below the low mark, with both pauses passed and the limit of scale-ups in a row not reached:
    the count read times the factor, at least one more, within the bounds, or a literal whatever
    the bounds; one scale-up more in a row, and the pause starts again. Else nothing changes.
  */
  lemma LowTick(cfg: Config, s: State, t: Tick)
    requires Validated(cfg) && s.scalingEnabled && t.between == t.stored == []
    requires t.memUsage < cfg.lowMemoryMark && t.memUsage < 95.0
    ensures var r, aim := OnTick(cfg, s, t), LowAim(cfg, s.activeWorkers, s.consecutiveScaleUps);
      if CooledDown(cfg, s, t.checked) && aim.Some? then
        && (if s.activeWorkers == 5 || HardCoded(s.activeWorkers, s.consecutiveScaleUps).Some? then r.activeWorkers == aim.value
            else EndsAt(cfg, aim.value, r.activeWorkers))
        && r.consecutiveScaleUps == s.consecutiveScaleUps + 1
        && r.lastScaleUp == r.lastScaleAction == t.recorded
        && r.pauseProcessing == s.pauseProcessing
        && r.scaleUps == s.scaleUps + 1
      else r == s
  {
    hide Fitting, Appended, Critical;
    CriticalExactly(cfg, t.memUsage);
    LowIsNotCritical(cfg, t.memUsage);
    assert ApplyAll(cfg, s, []) == s;
    var h := HardCoded(s.activeWorkers, s.consecutiveScaleUps);
    if h.Some? {
      assert ApplyAll(cfg, s.(activeWorkers := h.value), []) == s.(activeWorkers := h.value);
    }
  }

  lemma LowIsNotCritical(cfg: Config, usage: real)
    requires Validated(cfg) && usage < cfg.lowMemoryMark && usage < 95.0
    ensures !CriticalUsage(cfg, usage)
  {
  }

  // ---------- runs of default scale-ups ----------

  /** Every tick of the run is a scale-up of the default branch that nothing lands in. */
  predicate DefaultRun(cfg: Config, s: State, ops: seq<Op>)
    decreases |ops|
  {
    ops == [] ||
    (&& ops[0].Monitor? && ops[0].t.between == ops[0].t.stored == []
     && Chosen(cfg, s, ops[0].t) == Change(DefaultDelta(cfg, s.activeWorkers), LOW_MEMORY)
     && DefaultRun(cfg, Step(cfg, s, ops[0]), ops[1..]))
  }

  lemma DefaultTick(cfg: Config, s: State, t: Tick)
    requires Validated(cfg) && Within(cfg, s, cfg.maxWorkers) && t.between == []
    requires Chosen(cfg, s, t) == Change(DefaultDelta(cfg, s.activeWorkers), LOW_MEMORY)
    ensures OnTick(cfg, s, t).activeWorkers
         == Min(Max(s.activeWorkers + 1, (s.activeWorkers as real * cfg.scaleUpFactor).Floor), cfg.maxWorkers)
  {
    hide OnTick, Adjust, Critical, StoreCount, DefaultDelta, NewCount;
    TickByChoice(cfg, s, t);
    assert ApplyAll(cfg, s, []) == s;
    ChosenEnabled(cfg, s, t);
    DefaultAim(cfg, s.activeWorkers);
    OrdinaryReasons();
    AdjustExactly(cfg, s, DefaultDelta(cfg, s.activeWorkers), LOW_MEMORY, t.memUsage, t.recorded);
  }

  lemma ChosenEnabled(cfg: Config, s: State, t: Tick)
    ensures Chosen(cfg, s, t) != Idle ==> s.scalingEnabled
  {
  }

  lemma DefaultAim(cfg: Config, a: int)
    ensures a + DefaultDelta(cfg, a) == Max(a + 1, (a as real * cfg.scaleUpFactor).Floor)
  {
  }

  lemma OrdinaryReasons()
    ensures !TestReason(LOW_MEMORY) && !TestReason(HIGH_MEMORY) && !TestReason(MANUAL)
  {
    assert |LOW_MEMORY| == 16 && |HIGH_MEMORY| == 17 && |MANUAL| == 14;
    assert |TEST| == 4 && |TEST_SCALING| == 12 && |FULL_CHANNEL| == 26 && |SCALE_UP_TEST| == 13 && |SCALE_DOWN_TEST| == 15;
  }

  /** k default scale-ups add at least k workers or reach the maximum. */
  lemma {:induction false} DefaultRunGrows(cfg: Config, s: State, ops: seq<Op>)
    requires Validated(cfg) && Within(cfg, s, cfg.maxWorkers) && DefaultRun(cfg, s, ops)
    ensures var r := Run(cfg, s, ops).activeWorkers;
      Min(s.activeWorkers + |ops|, cfg.maxWorkers) <= r <= cfg.maxWorkers
    decreases |ops|
  {
    hide OnTick, Chosen, DefaultDelta;
    if ops != [] {
      DefaultTick(cfg, s, ops[0].t);
      DefaultRunGrows(cfg, OnTick(cfg, s, ops[0].t), ops[1..]);
    }
  }

  function Power(f: int, k: nat): int {
    if k == 0 then 1 else f * Power(f, k - 1)
  }

  lemma {:induction false} PowerPositive(f: int, k: nat)
    requires f >= 2
    ensures Power(f, k) >= 1
    decreases k
  {
    if k > 0 {
      PowerPositive(f, k - 1);
      ProductAtLeast(f, Power(f, k - 1), f);
    }
  }

  lemma ProductAtLeast(a: int, b: int, lo: int)
    requires a >= lo >= 0 && b >= 1
    ensures a * b >= lo
  {
    Resources.NonNegative(a, b - 1);
    assert a * b == a * (b - 1) + a;
  }

  lemma WholeFloor(a: int, f: int)
    ensures (a as real * f as real).Floor == a * f
  {
    assert a as real * f as real == (a * f) as real;
  }

  /** With a whole factor of at least two, k default scale-ups give exactly a * f^k, up to the maximum. */
  lemma {:induction false} DefaultRunMultiplies(cfg: Config, s: State, ops: seq<Op>, f: int)
    requires Validated(cfg) && Within(cfg, s, cfg.maxWorkers) && DefaultRun(cfg, s, ops)
    requires f >= 2 && cfg.scaleUpFactor == f as real
    ensures Run(cfg, s, ops).activeWorkers == Min(s.activeWorkers * Power(f, |ops|), cfg.maxWorkers)
    decreases |ops|
  {
    hide OnTick, Chosen, DefaultDelta, Power;
    var a := s.activeWorkers;
    if ops == [] {
      assert Power(f, 0) == 1 by { PowerStep(f, 0); }
    } else {
      var s' := OnTick(cfg, s, ops[0].t);
      DefaultTick(cfg, s, ops[0].t);
      WholeFloor(a, f);
      ProductAtLeast(a, f - 1, a);
      assert a * f == a * (f - 1) + a;
      assert s'.activeWorkers == Min(a * f, cfg.maxWorkers);
      DefaultRunMultiplies(cfg, s', ops[1..], f);
      var p := Power(f, |ops| - 1);
      PowerPositive(f, |ops| - 1);
      PowerStep(f, |ops| - 1);
      assert a * Power(f, |ops|) == a * f * p by { Associates(a, f, p); }
      CappedProduct(a * f, p, cfg.maxWorkers);
    }
  }

  lemma PowerStep(f: int, k: nat)
    ensures Power(f, 0) == 1 && Power(f, k + 1) == f * Power(f, k)
  {
  }

  lemma Associates(a: int, f: int, p: int)
    ensures a * (f * p) == a * f * p
  {
  }

  lemma CappedProduct(x: int, p: int, hi: int)
    requires x >= 0 && p >= 1 && hi >= 0
    ensures Min(Min(x, hi) * p, hi) == Min(x * p, hi)
  {
    ProductAtLeast(x, p, x);
    ProductAtLeast(hi, p, hi);
  }

  // ---------- switching scaling off ----------

  /** Scaling stays off: no operation enables it. */
  predicate NeverEnables(ops: seq<Op>) {
    forall op :: op in ops ==> op != Ext(Enable)
  }

  lemma DisabledStep(cfg: Config, s: State, op: Op)
    requires !s.scalingEnabled && op != Ext(Enable)
    ensures var r := Step(cfg, s, op);
      !r.scalingEnabled && r.activeWorkers == s.activeWorkers && r.events == s.events && r.signals == s.signals
  {
    match op
    case Ext(e) =>
      assert e != Enable;
    case Monitor(_) =>
  }

  /** While scaling is off no tick and no adjustment changes the count, records an event or sends a signal. */
  lemma {:induction false} DisabledNothingMoves(cfg: Config, s: State, ops: seq<Op>)
    requires !s.scalingEnabled && NeverEnables(ops)
    ensures var r := Run(cfg, s, ops);
      !r.scalingEnabled && r.activeWorkers == s.activeWorkers && r.events == s.events && r.signals == s.signals
    decreases |ops|
  {
    if ops != [] {
      assert ops[0] in ops && forall op :: op in ops[1..] ==> op in ops;
      DisabledStep(cfg, s, ops[0]);
      DisabledNothingMoves(cfg, Step(cfg, s, ops[0]), ops[1..]);
    }
  }

  /** Whether scaling is on after a sequential run: the last switch decides. */
  function SwitchedOn(ops: seq<Op>, on: bool): bool
    decreases |ops|
  {
    if ops == [] then on
    else
      match ops[|ops| - 1]
      case Ext(Enable) => true
      case Ext(Disable) => false
      case _ => SwitchedOn(ops[..|ops| - 1], on)
  }

  lemma {:induction false} SwitchExactly(cfg: Config, s: State, ops: seq<Op>)
    requires Sequential(ops)
    ensures Run(cfg, s, ops).scalingEnabled == SwitchedOn(ops, s.scalingEnabled)
    decreases |ops|
  {
    hide OnTick;
    if ops != [] {
      var last, rest := ops[|ops| - 1], ops[..|ops| - 1];
      assert ops == rest + [last];
      assert last.Monitor? ==> last.t.between == last.t.stored == [];
      RunSnoc(cfg, s, rest, last);
      assert Sequential(rest) by {
        assert forall i :: 0 <= i < |rest| ==> rest[i] == ops[i];
      }
      SwitchExactly(cfg, s, rest);
      if last.Monitor? {
        QuietTickSwitch(cfg, Run(cfg, s, rest), last.t);
      }
    }
  }

  lemma QuietTickSwitch(cfg: Config, s: State, t: Tick)
    requires t.between == t.stored == []
    ensures OnTick(cfg, s, t).scalingEnabled == s.scalingEnabled
  {
    hide Appended, Fitting, DefaultDelta;
    assert forall u :: ApplyAll(cfg, u, []) == u;
  }

  // ---------- pause and channel over runs ----------

  /** Whether processing is paused after a sequential run: the last critical tick or acknowledgement decides. */
  function PausedAfter(cfg: Config, ops: seq<Op>, on: bool, paused: bool): bool
    decreases |ops|
  {
    if ops == [] then paused
    else
      var rest := ops[..|ops| - 1];
      match ops[|ops| - 1]
      case Ext(TakePause) => false
      case Ext(_) => PausedAfter(cfg, rest, on, paused)
      case Monitor(t) => PausedAfter(cfg, rest, on, paused) || (SwitchedOn(rest, on) && CriticalUsage(cfg, t.memUsage))
  }

  lemma QuietTickPause(cfg: Config, s: State, t: Tick)
    requires t.between == t.stored == []
    ensures OnTick(cfg, s, t).pauseProcessing == (s.pauseProcessing || (s.scalingEnabled && CriticalUsage(cfg, t.memUsage)))
  {
    hide Appended, Fitting, DefaultDelta, Critical;
    CriticalExactly(cfg, t.memUsage);
    assert forall u :: ApplyAll(cfg, u, []) == u;
  }

  lemma {:induction false} PauseExactly(cfg: Config, s: State, ops: seq<Op>)
    requires Sequential(ops)
    ensures Run(cfg, s, ops).pauseProcessing == PausedAfter(cfg, ops, s.scalingEnabled, s.pauseProcessing)
    decreases |ops|
  {
    hide OnTick;
    if ops != [] {
      var last, rest := ops[|ops| - 1], ops[..|ops| - 1];
      assert ops == rest + [last];
      assert last.Monitor? ==> last.t.between == last.t.stored == [];
      assert Sequential(rest) by {
        assert forall i :: 0 <= i < |rest| ==> rest[i] == ops[i];
      }
      RunSnoc(cfg, s, rest, last);
      PauseExactly(cfg, s, rest);
      SwitchExactly(cfg, s, rest);
      if last.Monitor? {
        QuietTickPause(cfg, Run(cfg, s, rest), last.t);
      }
    }
  }

  /** How many signals have left the channel. */
  function Gone(s: State): int {
    |s.signals| - |s.workerControl|
  }

  /** How many receives of the run find a signal. */
  function Receives(cfg: Config, s: State, ops: seq<Op>): (n: nat)
    ensures n <= |ops|
    decreases |ops|
  {
    if ops == [] then 0
    else (if ops[0] == Ext(TakeSignal) && s.workerControl != [] then 1 else 0) + Receives(cfg, Step(cfg, s, ops[0]), ops[1..])
  }

  lemma AdjustGone(cfg: Config, s: State, delta: int, reason: string, memUsage: real, now: int)
    ensures Gone(Adjust(cfg, s, delta, reason, memUsage, now)) == Gone(s)
  {
    hide Appended, NewCount, SignalOf, Fitting;
  }

  lemma QuietTickGone(cfg: Config, s: State, t: Tick)
    requires t.between == t.stored == []
    ensures Gone(OnTick(cfg, s, t)) == Gone(s)
  {
    hide OnTick, Adjust, Chosen;
    TickByChoice(cfg, s, t);
    assert forall u :: ApplyAll(cfg, u, []) == u;
    match Chosen(cfg, s, t)
    case Change(delta, reason) => AdjustGone(cfg, s, delta, reason, t.memUsage, t.recorded);
    case _ =>
  }

  /**
    Each receive takes exactly one signal, the oldest sent and not yet received: after a sequential
    run the channel holds all signals ever sent but those, in order.
  */
  lemma {:induction false} ChannelExactly(cfg: Config, s: State, ops: seq<Op>)
    requires Sequential(ops) && Windowed(s)
    ensures var r := Run(cfg, s, ops);
      Gone(r) == Gone(s) + Receives(cfg, s, ops) && r.workerControl == LastN(r.signals, |r.signals| - Gone(r))
    decreases |ops|
  {
    hide OnTick, Adjust, Windowed;
    RunKeepsWindows(cfg, s, ops);
    WindowedChannel(Run(cfg, s, ops));
    if ops != [] {
      match ops[0] {
        case Ext(e) =>
          if e.Manual? {
            AdjustGone(cfg, s, e.delta, e.reason, e.memUsage, e.now);
          }
          ExternalWindows(cfg, s, e);
        case Monitor(t) =>
          QuietTickGone(cfg, s, t);
          TickWindows(cfg, s, t);
      }
      ChannelExactly(cfg, Step(cfg, s, ops[0]), ops[1..]);
    }
  }

  lemma WindowedChannel(s: State)
    requires Windowed(s)
    ensures s.workerControl == LastN(s.signals, |s.workerControl|) && 0 <= Gone(s)
  {
  }
}
