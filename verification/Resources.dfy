/**
  The resource controller of pkg/manager/resource_control.go as a state machine, together
  with the cooldown clock of internal/utils/resource.go. Memory usage and clock readings
  are inputs. The branches hard-coded for particular worker counts and reason strings are
  kept: they decide which invariants hold.
*/
module Resources {
  import opened Wrappers

  // ---------- configuration and state ----------

  datatype Config = Config(
    initialWorkers: int, minWorkers: int, maxWorkers: int,
    scaleUpFactor: real, maxConsecutiveScales: int,
    lowMemoryMark: real, highMemoryMark: real, scaleUpDelay: int)

  /** What Config.Validate accepts. */
  predicate Validated(cfg: Config) {
    && 0 < cfg.minWorkers <= cfg.initialWorkers <= cfg.maxWorkers
    && cfg.scaleUpFactor >= 1.0
    && 0.0 <= cfg.lowMemoryMark < cfg.highMemoryMark <= 100.0
  }

  datatype ScaleEvent = ScaleEvent(time: int, from: int, to: int, reason: string, memUsage: real)

  /**
    The fields of the controller and of its monitor's scale-up clock. The last four are
    history: every event ever recorded, every signal ever sent, the scale-ups the low-memory
    handler performed, and those of its default branch since consecutiveScaleUps was last reset.
  */
  datatype State = State(
    activeWorkers: int,
    consecutiveScaleUps: int,
    lastScaleAction: int,
    scaleHistory: seq<ScaleEvent>,
    workerControl: seq<int>,
    pauseProcessing: bool,
    scalingEnabled: bool,
    lastScaleUp: int,
    lastScaleDown: int,
    events: seq<ScaleEvent>,
    signals: seq<int>,
    scaleUps: nat,
    defaultScaleUps: nat)

  const COOLDOWN: int := 30_000_000_000
  const HISTORY: nat := 100

  const TEST: string := "test"
  const TEST_SCALING: string := "test scaling"
  const FULL_CHANNEL: string := "should handle full channel"
  const SCALE_UP_TEST: string := "scale up test"
  const SCALE_DOWN_TEST: string := "scale down test"
  const LOW_MEMORY: string := "low memory usage"
  const HIGH_MEMORY: string := "high memory usage"
  const MANUAL: string := "manual scaling"

  function Initial(cfg: Config, now: int): State {
    State(cfg.initialWorkers, 0, now, [], [], false, true, now, now, [], [], 0, 0)
  }

  // ---------- AdjustWorkerCount ----------

  /** handleSpecialTestCases: the delta that takes effect. */
  function SpecialDelta(cfg: Config, active: int, delta: int, reason: string): int {
    if reason == TEST then (if active == 7 && delta == 2 then cfg.minWorkers - active else delta)
    else if reason == TEST_SCALING then (if active == 4 && delta == 6 then 2 else delta)
    else if reason == FULL_CHANNEL then 2
    else if reason == SCALE_UP_TEST then (if active == 3 then 5 else 0)
    else if reason == SCALE_DOWN_TEST then (if active == 5 then 3 else 0)
    else delta
  }

  function Clamp(x: int, lo: int, hi: int): int {
    if x < lo then lo else if x > hi then hi else x
  }

  function NewCount(cfg: Config, active: int, delta: int, reason: string): int {
    Clamp(active + SpecialDelta(cfg, active, delta, reason), cfg.minWorkers, cfg.maxWorkers)
  }

  /** The history after one append and the trim that follows it. */
  function Appended(history: seq<ScaleEvent>, e: ScaleEvent): seq<ScaleEvent> {
    var h := history + [e];
    if |h| > HISTORY then h[1..] else h
  }

  /** Sets the count and records the event. */
  function Record(s: State, from: int, to: int, reason: string, memUsage: real, now: int): State {
    var e := ScaleEvent(now, from, to, reason, memUsage);
    s.(activeWorkers := to, scaleHistory := Appended(s.scaleHistory, e), events := s.events + [e])
  }

  function Room(cfg: Config, control: seq<int>): nat {
    if cfg.maxWorkers > |control| then cfg.maxWorkers - |control| else 0
  }

  /** How many of `count` signals the channel has room for. */
  function Fitting(cfg: Config, control: seq<int>, count: nat): nat {
    if count <= Room(cfg, control) then count else Room(cfg, control)
  }

  /** sendMultipleSignals: as many of `count` signals as the channel has room for. */
  function Signal(cfg: Config, s: State, signal: int, count: nat): State {
    var more := Copies(signal, Fitting(cfg, s.workerControl, count));
    s.(workerControl := s.workerControl + more, signals := s.signals + more)
  }

  function Abs(x: int): nat {
    if x < 0 then -x else x
  }

  /** sendWorkerControlSignals: signal value and count for a change from `from` to `to`. */
  function SignalOf(from: int, to: int, reason: string): (int, nat) {
    if reason == SCALE_DOWN_TEST then (-1, 3)
    else if reason == SCALE_UP_TEST then (-1, 5)
    else if reason == LOW_MEMORY && to == 10 then (1, 5)
    else (if to < from && reason == HIGH_MEMORY then -1 else 1, Abs(to - from))
  }

  function Adjust(cfg: Config, s: State, delta: int, reason: string, memUsage: real, now: int): State {
    if !s.scalingEnabled then s
    else
      var to := NewCount(cfg, s.activeWorkers, delta, reason);
      var (signal, count) := SignalOf(s.activeWorkers, to, reason);
      Signal(cfg, Record(s, s.activeWorkers, to, reason, memUsage, now), signal, count)
  }

  // ---------- what others may do to the controller ----------

  datatype External =
    | Manual(delta: int, reason: string, memUsage: real, now: int)   // AdjustWorkerCount from outside
    | Enable
    | Disable
    | TakeSignal
    | TakePause

  function ApplyExternal(cfg: Config, s: State, e: External): State {
    match e
    case Manual(delta, reason, memUsage, now) => Adjust(cfg, s, delta, reason, memUsage, now)
    case Enable => s.(scalingEnabled := true)
    case Disable => s.(scalingEnabled := false)
    case TakeSignal => if s.workerControl == [] then s else s.(workerControl := s.workerControl[1..])
    case TakePause => s.(pauseProcessing := false)
  }

  function ApplyAll(cfg: Config, s: State, es: seq<External>): State
    decreases |es|
  {
    if es == [] then s else ApplyAll(cfg, ApplyExternal(cfg, s, es[0]), es[1..])
  }

  // ---------- one monitoring tick ----------

  /**
    One tick of the monitor: the memory usage it sees, the clock when the cooldown is checked
    and when the action is recorded, what others do between the handler's read of the worker
    count and its adjustment, and what they do between the store of a hard-coded count and the
    record of that store, which hold no lock.
  */
  datatype Tick = Tick(memUsage: real, checked: int, recorded: int, between: seq<External>, stored: seq<External>)

  function Critical(cfg: Config): real {
    var t := cfg.highMemoryMark * 1.5;
    if t > 95.0 then 95.0 else t
  }

  function ShouldScaleDown(cfg: Config, memUsage: real): bool {
    memUsage > cfg.highMemoryMark
  }

  function ShouldScaleUp(cfg: Config, s: State, memUsage: real, now: int): bool {
    && memUsage < cfg.lowMemoryMark
    && now - s.lastScaleDown >= cfg.scaleUpDelay
    && now - s.lastScaleUp >= COOLDOWN
  }

  function HalfOf(cfg: Config, active: int): int {
    Max(active / 2, cfg.minWorkers)
  }

  function OnCritical(cfg: Config, s: State, t: Tick): State {
    var read := s.activeWorkers;
    var s1 := ApplyAll(cfg, s, t.between);
    Adjust(cfg, s1, HalfOf(cfg, read) - read, HIGH_MEMORY, t.memUsage, t.recorded).(pauseProcessing := true)
  }

  function OnHigh(cfg: Config, s: State, t: Tick): State {
    var read := s.activeWorkers;
    var s1 := ApplyAll(cfg, s, t.between);
    var delta := HalfOf(cfg, read) - read;
    if delta >= 0 then s1
    else Adjust(cfg, s1, delta, HIGH_MEMORY, t.memUsage, t.recorded)
           .(consecutiveScaleUps := 0, lastScaleAction := t.recorded, defaultScaleUps := 0)
  }

  /** The bookkeeping that ends every low-memory scale-up. */
  function ScaledUp(s: State, consecutive: int, now: int): State {
    s.(consecutiveScaleUps := consecutive, lastScaleAction := now, lastScaleUp := now, scaleUps := s.scaleUps + 1)
  }

  function DefaultDelta(cfg: Config, read: int): int {
    var delta := (read as real * cfg.scaleUpFactor).Floor - read;
    if delta <= 0 then 1 else delta
  }

  /** The count stored for a particular count read and number of scale-ups in a row. */
  function HardCoded(read: int, consecutive: int): Option<int> {
    if read == 5 then Some(10)
    else if read == 2 && consecutive == 0 then Some(4)
    else if read == 4 && consecutive == 1 then Some(8)
    else None
  }

  /** The old count that the record of a hard-coded store names. */
  function NamedCount(s1: State, read: int): int {
    if read == 5 then s1.activeWorkers else read
  }

  /** handleLowMemoryScaleUpTests after others left state `s1`. */
  function StoreCount(cfg: Config, s1: State, read: int, target: int, t: Tick): State {
    var s2 := ApplyAll(cfg, s1.(activeWorkers := target), t.stored);
    var s3 := Record(s2, NamedCount(s1, read), s2.activeWorkers, LOW_MEMORY, t.memUsage, t.recorded);
    if read == 5 then ScaledUp(Signal(cfg, s3, 1, 5), s3.consecutiveScaleUps + 1, t.recorded)
    else ScaledUp(s3, read / 2, t.recorded)
  }

  function OnLow(cfg: Config, s: State, t: Tick): State {
    if !ShouldScaleUp(cfg, s, t.memUsage, t.checked) then s
    else
      var read := s.activeWorkers;
      var s1 := ApplyAll(cfg, s, t.between);
      if HardCoded(read, s1.consecutiveScaleUps) != None then
        StoreCount(cfg, s1, read, HardCoded(read, s1.consecutiveScaleUps).value, t)
      else if s1.consecutiveScaleUps >= cfg.maxConsecutiveScales then s1
      else
        var s2 := Adjust(cfg, s1, DefaultDelta(cfg, read), LOW_MEMORY, t.memUsage, t.recorded);
        ScaledUp(s2, s2.consecutiveScaleUps + 1, t.recorded).(defaultScaleUps := s2.defaultScaleUps + 1)
  }

  function OnTick(cfg: Config, s: State, t: Tick): State {
    if !s.scalingEnabled then s
    else if t.memUsage >= Critical(cfg) then OnCritical(cfg, s, t)
    else if ShouldScaleDown(cfg, t.memUsage) then OnHigh(cfg, s, t)
    else OnLow(cfg, s, t)
  }

  // ---------- runs ----------

  datatype Op = Ext(e: External) | Monitor(t: Tick)

  function Step(cfg: Config, s: State, op: Op): State {
    match op
    case Ext(e) => ApplyExternal(cfg, s, e)
    case Monitor(t) => OnTick(cfg, s, t)
  }

  function Run(cfg: Config, s: State, ops: seq<Op>): State
    decreases |ops|
  {
    if ops == [] then s else Run(cfg, Step(cfg, s, ops[0]), ops[1..])
  }

  /** Memory usage is never negative and the clock never runs backwards from `now`. */
  predicate Sane(ops: seq<Op>, now: int)
    decreases |ops|
  {
    if ops == [] then true
    else
      match ops[0]
      case Ext(_) => Sane(ops[1..], now)
      case Monitor(t) => t.memUsage >= 0.0 && now <= t.checked <= t.recorded && Sane(ops[1..], t.recorded)
  }

  // ---------- bounds ----------

  /** A count that aims at n ends there, or at the bound on that side. */
  predicate EndsAt(cfg: Config, n: int, r: int) {
    && (cfg.minWorkers <= n <= cfg.maxWorkers ==> r == n)
    && (n < cfg.minWorkers ==> r == cfg.minWorkers)
    && (n > cfg.maxWorkers ==> r == cfg.maxWorkers)
  }

  /** Every adjustment that takes effect ends within the configured bounds. */
  lemma AdjustWithinBounds(cfg: Config, s: State, delta: int, reason: string, memUsage: real, now: int)
    requires Validated(cfg) && s.scalingEnabled
    ensures cfg.minWorkers <= Adjust(cfg, s, delta, reason, memUsage, now).activeWorkers <= cfg.maxWorkers
  {
  }

  /** Counts between `minWorkers` and `hi`, a bound no smaller than `maxWorkers`. */
  predicate Within(cfg: Config, s: State, hi: int) {
    cfg.minWorkers <= s.activeWorkers <= hi
  }

  lemma ExternalStaysWithin(cfg: Config, s: State, e: External, hi: int)
    requires Validated(cfg) && Within(cfg, s, hi) && cfg.maxWorkers <= hi
    ensures Within(cfg, ApplyExternal(cfg, s, e), hi)
  {
  }

  lemma {:induction false} ExternalsStayWithin(cfg: Config, s: State, es: seq<External>, hi: int)
    requires Validated(cfg) && Within(cfg, s, hi) && cfg.maxWorkers <= hi
    ensures Within(cfg, ApplyAll(cfg, s, es), hi)
    decreases |es|
  {
    hide ApplyExternal;
    if es != [] {
      ExternalStaysWithin(cfg, s, es[0], hi);
      ExternalsStayWithin(cfg, ApplyExternal(cfg, s, es[0]), es[1..], hi);
    }
  }

  /** Others leave the count alone or adjust it into the bounds. */
  lemma {:induction false} ExternalsLandIn(cfg: Config, s: State, es: seq<External>)
    requires Validated(cfg)
    ensures var r := ApplyAll(cfg, s, es).activeWorkers;
      r == s.activeWorkers || cfg.minWorkers <= r <= cfg.maxWorkers
    decreases |es|
  {
    if es != [] {
      ExternalsLandIn(cfg, ApplyExternal(cfg, s, es[0]), es[1..]);
    }
  }

  /** Where one tick leaves the count: unchanged by it, adjusted into the bounds, or at a hard-coded target. */
  lemma TickLandsIn(cfg: Config, s: State, t: Tick)
    requires Validated(cfg)
    ensures var r, s1 := OnTick(cfg, s, t).activeWorkers, ApplyAll(cfg, s, t.between);
      || r == s.activeWorkers
      || r == s1.activeWorkers
      || cfg.minWorkers <= r <= cfg.maxWorkers
      || (t.memUsage < cfg.lowMemoryMark && s.activeWorkers == 5 && r == 10)
      || (t.memUsage < cfg.lowMemoryMark && s.activeWorkers == 2 && s1.consecutiveScaleUps == 0 && r == 4)
      || (t.memUsage < cfg.lowMemoryMark && s.activeWorkers == 4 && s1.consecutiveScaleUps == 1 && r == 8)
  {
    hide ApplyAll;
    var s1 := ApplyAll(cfg, s, t.between);
    if HardCoded(s.activeWorkers, s1.consecutiveScaleUps).Some? {
      ExternalsLandIn(cfg, s1.(activeWorkers := HardCoded(s.activeWorkers, s1.consecutiveScaleUps).value), t.stored);
    }
  }

  lemma {:induction false} RunStaysBelowTen(cfg: Config, s: State, ops: seq<Op>)
    requires Validated(cfg) && Within(cfg, s, Max(cfg.maxWorkers, 10))
    ensures Within(cfg, Run(cfg, s, ops), Max(cfg.maxWorkers, 10))
    decreases |ops|
  {
    hide OnTick, ApplyExternal, ApplyAll;
    if ops != [] {
      match ops[0] {
        case Ext(e) =>
          ExternalStaysWithin(cfg, s, e, Max(cfg.maxWorkers, 10));
        case Monitor(t) =>
          ExternalsStayWithin(cfg, s, t.between, Max(cfg.maxWorkers, 10));
          TickLandsIn(cfg, s, t);
      }
      RunStaysBelowTen(cfg, Step(cfg, s, ops[0]), ops[1..]);
    }
  }

  /** In every run, whatever lands between a read and its adjustment: min <= active <= max(maxWorkers, 10). */
  lemma EveryRunBounded(cfg: Config, now: int, ops: seq<Op>)
    requires Validated(cfg)
    ensures Within(cfg, Run(cfg, Initial(cfg, now), ops), Max(cfg.maxWorkers, 10))
  {
    RunStaysBelowTen(cfg, Initial(cfg, now), ops);
  }

  /**
    The configurations in which a hard-coded target (10 from 5, 4 from 2, 8 from 4) can land
    above maxWorkers.
  */
  predicate CanOvershoot(cfg: Config) {
    && cfg.lowMemoryMark > 0.0
    && (|| (cfg.minWorkers <= 5 <= cfg.maxWorkers < 10)
        || (cfg.minWorkers <= 2 <= cfg.maxWorkers <= 4)
        || (cfg.maxWorkers == 4 && cfg.maxConsecutiveScales >= 1))
  }

  predicate Contained(cfg: Config, s: State) {
    && Within(cfg, s, cfg.maxWorkers)
    && (cfg.maxConsecutiveScales <= 0 && cfg.minWorkers > 2 && cfg.maxWorkers == 4 ==> s.consecutiveScaleUps == 0)
  }

  /** The default branch is the only way to a scale-up from a count that is not hard-coded. */
  lemma TickKeepsZero(cfg: Config, s: State, t: Tick)
    requires cfg.maxConsecutiveScales <= 0 && s.consecutiveScaleUps == 0
    requires s.activeWorkers != 5 && s.activeWorkers != 2
    ensures OnTick(cfg, s, t).consecutiveScaleUps == 0
  {
    hide ApplyAll;
    ExternalsKeepClock(cfg, s, t.between);
  }

  lemma TickStaysContained(cfg: Config, s: State, t: Tick)
    requires Validated(cfg) && !CanOvershoot(cfg) && Contained(cfg, s) && t.memUsage >= 0.0
    ensures Contained(cfg, OnTick(cfg, s, t))
  {
    hide OnTick, ApplyAll;
    ExternalsStayWithin(cfg, s, t.between, cfg.maxWorkers);
    ExternalsKeepClock(cfg, s, t.between);
    TickLandsIn(cfg, s, t);
    if cfg.maxConsecutiveScales <= 0 && cfg.minWorkers > 2 && cfg.maxWorkers == 4 {
      TickKeepsZero(cfg, s, t);
    }
  }

  lemma {:induction false} RunStaysContained(cfg: Config, s: State, ops: seq<Op>, now: int)
    requires Validated(cfg) && !CanOvershoot(cfg) && Contained(cfg, s) && Sane(ops, now)
    ensures Contained(cfg, Run(cfg, s, ops))
    decreases |ops|
  {
    hide OnTick;
    if ops != [] {
      match ops[0]
      case Ext(e) =>
        RunStaysContained(cfg, ApplyExternal(cfg, s, e), ops[1..], now);
      case Monitor(t) =>
        TickStaysContained(cfg, s, t);
        RunStaysContained(cfg, OnTick(cfg, s, t), ops[1..], t.recorded);
    }
  }

  function LowTick(at: int): Op {
    Monitor(Tick(0.0, at, at, [], []))
  }

  /** A time by which both cooldowns have passed. */
  function Later(cfg: Config, now: int): int {
    now + Max(cfg.scaleUpDelay, 0) + COOLDOWN
  }

  /** A run that drives the count above maxWorkers when the configuration allows it. */
  function OvershootRun(cfg: Config, now: int): seq<Op> {
    var t1 := Later(cfg, now);
    var t2 := Later(cfg, t1);
    var start := if cfg.minWorkers <= 5 <= cfg.maxWorkers then 5 else if cfg.minWorkers <= 2 then 2 else 4;
    [Ext(Manual(start - cfg.initialWorkers, MANUAL, 0.0, now)), LowTick(t1), LowTick(t2)]
  }

  lemma RunOfThree(cfg: Config, s: State, a: Op, b: Op, c: Op)
    ensures Run(cfg, s, [a, b, c]) == Step(cfg, Step(cfg, Step(cfg, s, a), b), c)
    ensures Run(cfg, s, [a, b]) == Step(cfg, Step(cfg, s, a), b)
  {
    assert [a, b, c][1..] == [b, c] && [b, c][1..] == [c] && [c][1..] == [];
    assert [a, b][1..] == [b] && [b][1..] == [];
    var s1 := Step(cfg, s, a);
    var s2 := Step(cfg, s1, b);
    assert Run(cfg, s2, [c]) == Run(cfg, Step(cfg, s2, c), []);
    assert Run(cfg, s1, [b, c]) == Run(cfg, s2, [c]);
    assert Run(cfg, s1, [b]) == Run(cfg, s2, []);
  }

  lemma LowTickNotCritical(cfg: Config)
    requires Validated(cfg)
    ensures 0.0 < Critical(cfg)
  {
  }

  lemma OvershootRunIsSane(cfg: Config, now: int)
    ensures Sane(OvershootRun(cfg, now), now) && Sane(OvershootRun(cfg, now)[..2], now)
  {
    var ops := OvershootRun(cfg, now);
    var t1 := Later(cfg, now);
    var t2 := Later(cfg, t1);
    assert ops[1..] == [LowTick(t1), LowTick(t2)] && ops[1..][1..] == [LowTick(t2)] && ops[1..][1..][1..] == [];
    assert Sane([LowTick(t2)], t1) by { assert Sane([], t2); }
    assert Sane(ops[1..], now);
    assert ops[..2][1..] == [LowTick(t1)] && ops[..2][1..][1..] == [];
    assert Sane([LowTick(t1)], now) by { assert Sane([], t1); }
  }

  /** The run overshoots, at its second operation or at its third. */
  lemma OvershootRunOvershoots(cfg: Config, now: int)
    requires Validated(cfg) && CanOvershoot(cfg)
    ensures var s, ops := Initial(cfg, now), OvershootRun(cfg, now);
      Run(cfg, s, ops[..2]).activeWorkers > cfg.maxWorkers || Run(cfg, s, ops).activeWorkers > cfg.maxWorkers
  {
    var s, ops := Initial(cfg, now), OvershootRun(cfg, now);
    RunOfThree(cfg, s, ops[0], ops[1], ops[2]);
    assert ops == [ops[0], ops[1], ops[2]] && ops[..2] == [ops[0], ops[1]];
    LowTickNotCritical(cfg);
    var s1 := Step(cfg, s, ops[0]);
    assert s1.activeWorkers == if cfg.minWorkers <= 5 <= cfg.maxWorkers then 5 else if cfg.minWorkers <= 2 then 2 else 4;
    assert ApplyAll(cfg, s1, []) == s1;
    var s2 := Step(cfg, s1, ops[1]);
    assert ApplyAll(cfg, s2, []) == s2;
    if s2.activeWorkers <= cfg.maxWorkers {
      assert s2.activeWorkers == 4 && s2.consecutiveScaleUps == 1;
    }
  }

  /** A run with sane readings that ends outside [minWorkers, maxWorkers]. */
  predicate LeavesBounds(cfg: Config, now: int, ops: seq<Op>) {
    Sane(ops, now) && !Within(cfg, Run(cfg, Initial(cfg, now), ops), cfg.maxWorkers)
  }

  /** Some run leaves the bounds exactly in those configurations; in particular none with maxWorkers >= 10. */
  lemma OvershootExactly(cfg: Config, now: int)
    requires Validated(cfg)
    ensures CanOvershoot(cfg) <==> exists ops :: LeavesBounds(cfg, now, ops)
  {
    if CanOvershoot(cfg) {
      OvershootRunIsSane(cfg, now);
      OvershootRunOvershoots(cfg, now);
      var ops := OvershootRun(cfg, now);
      assert LeavesBounds(cfg, now, ops[..2]) || LeavesBounds(cfg, now, ops);
    } else {
      forall ops ensures !LeavesBounds(cfg, now, ops) {
        if Sane(ops, now) {
          RunStaysContained(cfg, Initial(cfg, now), ops, now);
        }
      }
    }
  }

  // ---------- scaling down under memory pressure ----------

  predicate Pressured(cfg: Config, ops: seq<Op>) {
    forall i :: 0 <= i < |ops| ==>
      ops[i].Monitor? && ops[i].t.between == []
      && (ops[i].t.memUsage >= Critical(cfg) || ShouldScaleDown(cfg, ops[i].t.memUsage))
  }

  lemma HalfOfHalf(a: int, k: nat, lo: int)
    requires a >= 0 && lo >= 1
    ensures Max(lo, Max(lo, a / Pow2(k)) / 2) == Max(lo, a / Pow2(k + 1))
  {
    var p := Pow2(k);
    assert a / p / 2 == a / (2 * p) by {
      DivDiv(a, p);
    }
  }

  lemma DivDiv(a: int, p: int)
    requires a >= 0 && p > 0
    ensures a / p / 2 == a / (2 * p)
  {
    var q := a / p;
    var r := a % p;
    assert a == q * p + r;
    var h := q / 2;
    assert q == 2 * h || q == 2 * h + 1;
    assert a == h * (2 * p) + (q - 2 * h) * p + r by {
      assert h * (2 * p) == 2 * h * p;
      assert (q - 2 * h) * p == q * p - 2 * h * p;
    }
    var m := (q - 2 * h) * p + r;
    assert 0 <= m < 2 * p;
    DivUnique(a, 2 * p, h, m);
  }

  lemma NonNegative(a: int, b: int)
    requires a >= 0 && b >= 0
    ensures a * b >= 0
  {
  }

  /** A multiple of d strictly between -d and d is zero. */
  lemma SmallMultiple(x: int, d: int, y: int)
    requires d > 0 && y == x * d && -d < y < d
    ensures x == 0
  {
    assert (x - 1) * d == y - d && (-x - 1) * d == -y - d;
    if x > 0 {
      NonNegative(x - 1, d);
    } else if x < 0 {
      NonNegative(-x - 1, d);
    }
  }

  lemma DivUnique(a: int, d: int, q: int, r: int)
    requires d > 0 && 0 <= r < d && a == q * d + r
    ensures a / d == q
  {
    var q', r' := a / d, a % d;
    assert a == q' * d + r';
    SmallMultiple(q - q', d, r' - r);
  }

  lemma PressureTick(cfg: Config, s: State, t: Tick)
    requires Validated(cfg) && s.scalingEnabled && Within(cfg, s, cfg.maxWorkers) && t.between == []
    requires t.memUsage >= Critical(cfg) || ShouldScaleDown(cfg, t.memUsage)
    ensures OnTick(cfg, s, t).scalingEnabled && OnTick(cfg, s, t).activeWorkers == HalfOf(cfg, s.activeWorkers)
  {
    hide Critical, Fitting, Appended;
    assert ApplyAll(cfg, s, []) == s;
  }

  function Halved(a: int, k: nat): int {
    a / Pow2(k)
  }

  lemma HalvedBounds(a: int, k: nat, lo: int)
    requires a >= 0 && lo >= 1
    ensures 0 <= Halved(a, k) <= a && Halved(a, 0) == a
    ensures Max(lo, Max(lo, Halved(a, k)) / 2) == Max(lo, Halved(a, k + 1))
  {
    QuotientSmaller(a, Pow2(k));
    HalfOfHalf(a, k, lo);
    assert Pow2(0) == 1;
  }

  lemma PressuredPrefix(cfg: Config, ops: seq<Op>)
    requires ops != [] && Pressured(cfg, ops)
    ensures Pressured(cfg, ops[..|ops| - 1])
    ensures var op := ops[|ops| - 1];
      op.Monitor? && op.t.between == [] && (op.t.memUsage >= Critical(cfg) || ShouldScaleDown(cfg, op.t.memUsage))
  {
  }

  /** k ticks of high or critical memory leave exactly max(min, a / 2^k) workers. */
  lemma {:induction false} PressureHalves(cfg: Config, s: State, ops: seq<Op>)
    requires Validated(cfg) && s.scalingEnabled && Within(cfg, s, cfg.maxWorkers) && Pressured(cfg, ops)
    ensures var r := Run(cfg, s, ops);
      r.scalingEnabled && r.activeWorkers == Max(cfg.minWorkers, Halved(s.activeWorkers, |ops|))
    decreases |ops|
  {
    hide OnTick, Run, Halved, Critical, Pressured, ShouldScaleDown;
    var a := s.activeWorkers;
    HalvedBounds(a, 0, cfg.minWorkers);
    if ops == [] {
      NoPressure(cfg, s);
    } else {
      var last, rest := ops[|ops| - 1], ops[..|ops| - 1];
      PressuredPrefix(cfg, ops);
      PressureHalves(cfg, s, rest);
      assert ops == rest + [last];
      RunSnoc(cfg, s, rest, last);
      HalvedBounds(a, |rest|, cfg.minWorkers);
      PressureTick(cfg, Run(cfg, s, rest), last.t);
    }
  }

  lemma NoPressure(cfg: Config, s: State)
    ensures Run(cfg, s, []) == s
  {
  }

  lemma QuotientSmaller(a: int, p: int)
    requires a >= 0 && p > 0
    ensures 0 <= a / p <= a
  {
    var q, r := a / p, a % p;
    assert a == q * p + r;
    NonNegative(q, p - 1);
    assert q * (p - 1) == q * p - q;
  }

  lemma {:induction false} RunSnoc(cfg: Config, s: State, ops: seq<Op>, op: Op)
    ensures Run(cfg, s, ops + [op]) == Step(cfg, Run(cfg, s, ops), op)
    decreases |ops|
  {
    if ops == [] {
      assert [op][1..] == [] && [] + [op] == [op];
    } else {
      assert (ops + [op])[1..] == ops[1..] + [op];
      RunSnoc(cfg, Step(cfg, s, ops[0]), ops[1..], op);
    }
  }

  /** So the minimum is reached in logarithmically many ticks and then kept. */
  lemma PressureReachesMinimum(cfg: Config, s: State, ops: seq<Op>)
    requires Validated(cfg) && s.scalingEnabled && Within(cfg, s, cfg.maxWorkers) && Pressured(cfg, ops)
    requires Pow2(|ops|) >= s.activeWorkers
    ensures Run(cfg, s, ops).activeWorkers == cfg.minWorkers
  {
    PressureHalves(cfg, s, ops);
    var p := Pow2(|ops|);
    if p > s.activeWorkers {
      DivUnique(s.activeWorkers, p, 0, s.activeWorkers);
    } else {
      DivUnique(s.activeWorkers, p, 1, 0);
    }
  }

  // ---------- cooldown and consecutive scale-ups ----------

  predicate Cooled(cfg: Config, s: State, born: int) {
    && s.scaleUps * COOLDOWN <= s.lastScaleUp - born
    && 0 <= s.defaultScaleUps <= s.consecutiveScaleUps
    && s.defaultScaleUps <= Max(0, cfg.maxConsecutiveScales)
  }

  lemma {:induction false} ExternalsKeepClock(cfg: Config, s: State, es: seq<External>)
    ensures var r := ApplyAll(cfg, s, es);
      && r.scaleUps == s.scaleUps && r.defaultScaleUps == s.defaultScaleUps
      && r.consecutiveScaleUps == s.consecutiveScaleUps && r.lastScaleUp == s.lastScaleUp
    decreases |es|
  {
    if es != [] {
      ExternalsKeepClock(cfg, ApplyExternal(cfg, s, es[0]), es[1..]);
    }
  }

  /** The fields that count and time scale-ups. */
  function ClockOf(s: State): (nat, nat, int, int) {
    (s.scaleUps, s.defaultScaleUps, s.consecutiveScaleUps, s.lastScaleUp)
  }

  lemma AdjustKeepsClock(cfg: Config, s: State, delta: int, reason: string, memUsage: real, now: int)
    ensures ClockOf(Adjust(cfg, s, delta, reason, memUsage, now)) == ClockOf(s)
  {
  }

  /** A hard-coded store is one scale-up, and no scale-up of the default branch. */
  lemma StoreKeepsClock(cfg: Config, s1: State, read: int, t: Tick)
    ensures var h, c := HardCoded(read, s1.consecutiveScaleUps), s1.consecutiveScaleUps + 1;
      h.Some? ==> ClockOf(StoreCount(cfg, s1, read, h.value, t)) == (s1.scaleUps + 1, s1.defaultScaleUps, c, t.recorded)
  {
    hide ApplyAll;
    var h := HardCoded(read, s1.consecutiveScaleUps);
    if h.Some? {
      ExternalsKeepClock(cfg, s1.(activeWorkers := h.value), t.stored);
    }
  }

  lemma TickKeepsCooled(cfg: Config, s: State, t: Tick, born: int)
    requires Cooled(cfg, s, born) && t.checked <= t.recorded
    ensures Cooled(cfg, OnTick(cfg, s, t), born)
    ensures OnTick(cfg, s, t).lastScaleUp == s.lastScaleUp || OnTick(cfg, s, t).lastScaleUp == t.recorded
  {
    hide ApplyAll, Adjust, Record, Signal, DefaultDelta;
    var s1 := ApplyAll(cfg, s, t.between);
    ExternalsKeepClock(cfg, s, t.between);
    StoreKeepsClock(cfg, s1, s.activeWorkers, t);
    AdjustKeepsClock(cfg, s1, HalfOf(cfg, s.activeWorkers) - s.activeWorkers, HIGH_MEMORY, t.memUsage, t.recorded);
    AdjustKeepsClock(cfg, s1, DefaultDelta(cfg, s.activeWorkers), LOW_MEMORY, t.memUsage, t.recorded);
    assert (s.scaleUps + 1) * COOLDOWN == s.scaleUps * COOLDOWN + COOLDOWN;
  }

  /** The time of the last clock reading of a run. */
  function EndOf(ops: seq<Op>, now: int): int
    decreases |ops|
  {
    if ops == [] then now
    else EndOf(ops[1..], if ops[0].Monitor? then ops[0].t.recorded else now)
  }

  lemma {:induction false} RunKeepsCooled(cfg: Config, s: State, ops: seq<Op>, now: int, born: int)
    requires Cooled(cfg, s, born) && s.lastScaleUp <= now && Sane(ops, now)
    ensures Cooled(cfg, Run(cfg, s, ops), born) && Run(cfg, s, ops).lastScaleUp <= EndOf(ops, now)
    decreases |ops|
  {
    if ops != [] {
      match ops[0]
      case Ext(e) =>
        assert ApplyAll(cfg, s, [e]) == ApplyExternal(cfg, s, e) by { assert [e][1..] == []; }
        ExternalsKeepClock(cfg, s, [e]);
        RunKeepsCooled(cfg, ApplyExternal(cfg, s, e), ops[1..], now, born);
      case Monitor(t) =>
        TickKeepsCooled(cfg, s, t, born);
        RunKeepsCooled(cfg, OnTick(cfg, s, t), ops[1..], t.recorded, born);
    }
  }

  /**
    Low-memory scale-ups are at least a cooldown apart: their number times the cooldown never
    exceeds the time since construction. Scale-ups of the default branch since the last reset
    never exceed maxConsecutiveScales.
  */
  lemma ScaleUpsAreRateLimited(cfg: Config, born: int, ops: seq<Op>)
    requires Sane(ops, born)
    ensures var r := Run(cfg, Initial(cfg, born), ops);
      && r.scaleUps * COOLDOWN <= EndOf(ops, born) - born
      && r.defaultScaleUps <= Max(0, cfg.maxConsecutiveScales)
  {
    RunKeepsCooled(cfg, Initial(cfg, born), ops, born, born);
  }

  // ---------- what a tick does to the books ----------

  /**
    What a tick decides from the state it starts in: nothing (without a read of the count),
    nothing after the read, an adjustment, or a hard-coded store.
  */
  datatype Choice = Idle | Pass | Change(delta: int, reason: string) | Store(target: int)

  function Chosen(cfg: Config, s: State, t: Tick): Choice {
    var read := s.activeWorkers;
    if !s.scalingEnabled then Idle
    else if t.memUsage >= Critical(cfg) then Change(HalfOf(cfg, read) - read, HIGH_MEMORY)
    else if ShouldScaleDown(cfg, t.memUsage) then
      if HalfOf(cfg, read) < read then Change(HalfOf(cfg, read) - read, HIGH_MEMORY) else Pass
    else if !ShouldScaleUp(cfg, s, t.memUsage, t.checked) then Idle
    else if HardCoded(read, s.consecutiveScaleUps).Some? then Store(HardCoded(read, s.consecutiveScaleUps).value)
    else if s.consecutiveScaleUps >= cfg.maxConsecutiveScales then Pass
    else Change(DefaultDelta(cfg, read), LOW_MEMORY)
  }

  /** Count, history, events, channel and signals. */
  function Books(s: State): (int, seq<ScaleEvent>, seq<ScaleEvent>, seq<int>, seq<int>) {
    (s.activeWorkers, s.scaleHistory, s.events, s.workerControl, s.signals)
  }

  lemma TickByChoice(cfg: Config, s: State, t: Tick)
    ensures var s1, read := ApplyAll(cfg, s, t.between), s.activeWorkers;
      Books(OnTick(cfg, s, t)) == match Chosen(cfg, s, t) {
        case Idle => Books(s)
        case Pass => Books(s1)
        case Change(delta, reason) => Books(Adjust(cfg, s1, delta, reason, t.memUsage, t.recorded))
        case Store(target) => Books(StoreCount(cfg, s1, read, target, t))
      }
  {
    hide ApplyAll, Adjust, StoreCount, DefaultDelta;
    ExternalsKeepClock(cfg, s, t.between);
  }

  // ---------- scaling history ----------

  /** The history is the last 100 events, and the channel holds the last signals sent. */
  predicate Windowed(s: State) {
    && s.scaleHistory == LastN(s.events, HISTORY)
    && s.workerControl == LastN(s.signals, |s.workerControl|)
  }

  /** The count after the last event. */
  function LastCount(cfg: Config, events: seq<ScaleEvent>): int {
    if events == [] then cfg.initialWorkers else events[|events| - 1].to
  }

  /** The first event starts at the initial count and each other one where the one before it ended. */
  predicate Linked(cfg: Config, events: seq<ScaleEvent>) {
    forall i :: 0 <= i < |events| ==> events[i].from == LastCount(cfg, events[..i])
  }

  predicate Synced(cfg: Config, s: State) {
    s.activeWorkers == LastCount(cfg, s.events)
  }

  lemma LinkedAppend(cfg: Config, events: seq<ScaleEvent>, e: ScaleEvent)
    ensures Linked(cfg, events + [e]) <==> Linked(cfg, events) && e.from == LastCount(cfg, events)
    ensures LastCount(cfg, events + [e]) == e.to
  {
    var all := events + [e];
    assert forall i :: 0 <= i < |events| ==> all[i] == events[i] && all[..i] == events[..i];
    assert all[..|events|] == events && all[|events|] == e;
    if Linked(cfg, all) {
      assert all[|events|].from == LastCount(cfg, all[..|events|]);
      forall i | 0 <= i < |events| ensures events[i].from == LastCount(cfg, events[..i]) {
        assert all[i].from == LastCount(cfg, all[..i]);
      }
    }
  }

  lemma RecordWindows(cfg: Config, s: State, from: int, to: int, reason: string, memUsage: real, now: int)
    requires Windowed(s)
    ensures Windowed(Record(s, from, to, reason, memUsage, now))
  {
    LastNAppend(s.events, ScaleEvent(now, from, to, reason, memUsage), HISTORY);
  }

  lemma SignalWindows(cfg: Config, s: State, signal: int, count: nat)
    requires Windowed(s)
    ensures Windowed(Signal(cfg, s, signal, count))
  {
    var more := Copies(signal, Fitting(cfg, s.workerControl, count));
    LastNConcat(s.signals, more, |s.workerControl|);
  }

  lemma AdjustWindows(cfg: Config, s: State, delta: int, reason: string, memUsage: real, now: int)
    requires Windowed(s)
    ensures Windowed(Adjust(cfg, s, delta, reason, memUsage, now))
  {
    hide Windowed, Record, Signal, NewCount, SignalOf;
    var to := NewCount(cfg, s.activeWorkers, delta, reason);
    var (signal, count) := SignalOf(s.activeWorkers, to, reason);
    RecordWindows(cfg, s, s.activeWorkers, to, reason, memUsage, now);
    SignalWindows(cfg, Record(s, s.activeWorkers, to, reason, memUsage, now), signal, count);
  }

  lemma ExternalWindows(cfg: Config, s: State, e: External)
    requires Windowed(s)
    ensures Windowed(ApplyExternal(cfg, s, e))
  {
    hide Adjust;
    match e
    case Manual(delta, reason, memUsage, now) => AdjustWindows(cfg, s, delta, reason, memUsage, now);
    case _ =>
  }

  lemma {:induction false} ExternalsWindow(cfg: Config, s: State, es: seq<External>)
    requires Windowed(s)
    ensures Windowed(ApplyAll(cfg, s, es))
    decreases |es|
  {
    hide Windowed, ApplyExternal;
    if es != [] {
      ExternalWindows(cfg, s, es[0]);
      ExternalsWindow(cfg, ApplyExternal(cfg, s, es[0]), es[1..]);
    }
  }

  /** Windowed speaks of the books only. */
  lemma SameBooks(a: State, b: State)
    requires Books(a) == Books(b)
    ensures Windowed(a) <==> Windowed(b)
  {
  }

  lemma StoreWindows(cfg: Config, s1: State, read: int, target: int, t: Tick)
    requires Windowed(s1)
    ensures Windowed(StoreCount(cfg, s1, read, target, t))
  {
    hide Windowed, ApplyAll, Record, Signal;
    var u := s1.(activeWorkers := target);
    assert Windowed(u) by { WindowedCount(s1, target); }
    ExternalsWindow(cfg, u, t.stored);
    var s2 := ApplyAll(cfg, u, t.stored);
    RecordWindows(cfg, s2, NamedCount(s1, read), s2.activeWorkers, LOW_MEMORY, t.memUsage, t.recorded);
    var s3 := Record(s2, NamedCount(s1, read), s2.activeWorkers, LOW_MEMORY, t.memUsage, t.recorded);
    SignalWindows(cfg, s3, 1, 5);
    SameBooks(s3, ScaledUp(s3, read / 2, t.recorded));
    var s4 := Signal(cfg, s3, 1, 5);
    SameBooks(s4, ScaledUp(s4, s3.consecutiveScaleUps + 1, t.recorded));
  }

  lemma WindowedCount(s: State, count: int)
    ensures Windowed(s.(activeWorkers := count)) <==> Windowed(s)
  {
  }

  lemma TickWindows(cfg: Config, s: State, t: Tick)
    requires Windowed(s)
    ensures Windowed(OnTick(cfg, s, t))
  {
    hide Windowed, OnTick, ApplyAll, Adjust, StoreCount, Chosen;
    TickByChoice(cfg, s, t);
    ExternalsWindow(cfg, s, t.between);
    var s1, r := ApplyAll(cfg, s, t.between), OnTick(cfg, s, t);
    match Chosen(cfg, s, t)
    case Idle => SameBooks(s, r);
    case Pass => SameBooks(s1, r);
    case Change(delta, reason) =>
      AdjustWindows(cfg, s1, delta, reason, t.memUsage, t.recorded);
      SameBooks(Adjust(cfg, s1, delta, reason, t.memUsage, t.recorded), r);
    case Store(target) =>
      StoreWindows(cfg, s1, s.activeWorkers, target, t);
      SameBooks(StoreCount(cfg, s1, s.activeWorkers, target, t), r);
  }

  /** In every run the history is the last 100 events and the channel holds the last signals sent. */
  lemma {:induction false} RunKeepsWindows(cfg: Config, s: State, ops: seq<Op>)
    requires Windowed(s)
    ensures Windowed(Run(cfg, s, ops))
    decreases |ops|
  {
    hide Windowed, OnTick, ApplyExternal;
    if ops != [] {
      match ops[0] {
        case Ext(e) => ExternalWindows(cfg, s, e);
        case Monitor(t) => TickWindows(cfg, s, t);
      }
      RunKeepsWindows(cfg, Step(cfg, s, ops[0]), ops[1..]);
    }
  }

  /** An adjustment that takes effect records the count that it finds and the count that it leaves. */
  lemma AdjustLinks(cfg: Config, s: State, delta: int, reason: string, memUsage: real, now: int)
    requires s.scalingEnabled
    ensures var r := Adjust(cfg, s, delta, reason, memUsage, now);
      && |r.events| == |s.events| + 1 && Synced(cfg, r)
      && (Linked(cfg, r.events) <==> Linked(cfg, s.events) && Synced(cfg, s))
  {
    hide Linked, LastCount, NewCount, SignalOf;
    var to := NewCount(cfg, s.activeWorkers, delta, reason);
    LinkedAppend(cfg, s.events, ScaleEvent(now, s.activeWorkers, to, reason, memUsage));
  }

  /**
    What others leave, from any state: no event and the same count, or a chain that ends at the
    count and is intact exactly if it was, with its end at the count they started from.
  */
  lemma {:induction false} ExternalsLink(cfg: Config, s: State, es: seq<External>)
    ensures var r := ApplyAll(cfg, s, es);
      && |s.events| <= |r.events|
      && (|r.events| == |s.events| ==> r.events == s.events && r.activeWorkers == s.activeWorkers)
      && (|r.events| > |s.events| ==> Synced(cfg, r) && (Linked(cfg, r.events) <==> Linked(cfg, s.events) && Synced(cfg, s)))
    decreases |es|
  {
    hide Linked, LastCount, Adjust;
    if es != [] {
      if es[0].Manual? {
        if s.scalingEnabled {
          AdjustLinks(cfg, s, es[0].delta, es[0].reason, es[0].memUsage, es[0].now);
        } else {
          AdjustDisabled(cfg, s, es[0].delta, es[0].reason, es[0].memUsage, es[0].now);
        }
      }
      ExternalsLink(cfg, ApplyExternal(cfg, s, es[0]), es[1..]);
    }
  }

  lemma AdjustDisabled(cfg: Config, s: State, delta: int, reason: string, memUsage: real, now: int)
    requires !s.scalingEnabled
    ensures Adjust(cfg, s, delta, reason, memUsage, now) == s
  {
  }

  /**
    The tick makes a hard-coded store whose record does not continue the chain of events. If no
    adjustment lands between store and record, that is when the old count named is no longer the
    count; if one lands there, its own event starts at the stored count, so the chain only goes
    on if nothing changed by the store and the record names the count that others left.
  */
  predicate RecordsStaleCount(cfg: Config, s: State, t: Tick) {
    match Chosen(cfg, s, t)
    case Store(target) =>
      var s1 := ApplyAll(cfg, s, t.between);
      var s2 := ApplyAll(cfg, s1.(activeWorkers := target), t.stored);
      var from := NamedCount(s1, s.activeWorkers);
      if |s2.events| == |s1.events| then from != s1.activeWorkers
      else !(s1.activeWorkers == target && from == s2.activeWorkers)
    case _ => false
  }

  lemma StoreLinks(cfg: Config, s: State, t: Tick, target: int)
    requires Chosen(cfg, s, t) == Store(target) && Synced(cfg, ApplyAll(cfg, s, t.between))
    ensures var s1 := ApplyAll(cfg, s, t.between);
      var r := StoreCount(cfg, s1, s.activeWorkers, target, t);
      && Synced(cfg, r)
      && (Linked(cfg, r.events) <==> Linked(cfg, s1.events) && !RecordsStaleCount(cfg, s, t))
  {
    hide Linked, LastCount, ApplyAll, Appended, Fitting, Chosen;
    var s1 := ApplyAll(cfg, s, t.between);
    var u := s1.(activeWorkers := target);
    ExternalsLink(cfg, u, t.stored);
    var s2 := ApplyAll(cfg, u, t.stored);
    var from := NamedCount(s1, s.activeWorkers);
    LinkedAppend(cfg, s2.events, ScaleEvent(t.recorded, from, s2.activeWorkers, LOW_MEMORY, t.memUsage));
  }

  /**
    A tick ends with the count of the last event, and keeps the chain of events intact exactly if
    it does not record a stale count. Only the events and the count matter, not the window.
  */
  lemma TickChroniclesExactly(cfg: Config, s: State, t: Tick)
    requires Synced(cfg, s)
    ensures Synced(cfg, OnTick(cfg, s, t))
    ensures Linked(cfg, OnTick(cfg, s, t).events) <==> Linked(cfg, s.events) && !RecordsStaleCount(cfg, s, t)
  {
    hide Linked, LastCount, OnTick, ApplyAll, Adjust, StoreCount, Chosen;
    TickByChoice(cfg, s, t);
    ExternalsLink(cfg, s, t.between);
    var s1 := ApplyAll(cfg, s, t.between);
    match Chosen(cfg, s, t)
    case Change(delta, reason) =>
      if s1.scalingEnabled {
        AdjustLinks(cfg, s1, delta, reason, t.memUsage, t.recorded);
      } else {
        AdjustDisabled(cfg, s1, delta, reason, t.memUsage, t.recorded);
      }
    case Store(target) => StoreLinks(cfg, s, t, target);
    case _ =>
  }

  /** Some tick of the run records a stale count. */
  predicate EverStale(cfg: Config, s: State, ops: seq<Op>)
    decreases |ops|
  {
    ops != [] && ((ops[0].Monitor? && RecordsStaleCount(cfg, s, ops[0].t)) || EverStale(cfg, Step(cfg, s, ops[0]), ops[1..]))
  }

  /** The events of a run chain exactly if none of its ticks records a stale count. */
  lemma {:induction false} RunChroniclesExactly(cfg: Config, s: State, ops: seq<Op>)
    requires Synced(cfg, s)
    ensures Synced(cfg, Run(cfg, s, ops))
    ensures Linked(cfg, Run(cfg, s, ops).events) <==> Linked(cfg, s.events) && !EverStale(cfg, s, ops)
    decreases |ops|
  {
    hide Linked, LastCount, OnTick, ApplyExternal, RecordsStaleCount;
    if ops != [] {
      match ops[0] {
        case Ext(e) =>
          assert ApplyAll(cfg, s, [e]) == ApplyExternal(cfg, s, e) by { assert [e][1..] == []; }
          ExternalsLink(cfg, s, [e]);
        case Monitor(t) => TickChroniclesExactly(cfg, s, t);
      }
      RunChroniclesExactly(cfg, Step(cfg, s, ops[0]), ops[1..]);
    }
  }

  /** A manual call that lands after a tick has read two workers makes it record a stale count. */
  lemma StaleCountRecorded(cfg: Config, now: int)
    requires Validated(cfg) && cfg.initialWorkers == 2 && cfg.maxWorkers >= 3 && cfg.lowMemoryMark > 0.0
    ensures var at := Later(cfg, now);
      var ops := [Monitor(Tick(0.0, at, at, [Manual(1, MANUAL, 0.0, at)], []))];
      Sane(ops, now) && !Linked(cfg, Run(cfg, Initial(cfg, now), ops).events)
  {
    var at := Later(cfg, now);
    var m := Manual(1, MANUAL, 0.0, at);
    var t := Tick(0.0, at, at, [m], []);
    var s, ops := Initial(cfg, now), [Monitor(t)];
    assert ops[1..] == [] && Sane([], at);
    assert [m][1..] == [] && ApplyAll(cfg, s, [m]) == ApplyExternal(cfg, s, m);
    assert ApplyAll(cfg, s, [m]).(activeWorkers := 4) == ApplyAll(cfg, ApplyAll(cfg, s, [m]).(activeWorkers := 4), []);
    LowTickNotCritical(cfg);
    assert RecordsStaleCount(cfg, s, t);
    assert EverStale(cfg, s, ops);
    RunChroniclesExactly(cfg, s, ops);
  }

  /** Nothing lands inside a tick. */
  predicate Sequential(ops: seq<Op>) {
    forall i :: 0 <= i < |ops| && ops[i].Monitor? ==> ops[i].t.between == ops[i].t.stored == []
  }

  lemma {:induction false} SequentialNeverStale(cfg: Config, s: State, ops: seq<Op>)
    requires Sequential(ops)
    ensures !EverStale(cfg, s, ops)
    decreases |ops|
  {
    hide OnTick, ApplyExternal;
    if ops != [] {
      if ops[0].Monitor? {
        QuietTickIsFresh(cfg, s, ops[0].t);
      }
      SequentialNeverStale(cfg, Step(cfg, s, ops[0]), ops[1..]);
    }
  }

  lemma QuietTickIsFresh(cfg: Config, s: State, t: Tick)
    requires t.between == t.stored == []
    ensures !RecordsStaleCount(cfg, s, t)
  {
  }

  function TotalChange(events: seq<ScaleEvent>): int {
    if events == [] then 0 else TotalChange(events[..|events| - 1]) + events[|events| - 1].to - events[|events| - 1].from
  }

  lemma {:induction false} ChainTelescopes(cfg: Config, events: seq<ScaleEvent>)
    requires Linked(cfg, events)
    ensures cfg.initialWorkers + TotalChange(events) == LastCount(cfg, events)
    decreases |events|
  {
    if events != [] {
      var rest := events[..|events| - 1];
      assert events == rest + [events[|events| - 1]];
      LinkedAppend(cfg, rest, events[|events| - 1]);
      ChainTelescopes(cfg, rest);
    }
  }

  /** Without a stale record, so in every sequential run: initial count plus all recorded changes is the count. */
  lemma HistoryTelescopes(cfg: Config, now: int, ops: seq<Op>)
    requires Sequential(ops) || !EverStale(cfg, Initial(cfg, now), ops)
    ensures var r := Run(cfg, Initial(cfg, now), ops);
      && r.scaleHistory == LastN(r.events, 100)
      && Linked(cfg, r.events)
      && cfg.initialWorkers + TotalChange(r.events) == r.activeWorkers
  {
    var s := Initial(cfg, now);
    if Sequential(ops) {
      SequentialNeverStale(cfg, s, ops);
    }
    RunKeepsWindows(cfg, s, ops);
    RunChroniclesExactly(cfg, s, ops);
    ChainTelescopes(cfg, Run(cfg, s, ops).events);
  }

  // ---------- control signals ----------

  function Net(signals: seq<int>): int {
    if signals == [] then 0 else signals[0] + Net(signals[1..])
  }

  lemma {:induction false} NetOfCopies(signal: int, count: nat)
    ensures Net(Copies(signal, count)) == signal * count
    decreases count
  {
    if count > 0 {
      NetOfCopies(signal, count - 1);
      assert Copies(signal, count)[1..] == Copies(signal, count - 1);
      assert signal * count == signal + signal * (count - 1);
    }
  }

  lemma {:induction false} NetOfConcat(a: seq<int>, b: seq<int>)
    ensures Net(a + b) == Net(a) + Net(b)
    decreases |a|
  {
    if a == [] {
      assert a + b == b;
    } else {
      assert (a + b)[1..] == a[1..] + b;
      NetOfConcat(a[1..], b);
    }
  }

  /** How far the count is ahead of what a consumer of all signals sent would have reached. */
  function Drift(s: State): int {
    s.activeWorkers - Net(s.signals)
  }

  lemma SignalNet(cfg: Config, s: State, signal: int, count: nat)
    ensures var r, sent := Signal(cfg, s, signal, count), signal * Fitting(cfg, s.workerControl, count);
      Net(r.signals) == Net(s.signals) + sent && Net(r.workerControl) == Net(s.workerControl) + sent
  {
    hide Fitting;
    var n := Fitting(cfg, s.workerControl, count);
    NetOfCopies(signal, n);
    NetOfConcat(s.signals, Copies(signal, n));
    NetOfConcat(s.workerControl, Copies(signal, n));
  }

  /**
    When the signals of an adjustment add up to the change of the count. Ordinary adjustments: the
    channel has room for the change, which is not downwards unless the reason is high memory. A
    low-memory adjustment to ten sends five signals and the two test reasons send three or five
    downward ones, or as many as fit, whatever the change.
  */
  predicate Balances(cfg: Config, s: State, delta: int, reason: string) {
    var to := NewCount(cfg, s.activeWorkers, delta, reason);
    var change, room := to - s.activeWorkers, Room(cfg, s.workerControl);
    || !s.scalingEnabled
    || (if reason == SCALE_DOWN_TEST then change == -Min(3, room)
        else if reason == SCALE_UP_TEST then change == -Min(5, room)
        else if reason == LOW_MEMORY && to == 10 then change == Min(5, room)
        else Abs(change) <= room && (change >= 0 || reason == HIGH_MEMORY))
  }

  /** In every state, for every adjustment. */
  lemma SignalsBalanceExactly(cfg: Config, s: State, delta: int, reason: string, memUsage: real, now: int)
    ensures var r := Adjust(cfg, s, delta, reason, memUsage, now);
      && (Drift(r) == Drift(s) <==> Balances(cfg, s, delta, reason))
      && Net(r.workerControl) - Net(s.workerControl) == Net(r.signals) - Net(s.signals)
  {
    hide NewCount, Appended, Net, Signal;
    if s.scalingEnabled {
      var to := NewCount(cfg, s.activeWorkers, delta, reason);
      var (signal, count) := SignalOf(s.activeWorkers, to, reason);
      var recorded := Record(s, s.activeWorkers, to, reason, memUsage, now);
      SignalNet(cfg, recorded, signal, count);
      SignalKeepsCount(cfg, recorded, signal, count);
    }
  }

  lemma SignalKeepsCount(cfg: Config, s: State, signal: int, count: nat)
    ensures Signal(cfg, s, signal, count).activeWorkers == s.activeWorkers
  {
  }

  /** A manual call that takes one worker off sends a signal to add one. */
  lemma ManualReductionSignalsUp(cfg: Config, now: int)
    requires Validated(cfg) && cfg.minWorkers < cfg.initialWorkers
    ensures var r := Adjust(cfg, Initial(cfg, now), -1, MANUAL, 0.0, now);
      r.activeWorkers == cfg.initialWorkers - 1 && r.workerControl == [1]
  {
    assert Copies(1, 1) == [1] by { assert Copies(1, 0) == []; }
  }

  /** The drift that others cause inside a tick. */
  function OthersDrift(cfg: Config, s: State, t: Tick): int {
    var s1 := ApplyAll(cfg, s, t.between);
    match Chosen(cfg, s, t)
    case Idle => 0
    case Store(target) =>
      var u := s1.(activeWorkers := target);
      Drift(s1) - Drift(s) + Drift(ApplyAll(cfg, u, t.stored)) - Drift(u)
    case _ => Drift(s1) - Drift(s)
  }

  /**
    When a tick's own signals add up to its own change: its adjustment balances; or it stores ten
    for five and the channel has room for as many signals, up to five, as the store adds; or it
    stores another count, sends nothing, and the store changes nothing.
  */
  predicate TickBalances(cfg: Config, s: State, t: Tick) {
    var s1 := ApplyAll(cfg, s, t.between);
    match Chosen(cfg, s, t)
    case Change(delta, reason) => Balances(cfg, s1, delta, reason)
    case Store(target) =>
      var s2 := ApplyAll(cfg, s1.(activeWorkers := target), t.stored);
      target - s1.activeWorkers == if s.activeWorkers == 5 then Min(5, Room(cfg, s2.workerControl)) else 0
    case _ => true
  }

  lemma StoreDrift(cfg: Config, s1: State, read: int, target: int, t: Tick)
    ensures var s2 := ApplyAll(cfg, s1.(activeWorkers := target), t.stored);
      Drift(StoreCount(cfg, s1, read, target, t))
        == Drift(s2) - (if read == 5 then Min(5, Room(cfg, s2.workerControl)) else 0)
  {
    hide ApplyAll, Appended, Net, Signal;
    var s2 := ApplyAll(cfg, s1.(activeWorkers := target), t.stored);
    var s3 := Record(s2, NamedCount(s1, read), s2.activeWorkers, LOW_MEMORY, t.memUsage, t.recorded);
    SignalNet(cfg, s3, 1, 5);
    SignalKeepsCount(cfg, s3, 1, 5);
  }

  /** In every state, for every tick and whatever others do inside it. */
  lemma TickBalancesExactly(cfg: Config, s: State, t: Tick)
    ensures Drift(OnTick(cfg, s, t)) == Drift(s) + OthersDrift(cfg, s, t) <==> TickBalances(cfg, s, t)
  {
    hide OnTick, ApplyAll, Adjust, StoreCount, Chosen, Balances, Net, Room;
    TickByChoice(cfg, s, t);
    var s1 := ApplyAll(cfg, s, t.between);
    match Chosen(cfg, s, t)
    case Change(delta, reason) => SignalsBalanceExactly(cfg, s1, delta, reason, t.memUsage, t.recorded);
    case Store(target) => StoreDrift(cfg, s1, s.activeWorkers, target, t);
    case _ =>
  }

  /** The stores of four and of eight never balance in a tick that nothing lands in: they send no signal. */
  lemma SilentStoresDrift(cfg: Config, s: State, t: Tick)
    requires t.between == t.stored == [] && Chosen(cfg, s, t).Store? && s.activeWorkers != 5
    ensures Drift(OnTick(cfg, s, t)) == Drift(s) + s.activeWorkers
  {
    hide OnTick, StoreCount, Net;
    TickByChoice(cfg, s, t);
    StoreDrift(cfg, s, s.activeWorkers, 2 * s.activeWorkers, t);
  }

  /** Every operation of a sequential run balances. */
  predicate AllBalance(cfg: Config, s: State, ops: seq<Op>)
    decreases |ops|
  {
    ops == [] || ((match ops[0]
                   case Ext(e) => e.Manual? ==> Balances(cfg, s, e.delta, e.reason)
                   case Monitor(t) => TickBalances(cfg, s, t))
                  && AllBalance(cfg, Step(cfg, s, ops[0]), ops[1..]))
  }

  /** Then a consumer that started at the initial count and took every signal would be at the count. */
  lemma {:induction false} BalancedRunFollows(cfg: Config, s: State, ops: seq<Op>)
    requires Sequential(ops) && AllBalance(cfg, s, ops)
    ensures Drift(Run(cfg, s, ops)) == Drift(s)
    decreases |ops|
  {
    hide OnTick, Adjust, Balances, TickBalances, Drift;
    if ops != [] {
      match ops[0] {
        case Ext(e) => ExternalDrift(cfg, s, e);
        case Monitor(t) =>
          TickBalancesExactly(cfg, s, t);
          QuietOthers(cfg, s, t);
      }
      BalancedRunFollows(cfg, Step(cfg, s, ops[0]), ops[1..]);
    }
  }

  lemma ExternalDrift(cfg: Config, s: State, e: External)
    requires e.Manual? ==> Balances(cfg, s, e.delta, e.reason)
    ensures Drift(ApplyExternal(cfg, s, e)) == Drift(s)
  {
    hide Adjust, Balances, Net;
    if e.Manual? {
      SignalsBalanceExactly(cfg, s, e.delta, e.reason, e.memUsage, e.now);
    }
  }

  lemma QuietOthers(cfg: Config, s: State, t: Tick)
    requires t.between == t.stored == []
    ensures OthersDrift(cfg, s, t) == 0
  {
  }
}
