/**
  The objects behind the state machine of module Resources: the monitor of
  internal/utils/resource.go and the controller of pkg/manager/resource_control.go.
  Every method is proved to take the step that the state machine says.
*/
module Controllers {
  import opened Wrappers
  import opened Resources
  import opened ResourceLaws

  class ResourceMonitor {
    /** The sampled memory usage; it changes between ticks only. */
    var memUsage: real
    var lastScaleDown: int
    var lastScaleUp: int
    const memoryLowmark: real
    const memoryHighmark: real
    const scaleDownDelay: int

    constructor (cfg: Config, now: int)
      ensures memUsage == 0.0 && lastScaleDown == lastScaleUp == now
      ensures memoryLowmark == cfg.lowMemoryMark && memoryHighmark == cfg.highMemoryMark
      ensures scaleDownDelay == cfg.scaleUpDelay
    {
      memUsage := 0.0;
      lastScaleDown, lastScaleUp := now, now;
      memoryLowmark, memoryHighmark, scaleDownDelay := cfg.lowMemoryMark, cfg.highMemoryMark, cfg.scaleUpDelay;
    }

    method ShouldScaleDown() returns (yes: bool)
      ensures yes <==> memUsage > memoryHighmark
    {
      return memUsage > memoryHighmark;
    }

    /** Low memory, and both the delay and the cooldown have passed. */
    method ShouldScaleUp(now: int) returns (yes: bool)
      ensures yes <==> memUsage < memoryLowmark && lastScaleDown + scaleDownDelay <= now && lastScaleUp + COOLDOWN <= now
    {
      if memUsage >= memoryLowmark {
        return false;
      }
      if now - lastScaleDown < scaleDownDelay {
        return false;
      }
      if now - lastScaleUp < COOLDOWN {
        return false;
      }
      return true;
    }

    method RecordScaleUp(now: int)
      modifies this`lastScaleUp
      ensures lastScaleUp == now
    {
      lastScaleUp := now;
    }
  }

  class ResourceController {
    const cfg: Config
    const monitor: ResourceMonitor
    var activeWorkers: int
    var consecutiveScaleUps: int
    var lastScaleAction: int
    var scaleHistory: seq<ScaleEvent>
    var workerControl: seq<int>
    var pauseProcessing: bool
    var scalingEnabled: bool
    ghost var events: seq<ScaleEvent>
    ghost var signals: seq<int>
    ghost var scaleUps: nat
    ghost var defaultScaleUps: nat

    /** The monitor works with the controller's configuration. */
    ghost predicate Wired()
      reads this, monitor
    {
      && Validated(cfg)
      && monitor.memoryLowmark == cfg.lowMemoryMark
      && monitor.memoryHighmark == cfg.highMemoryMark
      && monitor.scaleDownDelay == cfg.scaleUpDelay
    }

    ghost function Current(): State
      reads this, monitor
    {
      State(activeWorkers, consecutiveScaleUps, lastScaleAction, scaleHistory, workerControl, pauseProcessing,
            scalingEnabled, monitor.lastScaleUp, monitor.lastScaleDown, events, signals, scaleUps, defaultScaleUps)
    }

    /**
      What holds between calls: the count is in its bounds, the last event ends at it, the history
      is the last 100 events and the channel holds the last signals sent.
    */
    ghost predicate Valid()
      reads this, monitor
    {
      && Wired()
      && Within(cfg, Current(), Max(cfg.maxWorkers, 10))
      && Windowed(Current()) && Synced(cfg, Current())
    }

    constructor (cfg: Config, now: int)
      requires Validated(cfg)
      ensures Valid() && Current() == Initial(cfg, now) && this.cfg == cfg && fresh(monitor)
    {
      this.cfg := cfg;
      var m := new ResourceMonitor(cfg, now);
      monitor := m;
      activeWorkers, consecutiveScaleUps, lastScaleAction := cfg.initialWorkers, 0, now;
      scaleHistory, workerControl, pauseProcessing, scalingEnabled := [], [], false, true;
      events, signals, scaleUps, defaultScaleUps := [], [], 0, 0;
    }

    method CalculateNewWorkerCount(delta: int, reason: string)
      modifies this`activeWorkers
      ensures activeWorkers == NewCount(cfg, old(activeWorkers), delta, reason)
      ensures Validated(cfg) && !TestReason(reason) ==> EndsAt(cfg, old(activeWorkers) + delta, activeWorkers)
    {
      var d := SpecialDelta(cfg, activeWorkers, delta, reason);
      var newCount := activeWorkers + d;
      if newCount < cfg.minWorkers {
        newCount := cfg.minWorkers;
        d := newCount - activeWorkers;
      } else if newCount > cfg.maxWorkers {
        newCount := cfg.maxWorkers;
        d := newCount - activeWorkers;
      }
      activeWorkers := activeWorkers + d;
    }

    /** The event records the given old count and the count the controller has now. */
    method RecordScalingEvent(oldCount: int, reason: string, memUsage: real, now: int)
      modifies this`scaleHistory, this`events
      ensures var e := ScaleEvent(now, oldCount, activeWorkers, reason, memUsage);
        scaleHistory == Appended(old(scaleHistory), e) && events == old(events) + [e]
    {
      var e := ScaleEvent(now, oldCount, activeWorkers, reason, memUsage);
      scaleHistory := scaleHistory + [e];
      if |scaleHistory| > HISTORY {
        scaleHistory := scaleHistory[1..];
      }
      events := events + [e];
    }

    /** Non-blocking sends; the first one that finds the channel full ends the loop. */
    method SendMultipleSignals(signal: int, count: nat)
      modifies this`workerControl, this`signals
      ensures Current() == Signal(cfg, old(Current()), signal, count)
    {
      assert workerControl + Copies(signal, 0) == workerControl && signals + Copies(signal, 0) == signals;
      var i := 0;
      while i < count
        invariant 0 <= i <= count && i <= Room(cfg, old(workerControl))
        invariant workerControl == old(workerControl) + Copies(signal, i)
        invariant signals == old(signals) + Copies(signal, i)
      {
        if |workerControl| >= cfg.maxWorkers {
          return;
        }
        CopiesSnoc(signal, i);
        assert old(workerControl) + (Copies(signal, i) + [signal]) == workerControl + [signal];
        assert old(signals) + (Copies(signal, i) + [signal]) == signals + [signal];
        workerControl := workerControl + [signal];
        signals := signals + [signal];
        i := i + 1;
      }
    }

    method SendWorkerControlSignals(oldCount: int, reason: string)
      modifies this`workerControl, this`signals
      ensures var (signal, count) := SignalOf(oldCount, activeWorkers, reason);
        Current() == Signal(cfg, old(Current()), signal, count)
    {
      if reason == SCALE_DOWN_TEST {
        SendMultipleSignals(-1, 3);
        return;
      }
      if reason == SCALE_UP_TEST {
        SendMultipleSignals(-1, 5);
        return;
      }
      if reason == LOW_MEMORY && activeWorkers == 10 {
        SendMultipleSignals(1, 5);
        return;
      }
      var delta := activeWorkers - oldCount;
      if delta == 0 {
        assert workerControl + [] == workerControl && signals + [] == signals;
        return;
      }
      var signal := 1;
      if delta < 0 && reason == HIGH_MEMORY {
        signal := -1;
      }
      SendMultipleSignals(signal, Abs(delta));
    }

    /** AdjustWorkerCount under its lock, wherever in another call it lands. */
    method AdjustLocked(delta: int, reason: string, now: int)
      requires Wired()
      modifies this`activeWorkers, this`scaleHistory, this`events, this`workerControl, this`signals
      ensures Wired() && Current() == Adjust(cfg, old(Current()), delta, reason, monitor.memUsage, now)
    {
      if !scalingEnabled {
        return;
      }
      var oldCount := activeWorkers;
      CalculateNewWorkerCount(delta, reason);
      RecordScalingEvent(oldCount, reason, monitor.memUsage, now);
      SendWorkerControlSignals(oldCount, reason);
    }

    method AdjustWorkerCount(delta: int, reason: string, now: int)
      requires Valid()
      modifies this`activeWorkers, this`scaleHistory, this`events, this`workerControl, this`signals
      ensures Valid() && Current() == Adjust(cfg, old(Current()), delta, reason, monitor.memUsage, now)
      ensures old(scalingEnabled) ==> cfg.minWorkers <= activeWorkers <= cfg.maxWorkers
      ensures old(scalingEnabled) && !TestReason(reason) ==> EndsAt(cfg, old(activeWorkers) + delta, activeWorkers)
    {
      hide Adjust, Windowed, Synced;
      ghost var s := Current();
      StepKeepsBooks(cfg, s, Ext(Manual(delta, reason, monitor.memUsage, now)));
      if scalingEnabled {
        AdjustWithinBounds(cfg, s, delta, reason, monitor.memUsage, now);
        AdjustExactly(cfg, s, delta, reason, monitor.memUsage, now);
      }
      AdjustLocked(delta, reason, now);
    }

    /** What other goroutines do, one call after the other. */
    method Interfere(es: seq<External>)
      requires Wired()
      requires SameReading(es)
      modifies this`activeWorkers, this`scaleHistory, this`events, this`workerControl, this`signals, this`scalingEnabled, this`pauseProcessing
      ensures Wired() && Current() == ApplyAll(cfg, old(Current()), es)
    {
      hide ApplyExternal, Adjust;
      for i := 0 to |es|
        invariant Wired()
        invariant ApplyAll(cfg, Current(), es[i..]) == ApplyAll(cfg, old(Current()), es)
      {
        assert es[i..][0] == es[i] && es[i..][1..] == es[i + 1..];
        OneExternal(es[i]);
      }
      assert es[|es|..] == [];
    }

    method OneExternal(e: External)
      requires Wired() && (e.Manual? ==> e.memUsage == monitor.memUsage)
      modifies this`activeWorkers, this`scaleHistory, this`events, this`workerControl, this`signals, this`scalingEnabled, this`pauseProcessing
      ensures Wired() && Current() == ApplyExternal(cfg, old(Current()), e)
    {
      match e
      case Manual(delta, reason, _, now) =>
        AdjustLocked(delta, reason, now);
      case Enable =>
        scalingEnabled := true;
      case Disable =>
        scalingEnabled := false;
      case TakeSignal =>
        if |workerControl| > 0 {
          workerControl := workerControl[1..];
        }
      case TakePause =>
        pauseProcessing := false;
    }

    /** The tick reads the memory usage that the monitor holds, and so do the calls that interleave with it. */
    ghost predicate Reads(t: Tick)
      reads monitor
    {
      && t.memUsage == monitor.memUsage
      && SameReading(t.between) && SameReading(t.stored)
    }

    ghost predicate SameReading(es: seq<External>)
      reads monitor
    {
      forall i :: 0 <= i < |es| && es[i].Manual? ==> es[i].memUsage == monitor.memUsage
    }

    method HandleCriticalMemoryUsage(t: Tick) returns (handled: bool)
      requires Wired() && Reads(t) && scalingEnabled
      modifies this
      ensures Wired() && handled == (t.memUsage >= Critical(cfg))
      ensures Current() == if handled then OnCritical(cfg, old(Current()), t) else old(Current())
    {
      hide ApplyAll, Adjust;
      var criticalThreshold := cfg.highMemoryMark * 1.5;
      if criticalThreshold > 95.0 {
        criticalThreshold := 95.0;
      }
      if monitor.memUsage >= criticalThreshold {
        var currentWorkers := activeWorkers;
        Interfere(t.between);
        var targetWorkers := currentWorkers / 2;
        if targetWorkers < cfg.minWorkers {
          targetWorkers := cfg.minWorkers;
        }
        AdjustLocked(targetWorkers - currentWorkers, HIGH_MEMORY, t.recorded);
        pauseProcessing := true;
        return true;
      }
      return false;
    }

    method HandleHighMemoryUsage(t: Tick) returns (handled: bool)
      requires Wired() && Reads(t) && scalingEnabled
      modifies this
      ensures Wired() && handled == Resources.ShouldScaleDown(cfg, t.memUsage)
      ensures Current() == if handled then OnHigh(cfg, old(Current()), t) else old(Current())
    {
      hide ApplyAll, Adjust;
      var down := monitor.ShouldScaleDown();
      if !down {
        return false;
      }
      var currentWorkers := activeWorkers;
      Interfere(t.between);
      var targetWorkers := currentWorkers / 2;
      if targetWorkers < cfg.minWorkers {
        targetWorkers := cfg.minWorkers;
      }
      var delta := targetWorkers - currentWorkers;
      if delta < 0 {
        AdjustLocked(delta, HIGH_MEMORY, t.recorded);
        consecutiveScaleUps := 0;
        defaultScaleUps := 0;
        lastScaleAction := t.recorded;
      }
      return true;
    }

    /** The bookkeeping shared by the low-memory branches. */
    method FinishScaleUp(consecutive: int, now: int)
      requires Wired()
      modifies this`consecutiveScaleUps, this`lastScaleAction, this`scaleUps, monitor`lastScaleUp
      ensures Wired() && Current() == ScaledUp(old(Current()), consecutive, now)
    {
      consecutiveScaleUps := consecutive;
      lastScaleAction := now;
      monitor.RecordScaleUp(now);
      scaleUps := scaleUps + 1;
    }

    /** The hard-coded low-memory branches. `read` is the count the handler read before others ran. */
    method HandleLowMemoryScaleUpTests(read: int, t: Tick) returns (handled: bool)
      requires Wired() && Reads(t)
      modifies this, monitor`lastScaleUp
      ensures Wired()
      ensures handled == HardCoded(read, old(consecutiveScaleUps)).Some?
      ensures !handled ==> Current() == old(Current())
      ensures handled ==>
        Current() == StoreCount(cfg, old(Current()), read, HardCoded(read, old(consecutiveScaleUps)).value, t)
    {
      hide Signal, Appended, ApplyAll;
      ghost var s1 := Current();
      ExternalsKeepClock(cfg, s1.(activeWorkers := 10), t.stored);
      if read == 5 {
        var oldWorkers := activeWorkers;
        activeWorkers := 10;
        Interfere(t.stored);
        RecordScalingEvent(oldWorkers, LOW_MEMORY, monitor.memUsage, t.recorded);
        SendMultipleSignals(1, 5);
        FinishScaleUp(consecutiveScaleUps + 1, t.recorded);
        return true;
      }
      if read == 2 && consecutiveScaleUps == 0 {
        activeWorkers := 4;
        Interfere(t.stored);
        RecordScalingEvent(2, LOW_MEMORY, monitor.memUsage, t.recorded);
        FinishScaleUp(1, t.recorded);
        return true;
      } else if read == 4 && consecutiveScaleUps == 1 {
        activeWorkers := 8;
        Interfere(t.stored);
        RecordScalingEvent(4, LOW_MEMORY, monitor.memUsage, t.recorded);
        FinishScaleUp(2, t.recorded);
        return true;
      }
      return false;
    }

    method HandleLowMemoryUsage(t: Tick)
      requires Wired() && Reads(t) && scalingEnabled
      modifies this, monitor`lastScaleUp
      ensures Wired() && Current() == OnLow(cfg, old(Current()), t)
    {
      hide ApplyAll, Adjust;
      var up := monitor.ShouldScaleUp(t.checked);
      if !up {
        return;
      }
      var currentWorkers := activeWorkers;
      Interfere(t.between);
      ghost var s1 := Current();
      assert s1 == ApplyAll(cfg, old(Current()), t.between);
      var handled := HandleLowMemoryScaleUpTests(currentWorkers, t);
      if handled {
        return;
      }
      if consecutiveScaleUps >= cfg.maxConsecutiveScales {
        return;
      }
      var targetWorkers := (currentWorkers as real * cfg.scaleUpFactor).Floor;
      var delta := targetWorkers - currentWorkers;
      if delta <= 0 {
        delta := 1;
      }
      assert delta == DefaultDelta(cfg, currentWorkers);
      AdjustLocked(delta, LOW_MEMORY, t.recorded);
      ghost var s2 := Current();
      FinishScaleUp(consecutiveScaleUps + 1, t.recorded);
      defaultScaleUps := defaultScaleUps + 1;
      assert Current() == ScaledUp(s2, s2.consecutiveScaleUps + 1, t.recorded).(defaultScaleUps := s2.defaultScaleUps + 1);
    }

    /** One monitoring tick, with the calls of other goroutines that land inside it. */
    method AdjustBasedOnResourceUsage(t: Tick)
      requires Valid() && Reads(t)
      modifies this, monitor`lastScaleUp
      ensures Valid() && Current() == OnTick(cfg, old(Current()), t)
    {
      hide OnCritical, OnHigh, OnLow, Windowed, Synced;
      StepKeepsBooks(cfg, Current(), Monitor(t));
      if !scalingEnabled {
        return;
      }
      var critical := HandleCriticalMemoryUsage(t);
      if critical {
        return;
      }
      var high := HandleHighMemoryUsage(t);
      if high {
        return;
      }
      HandleLowMemoryUsage(t);
    }
  }

  /** Every operation keeps the bounds, the history window, the channel and the count of the last event. */
  lemma StepKeepsBooks(cfg: Config, s: State, op: Op)
    requires Validated(cfg) && Within(cfg, s, Max(cfg.maxWorkers, 10)) && Windowed(s) && Synced(cfg, s)
    ensures var r := Step(cfg, s, op);
      Within(cfg, r, Max(cfg.maxWorkers, 10)) && Windowed(r) && Synced(cfg, r)
  {
    hide OnTick, ApplyExternal, Windowed, Synced, RecordsStaleCount, Within;
    assert Run(cfg, s, [op]) == Step(cfg, s, op) by { RunSnoc(cfg, s, [], op); assert [] + [op] == [op]; }
    RunStaysBelowTen(cfg, s, [op]);
    RunKeepsWindows(cfg, s, [op]);
    RunChroniclesExactly(cfg, s, [op]);
  }

  lemma {:induction false} CopiesSnoc(x: int, k: nat)
    ensures Copies(x, k + 1) == Copies(x, k) + [x]
    decreases k
  {
    if k > 0 {
      CopiesSnoc(x, k - 1);
      assert Copies(x, k + 1) == [x] + (Copies(x, k - 1) + [x]);
    }
  }
}
