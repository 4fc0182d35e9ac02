/**
  The controller's unit signals against the pool that is to follow them. Connecting the
  control channel to Pool.Scale is the wiring that docs/architecture.md describes; the
  repository itself has no consumer of the channel.
*/
module Scaling {
  import opened Wrappers
  import opened Pools
  import Resources

  /** The signals an adjustment adds to the control channel. */
  function NewSignals(cfg: Resources.Config, s: Resources.State, delta: int, reason: string, memUsage: real, now: int): seq<int> {
    var r := Resources.Adjust(cfg, s, delta, reason, memUsage, now);
    if |s.workerControl| <= |r.workerControl| then r.workerControl[|s.workerControl|..] else []
  }

  lemma NewSignalsOfHighMemory(cfg: Resources.Config, s: Resources.State, delta: int, memUsage: real, now: int) returns (drop: nat, sent: nat)
    requires s.scalingEnabled
    requires Resources.NewCount(cfg, s.activeWorkers, delta, Resources.HIGH_MEMORY) <= s.activeWorkers
    ensures drop == s.activeWorkers - Resources.NewCount(cfg, s.activeWorkers, delta, Resources.HIGH_MEMORY)
    ensures sent == Min(drop, Resources.Room(cfg, s.workerControl))
    ensures drop > 0 ==> NewSignals(cfg, s, delta, Resources.HIGH_MEMORY, memUsage, now) == Copies(-1, sent)
    ensures drop == 0 ==> NewSignals(cfg, s, delta, Resources.HIGH_MEMORY, memUsage, now) == []
  {
    var r := Resources.Adjust(cfg, s, delta, Resources.HIGH_MEMORY, memUsage, now);
    drop := s.activeWorkers - r.activeWorkers;
    sent := Min(drop, Resources.Room(cfg, s.workerControl));
    var signal := if drop > 0 then -1 else 1;
    assert Resources.SignalOf(s.activeWorkers, r.activeWorkers, Resources.HIGH_MEMORY) == (signal, drop);
    assert r.workerControl == s.workerControl + Copies(signal, sent);
    assert (s.workerControl + Copies(signal, sent))[|s.workerControl|..] == Copies(signal, sent);
  }

  /**
    A pool of n workers that drains the signals of a high-memory adjustment ends with the size and
    the totals of one Scale by the change of the count exactly if all signals fitted in the
    channel, or enough of them to reach the pool's floor of one worker.
  */
  lemma HighMemoryDrainExactly(cfg: Resources.Config, s: Resources.State, delta: int, memUsage: real, now: int, n: nat, maxSize: int)
    requires s.scalingEnabled && 0 < n <= maxSize
    requires Resources.NewCount(cfg, s.activeWorkers, delta, Resources.HIGH_MEMORY) <= s.activeWorkers
    ensures var drop := s.activeWorkers - Resources.NewCount(cfg, s.activeWorkers, delta, Resources.HIGH_MEMORY);
      ScaleAll(Totals(n, 0, 0), maxSize, NewSignals(cfg, s, delta, Resources.HIGH_MEMORY, memUsage, now))
        == ScaleOnce(Totals(n, 0, 0), maxSize, -drop)
      <==> drop <= Resources.Room(cfg, s.workerControl) || n - 1 <= Resources.Room(cfg, s.workerControl)
  {
    var drop, sent := NewSignalsOfHighMemory(cfg, s, delta, memUsage, now);
    if drop > 0 {
      DrainsAgreeExactly(n, maxSize, sent, drop);
      UnitScalesAddUp(Totals(n, 0, 0), maxSize, -1, sent);
    }
  }

  /** One signal is one Scale: with a factory that does not fail, the arithmetic step. */
  method ApplySignal(pool: Pool, signal: int) returns (added: nat, removed: nat)
    requires pool.Settled() && pool.started
    requires forall id :: Creates(pool.factory, id)
    modifies pool`workers, pool`nextWorkerId, pool`produced, pool.produced.Values
    ensures pool.Settled() && pool.Grew() && old(pool.Size()) <= pool.maxSize
    ensures Totals(pool.Size(), added, removed) == ScaleOnce(Totals(old(pool.Size()), 0, 0), pool.maxSize, signal)
  {
    hide TargetSize, Successes;
    added, removed := pool.Scale(signal);
  }

  lemma ScaleFrom(n: nat, added: int, removed: int, step: Totals, maxSize: int, signals: seq<int>)
    requires signals != [] && 0 < maxSize && n <= maxSize && step == ScaleOnce(Totals(n, 0, 0), maxSize, signals[0])
    ensures 0 <= step.size <= maxSize
    ensures ScaleAll(Totals(n, added, removed), maxSize, signals)
         == ScaleAll(Totals(step.size, added + step.added, removed + step.removed), maxSize, signals[1..])
  {
  }

  /** Applies the signals to the pool one by one; `added` and `removed` are the totals that Scale returned. */
  method Drain(pool: Pool, signals: seq<int>) returns (added: nat, removed: nat)
    requires pool.Settled() && pool.started
    requires forall id :: Creates(pool.factory, id)
    modifies pool`workers, pool`nextWorkerId, pool`produced, pool.produced.Values
    ensures pool.Settled() && pool.Grew() && old(pool.Size()) <= pool.maxSize
    ensures Totals(pool.Size(), added, removed) == ScaleAll(Totals(old(pool.Size()), 0, 0), pool.maxSize, signals)
  {
    hide ScaleOnce, Pool.Size, Pool.Ever, Pool.Settled, ScaleAll, ScaledSize, TargetSize, Copies, Min, Max, Creates, Successes;
    SizeWithin(pool);
    added, removed := 0, 0;
    var rest := signals;
    ghost var t := Totals(pool.Size(), 0, 0);
    while rest != []
      invariant pool.Settled() && pool.Grew()
      invariant t == Totals(pool.Size(), added, removed) && t.size <= pool.maxSize
      invariant ScaleAll(t, pool.maxSize, rest) == ScaleAll(Totals(old(pool.Size()), 0, 0), pool.maxSize, signals)
      decreases |rest|
    {
      var a, r := ApplySignal(pool, rest[0]);
      ScaleFrom(t.size, added, removed, Totals(pool.Size(), a, r), pool.maxSize, rest);
      added, removed := added + a, removed + r;
      rest := rest[1..];
      t := Totals(pool.Size(), added, removed);
    }
    NothingLeft(t, pool.maxSize);
  }

  lemma SizeWithin(pool: Pool)
    requires pool.Settled()
    ensures 0 < pool.maxSize && pool.Size() <= pool.maxSize
  {
  }

  lemma NothingLeft(t: Totals, maxSize: int)
    requires 0 <= t.size <= maxSize && 0 < maxSize
    ensures ScaleAll(t, maxSize, []) == t
  {
  }
}
