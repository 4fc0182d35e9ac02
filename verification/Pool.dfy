/**
  The worker pool of pkg/worker/pool.go. The factory is an oracle on worker ids: every
  creation uses a fresh id, so a function of the id covers every pattern of failures.
*/
module Pools {
  import opened Wrappers

  /** A worker as the pool sees it: how often it was started and stopped. */
  class Worker {
    const id: nat
    var starts: nat
    var stops: nat

    constructor (id: nat)
      ensures this.id == id && starts == 0 && stops == 0
    {
      this.id := id;
      starts, stops := 0, 0;
    }

    method Start()
      modifies this
      ensures starts == old(starts) + 1 && stops == old(stops)
    {
      starts := starts + 1;
    }

    method Stop()
      modifies this
      ensures stops == old(stops) + 1 && starts == old(starts)
    {
      stops := stops + 1;
    }
  }

  method StartedWorker(id: nat) returns (worker: Worker)
    ensures fresh(worker) && worker.id == id && worker.starts == 1 && worker.stops == 0
  {
    worker := new Worker(id);
    worker.Start();
  }

  // ---------- sizes ----------

  /** Whether the factory produces the worker with this id. */
  predicate Creates(factory: int -> bool, id: int) {
    factory(id)
  }

  /** How many of the next `n` creations succeed before the first failure. */
  function Successes(factory: int -> bool, lastId: int, n: nat): (k: nat)
    ensures k <= n
    decreases n
  {
    if n == 0 || !Creates(factory, lastId + 1) then 0 else 1 + Successes(factory, lastId + 1, n - 1)
  }

  lemma SuccessesUnfold(factory: int -> bool, lastId: int, n: nat)
    ensures Successes(factory, lastId, n)
         == if n == 0 || !Creates(factory, lastId + 1) then 0 else 1 + Successes(factory, lastId + 1, n - 1)
  {
  }

  /** All of them exactly if no creation fails, else up to the first failure. */
  lemma {:induction false} SuccessesEndAtFailure(factory: int -> bool, lastId: int, n: nat)
    ensures var k := Successes(factory, lastId, n);
      && (forall id :: lastId < id <= lastId + k ==> Creates(factory, id))
      && (k < n ==> !Creates(factory, lastId + k + 1))
    decreases n
  {
    if n > 0 && Creates(factory, lastId + 1) {
      SuccessesEndAtFailure(factory, lastId + 1, n - 1);
    }
  }

  /** The size Scale aims at: at least 1, at most the maximum. */
  function TargetSize(size: nat, maxSize: int, delta: int): int {
    Min(Max(size + delta, 1), maxSize)
  }

  /** The size after Scale when the factory does not fail. */
  function ScaledSize(size: nat, maxSize: int, delta: int): int {
    if delta > 0 then Max(size, TargetSize(size, maxSize, delta))
    else if delta < 0 then Min(size, TargetSize(size, maxSize, delta))
    else size
  }

  /** In numbers: up by delta at most to the maximum, down by delta at least to one worker. */
  lemma ScaledSizeExactly(size: nat, maxSize: int, delta: int)
    requires size <= maxSize && 0 < maxSize
    ensures delta >= 0 ==> ScaledSize(size, maxSize, delta) == if size + delta <= maxSize then size + delta else maxSize
    ensures delta < 0 && size > 0 ==> ScaledSize(size, maxSize, delta) == if size + delta >= 1 then size + delta else 1
    ensures delta < 0 && size == 0 ==> ScaledSize(size, maxSize, delta) == 0
  {
  }

  /** How far `size` is below `target`. */
  function Missing(target: int, size: nat): nat {
    if target > size then target - size else 0
  }

  lemma TargetIs(size: nat, maxSize: int, delta: int, newSize: int)
    requires newSize == if size + delta < 1 then Min(1, maxSize) else Min(size + delta, maxSize)
    ensures TargetSize(size, maxSize, delta) == newSize
  {
  }

  /**
    What one scaling of a started pool by delta does, in numbers. Upwards it removes nothing and
    adds the whole delta, or as much as the maximum allows, or fewer because the creation of the
    next worker failed. Downwards it adds nothing and removes the whole delta, or leaves one worker.
  */
  predicate ScaledBy(factory: int -> bool, lastId: int, size: nat, maxSize: int, delta: int, added: int, removed: int) {
    if delta > 0 then
      && removed == 0 && 0 <= added <= delta && size + added <= maxSize
      && (added < delta && size + added < maxSize ==> !Creates(factory, lastId + added + 1))
    else
      added == 0 && removed == if size == 0 then 0 else if size + delta >= 1 then -delta else size - 1
  }

  lemma ScaledExactly(factory: int -> bool, lastId: int, size: nat, maxSize: int, delta: int)
    requires size <= maxSize && 0 < maxSize
    ensures var target := TargetSize(size, maxSize, delta);
      var added := if delta > 0 then Successes(factory, lastId, Missing(target, size)) else 0;
      var removed := if delta < 0 then Max(0, size - target) else 0;
      && ScaledBy(factory, lastId, size, maxSize, delta, added, removed)
      && ((forall id :: Creates(factory, id)) ==> size + added - removed == ScaledSize(size, maxSize, delta))
  {
    hide Successes, Creates;
    var n := Missing(TargetSize(size, maxSize, delta), size);
    SuccessesEndAtFailure(factory, lastId, n);
    if forall id :: Creates(factory, id) {
      NoFailures(factory, lastId, n);
    }
  }

  // ---------- scaling in units ----------

  /** A size and how many workers were added and removed on the way to it. */
  datatype Totals = Totals(size: int, added: int, removed: int)

  function ScaleOnce(t: Totals, maxSize: int, delta: int): Totals
    requires 0 <= t.size
  {
    var n := ScaledSize(t.size, maxSize, delta);
    Totals(n, t.added + Max(0, n - t.size), t.removed + Max(0, t.size - n))
  }

  function ScaleAll(t: Totals, maxSize: int, deltas: seq<int>): (r: Totals)
    requires 0 <= t.size <= maxSize && 0 < maxSize
    ensures 0 <= r.size <= maxSize
    decreases |deltas|
  {
    if deltas == [] then t else ScaleAll(ScaleOnce(t, maxSize, deltas[0]), maxSize, deltas[1..])
  }

  /** k unit scalings in one direction reach the size, and add and remove as much, as one scaling by k. */
  lemma {:induction false} UnitScalesAddUp(t: Totals, maxSize: int, unit: int, k: nat)
    requires 0 <= t.size <= maxSize && 0 < maxSize && (unit == 1 || unit == -1)
    ensures ScaleAll(t, maxSize, Copies(unit, k)) == ScaleOnce(t, maxSize, unit * k)
    decreases k
  {
    if k > 0 {
      assert Copies(unit, k)[1..] == Copies(unit, k - 1);
      UnitScalesAddUp(ScaleOnce(t, maxSize, unit), maxSize, unit, k - 1);
      hide ScaleAll;
      OneUnitMore(t, maxSize, unit, k - 1);
    }
  }

  lemma OneUnitMore(t: Totals, maxSize: int, unit: int, k: nat)
    requires 0 <= t.size <= maxSize && 0 < maxSize && (unit == 1 || unit == -1)
    ensures ScaleOnce(ScaleOnce(t, maxSize, unit), maxSize, unit * k) == ScaleOnce(t, maxSize, unit * (k + 1))
  {
    if unit == 1 {
      assert unit * k == k && unit * (k + 1) == k + 1;
    } else {
      assert unit * k == 0 - k && unit * (k + 1) == 0 - k - 1;
    }
  }

  /** Two unit drains downwards leave the same size exactly if they are equally long or both reach one worker. */
  lemma DrainsAgreeExactly(n: nat, maxSize: int, sent: nat, wanted: nat)
    requires 0 < n <= maxSize && sent <= wanted
    ensures ScaleAll(Totals(n, 0, 0), maxSize, Copies(-1, sent)).size == ScaledSize(n, maxSize, 0 - wanted)
       <==> sent == wanted || sent >= n - 1
  {
    UnitScalesAddUp(Totals(n, 0, 0), maxSize, -1, sent);
  }

  lemma {:induction false} NoFailures(factory: int -> bool, lastId: int, n: nat)
    requires forall id :: Creates(factory, id)
    ensures Successes(factory, lastId, n) == n
    decreases n
  {
    if n > 0 {
      NoFailures(factory, lastId + 1, n - 1);
    }
  }

  // ---------- the pool object ----------

  class Pool {
    var workers: map<nat, Worker>
    /** Whether the factory produces a worker for an id. */
    const factory: int -> bool
    const size: nat
    const maxSize: nat
    var nextWorkerId: nat
    var started: bool
    var canceled: bool
    /** Every worker the factory ever produced, by id. */
    ghost var produced: map<nat, Worker>

    /** Ids are never reused; live workers run; every other worker was stopped exactly once. */
    ghost predicate Valid()
      reads this, produced.Values
    {
      && 0 < maxSize && size <= maxSize && |workers| <= maxSize
      && workers.Keys <= produced.Keys
      && (forall id :: id in produced ==>
            && 0 < id <= nextWorkerId && produced[id].id == id && produced[id].starts == 1
            && produced[id].stops == if id in workers then 0 else 1)
      && (forall id :: id in workers ==> workers[id] == produced[id])
    }

    /** No produced worker is forgotten, and the further ones are new objects. */
    twostate predicate Grew()
      reads this
    {
      && old(produced).Keys <= produced.Keys
      && (forall id :: id in produced ==> if id in old(produced) then produced[id] == old(produced)[id] else fresh(produced[id]))
    }

    function Size(): nat
      reads this
    {
      |workers|
    }

    /** How many workers the factory ever produced. */
    ghost function Ever(): nat
      reads this
    {
      |produced|
    }

    /** What holds between calls of the pool's operations. */
    ghost predicate Settled()
      reads this, produced.Values
    {
      Valid() && (!started ==> workers == map[])
    }

    constructor (size: nat, maxSize: nat, factory: int -> bool)
      requires 0 < maxSize && size <= maxSize
      ensures Settled() && !started && !canceled && produced == map[] && nextWorkerId == 0
      ensures this.size == size && this.maxSize == maxSize && this.factory == factory
    {
      this.size, this.maxSize, this.factory := size, maxSize, factory;
      workers, produced := map[], map[];
      nextWorkerId, started, canceled := 0, false, false;
    }

    method AddWorker() returns (ok: bool)
      requires Valid() && |workers| < maxSize
      modifies this`workers, this`nextWorkerId, this`produced
      ensures Valid() && ok == Creates(factory, nextWorkerId)
      ensures nextWorkerId == old(nextWorkerId) + 1
      ensures |workers| == |old(workers)| + (if ok then 1 else 0)
      ensures nextWorkerId !in old(produced) && Ever() == old(Ever()) + (if ok then 1 else 0)
      ensures ok ==> nextWorkerId in produced && fresh(produced[nextWorkerId]) && produced == old(produced)[nextWorkerId := produced[nextWorkerId]]
      ensures !ok ==> workers == old(workers) && produced == old(produced)
    {
      nextWorkerId := nextWorkerId + 1;
      var id := nextWorkerId;
      if !Creates(factory, id) {
        return false;
      }
      assert id !in workers;
      ghost var keys := workers.Keys;
      var worker := StartedWorker(id);
      workers := workers[id := worker];
      produced := produced[id := worker];
      assert workers.Keys == keys + {id};
      return true;
    }

    method RemoveWorker() returns (removed: bool)
      requires Valid()
      modifies this`workers, produced.Values
      ensures Valid() && removed == (|old(workers)| > 0)
      ensures !removed ==> workers == old(workers)
      ensures removed ==> |workers| == |old(workers)| - 1 && workers.Keys <= old(workers).Keys
    {
      if |workers| == 0 {
        return false;
      }
      var id :| id in workers;
      var worker := workers[id];
      ghost var keys := workers.Keys;
      workers := workers - {id};
      assert workers.Keys == keys - {id};
      worker.Stop();
      return true;
    }

    method StopAllWorkers()
      requires Valid()
      modifies this`workers, produced.Values
      ensures Valid() && workers == map[]
    {
      var rest := workers.Keys;
      while rest != {}
        invariant rest <= workers.Keys && workers == old(workers)
        invariant forall id :: id in produced ==> produced[id].starts == 1 && produced[id].stops == if id in rest then 0 else 1
        decreases rest
      {
        var id :| id in rest;
        workers[id].Stop();
        rest := rest - {id};
      }
      workers := map[];
    }

    /**
      The loop of Start and of scaleUp: add workers until `n` are added or a creation fails.
      (The loop of scaleUp also stops at the target size, which is reached at the same time.)
    */
    method AddWorkers(n: nat) returns (added: nat)
      requires Valid() && |workers| + n <= maxSize
      modifies this`workers, this`nextWorkerId, this`produced
      ensures Valid() && Grew()
      ensures added == Successes(factory, old(nextWorkerId), n)
      ensures |workers| == |old(workers)| + added && Ever() == old(Ever()) + added
    {
      hide Valid, Ever, Successes, Creates;
      ghost var id, left: nat := nextWorkerId, n;
      SuccessesUnfold(factory, id, n);
      added := 0;
      while added < n
        invariant added + left == n && id == nextWorkerId && Valid() && Grew()
        invariant |workers| == |old(workers)| + added && Ever() == old(Ever()) + added
        invariant Successes(factory, old(nextWorkerId), n) == added + Successes(factory, id, left)
      {
        SuccessesUnfold(factory, id, left);
        id, left := id + 1, left - 1;
        var ok := AddWorker();
        if !ok {
          return;
        }
        added := added + 1;
      }
      SuccessesUnfold(factory, id, 0);
    }

    /** Creates `size` workers; if one cannot be created, those already running are stopped again. */
    method Start() returns (ok: bool)
      requires Settled()
      modifies this`workers, this`nextWorkerId, this`produced, this`started, produced.Values
      ensures Settled() && Grew()
      ensures ok <==> !old(started) && Successes(factory, old(nextWorkerId), size) == size
      ensures ok ==> started && |workers| == size
      ensures old(started) ==> started && workers == old(workers) && produced == old(produced)
      ensures !old(started) && !ok ==> !started
      ensures !old(started) ==> Ever() == old(Ever()) + Successes(factory, old(nextWorkerId), size)
    {
      if started {
        return false;
      }
      var added := AddWorkers(size);
      if added < size {
        StopAllWorkers();
        return false;
      }
      started := true;
      return true;
    }

    method Stop()
      requires Settled()
      modifies this`workers, this`started, this`canceled, produced.Values
      ensures Settled() && !started && workers == map[]
      ensures canceled == (old(canceled) || old(started))
    {
      if !started {
        return;
      }
      canceled := true;
      StopAllWorkers();
      started := false;
    }

    method ScaleUp(targetSize: int) returns (added: nat)
      requires Valid() && targetSize <= maxSize
      modifies this`workers, this`nextWorkerId, this`produced
      ensures Valid() && |workers| == |old(workers)| + added
      ensures Grew() && Ever() == old(Ever()) + added
      ensures added == Successes(factory, old(nextWorkerId), Missing(targetSize, |old(workers)|))
    {
      hide Valid, Successes;
      SuccessesUnfold(factory, nextWorkerId, 0);
      var toAdd := targetSize - |workers|;
      if toAdd <= 0 {
        return 0;
      }
      added := AddWorkers(toAdd);
    }

    method ScaleDown(targetSize: int) returns (removed: nat)
      requires Valid() && targetSize >= 0
      modifies this`workers, produced.Values
      ensures Valid() && |workers| == |old(workers)| - removed
      ensures removed == Max(0, |old(workers)| - targetSize)
    {
      hide Valid;
      removed := 0;
      var toRemove := |workers| - targetSize;
      if toRemove <= 0 {
        return;
      }
      var i := 0;
      while i < toRemove && |workers| > targetSize
        invariant 0 <= i <= toRemove && Valid() && removed == i && |workers| == |old(workers)| - i
      {
        var ok := RemoveWorker();
        if ok {
          removed := removed + 1;
        } else {
          break;
        }
        i := i + 1;
      }
    }

    /** The counts returned are the true size change, also when the factory fails midway. */
    method Scale(delta: int) returns (added: nat, removed: nat)
      requires Settled()
      modifies this`workers, this`nextWorkerId, this`produced, produced.Values
      ensures Settled()
      ensures |workers| == |old(workers)| + added - removed
      ensures Grew() && Ever() == old(Ever()) + added
      ensures !old(started) ==> added == 0 && removed == 0
      ensures var target := TargetSize(|old(workers)|, maxSize, delta);
        old(started) ==>
          && added == (if delta > 0 then Successes(factory, old(nextWorkerId), Missing(target, |old(workers)|)) else 0)
          && removed == (if delta < 0 then Max(0, |old(workers)| - target) else 0)
      ensures old(started) && (forall id :: Creates(factory, id)) ==>
        |workers| == ScaledSize(|old(workers)|, maxSize, delta)
      ensures old(started) ==> ScaledBy(factory, old(nextWorkerId), |old(workers)|, maxSize, delta, added, removed)
    {
      ScaledExactly(factory, nextWorkerId, |workers|, maxSize, delta);
      hide Valid, Ever, Size, Successes, TargetSize, ScaledSize, Missing, Creates, ScaledBy;
      added, removed := 0, 0;
      if !started {
        return;
      }
      var newSize := |workers| + delta;
      if newSize < 1 {
        newSize := 1;
      }
      if newSize > maxSize {
        newSize := maxSize;
      }
      TargetIs(|workers|, maxSize, delta, newSize);
      if delta > 0 {
        added := ScaleUp(newSize);
      } else if delta < 0 {
        removed := ScaleDown(newSize);
      }
    }
  }

  /** NewPool's clamping of the initial size; `maxSize <= 0` is its error. */
  method NewPool(initialSize: int, maxSize: int, factory: int -> bool) returns (p: Option<Pool>)
    ensures p.None? <==> maxSize <= 0
    ensures p.Some? ==>
      && fresh(p.value) && p.value.Settled() && !p.value.started && !p.value.canceled
      && p.value.produced == map[] && p.value.factory == factory && p.value.maxSize == maxSize
      && p.value.size == Max(0, Min(initialSize, maxSize)) && p.value.nextWorkerId == 0
  {
    var initial := initialSize;
    if initial < 0 {
      initial := 0;
    }
    if maxSize <= 0 {
      return None;
    }
    if initial > maxSize {
      initial := maxSize;
    }
    var pool := new Pool(initial, maxSize, factory);
    return Some(pool);
  }
}
