/**
  The priority queue of pkg/worker/priority_queue.go: a binary heap kept in a slice of
  heap-allocated items, each of which stores its own slice index.

  The sift loops belong to Go's container/heap; they are written out here on top of the
  repository's Less, Swap, Push and Pop. Functions on sequences of items say what the
  loops compute; the class methods are tied to those functions; the lemmas are about the
  functions, hence about every run of the queue.
*/
module PriorityQueues {
  import opened Wrappers

  datatype Task = Task(id: nat, priority: int)

  /** One queued task. Only `index` is ever overwritten. */
  class TaskItem {
    const task: Task
    const priority: int
    const timestamp: int
    var index: int

    constructor (task: Task, timestamp: int, index: int)
      ensures this.task == task && this.priority == task.priority
      ensures this.timestamp == timestamp && this.index == index
    {
      this.task := task;
      this.priority := task.priority;
      this.timestamp := timestamp;
      this.index := index;
    }
  }

  // ---------- the order ----------

  predicate Less(a: TaskItem, b: TaskItem) {
    if a.priority != b.priority then a.priority > b.priority
    else a.timestamp < b.timestamp
  }

  function Parent(j: nat): (i: nat)
    ensures i <= j && (i == j <==> j == 0)
    ensures j > 0 ==> j == 2 * i + 1 || j == 2 * i + 2
  {
    if j == 0 then 0 else (j - 1) / 2
  }

  /** No item of the first `n` goes before its parent. */
  ghost predicate HeapUpTo(q: seq<TaskItem>, n: nat)
    requires n <= |q|
  {
    forall j {:trigger Parent(j)} :: 0 < j < n ==> !Less(q[j], q[Parent(j)])
  }

  ghost predicate Heap(q: seq<TaskItem>) {
    HeapUpTo(q, |q|)
  }

  /** No item of `q` goes before `x`. */
  ghost predicate NonePrecedes(q: seq<TaskItem>, x: TaskItem) {
    forall y :: y in q ==> !Less(y, x)
  }

  ghost predicate Sorted(q: seq<TaskItem>) {
    forall i, j :: 0 <= i < j < |q| ==> !Less(q[j], q[i])
  }

  // ---------- what the loops compute ----------

  function Swapped(q: seq<TaskItem>, i: nat, j: nat): (r: seq<TaskItem>)
    requires i < |q| && j < |q|
    ensures |r| == |q|
  {
    q[i := q[j]][j := q[i]]
  }

  function SiftUp(q: seq<TaskItem>, j: nat): (r: seq<TaskItem>)
    requires j < |q|
    ensures |r| == |q|
    decreases j
  {
    var i := Parent(j);
    if i == j || !Less(q[j], q[i]) then q else SiftUp(Swapped(q, i, j), i)
  }

  /** The child of `i` that goes first among the first `n` items. */
  function FirstChild(q: seq<TaskItem>, i: nat, n: nat): (c: nat)
    requires 2 * i + 1 < n <= |q|
    ensures i < c < n && Parent(c) == i
    ensures !Less(q[2 * i + 1], q[c]) && (2 * i + 2 < n ==> !Less(q[2 * i + 2], q[c]))
  {
    var left := 2 * i + 1;
    if left + 1 < n && Less(q[left + 1], q[left]) then left + 1 else left
  }

  function SiftDown(q: seq<TaskItem>, i: nat, n: nat): (r: seq<TaskItem>)
    requires n <= |q|
    ensures |r| == |q|
    decreases n - i
  {
    if 2 * i + 1 >= n then q
    else
      var c := FirstChild(q, i, n);
      if !Less(q[c], q[i]) then q else SiftDown(Swapped(q, i, c), c, n)
  }

  function Pushed(q: seq<TaskItem>, x: TaskItem): (r: seq<TaskItem>)
    ensures |r| == |q| + 1
  {
    SiftUp(q + [x], |q|)
  }

  function Popped(q: seq<TaskItem>): (r: seq<TaskItem>)
    requires q != []
    ensures |r| == |q| - 1
  {
    SiftDown(Swapped(q, 0, |q| - 1), 0, |q| - 1)[..|q| - 1]
  }

  // ---------- heap lemmas ----------

  lemma SiftDownUnfold(q: seq<TaskItem>, i: nat, n: nat)
    requires n <= |q|
    ensures SiftDown(q, i, n)
         == if 2 * i + 1 >= n || !Less(q[FirstChild(q, i, n)], q[i]) then q
            else SiftDown(Swapped(q, i, FirstChild(q, i, n)), FirstChild(q, i, n), n)
  {
  }

  lemma SwapKeepsItems(q: seq<TaskItem>, i: nat, j: nat, n: nat)
    requires i < n && j < n && n <= |q|
    ensures multiset(Swapped(q, i, j)[..n]) == multiset(q[..n])
    ensures Swapped(q, i, j)[n..] == q[n..]
  {
    assert Swapped(q, i, j)[..n] == Swapped(q[..n], i, j);
  }

  lemma {:induction false} SiftUpRestores(q: seq<TaskItem>, j: nat)
    requires j < |q|
    requires forall k {:trigger Parent(k)} :: 0 < k < |q| && k != j ==> !Less(q[k], q[Parent(k)])
    requires forall k {:trigger Parent(k)} :: 0 < k < |q| && Parent(k) == j ==> !Less(q[k], q[Parent(j)])
    ensures Heap(SiftUp(q, j))
    ensures multiset(SiftUp(q, j)) == multiset(q)
    decreases j
  {
    var i := Parent(j);
    if i == j || !Less(q[j], q[i]) {
    } else {
      var s := Swapped(q, i, j);
      SwapKeepsItems(q, i, j, |q|);
      assert s[..|q|] == s && q[..|q|] == q;
      forall k | 0 < k < |s| && k != i ensures !Less(s[k], s[Parent(k)]) {
        if Parent(k) == j {
        } else if Parent(k) == i {
        }
      }
      SiftUpRestores(s, i);
    }
  }

  /** A heap but for position `i`, which may have to go down. */
  ghost predicate HeapBut(q: seq<TaskItem>, i: nat, n: nat)
    requires n <= |q|
  {
    && (forall k {:trigger Parent(k)} :: 0 < k < n && Parent(k) != i ==> !Less(q[k], q[Parent(k)]))
    && (i > 0 ==> forall k {:trigger Parent(k)} :: 0 < k < n && Parent(k) == i ==> !Less(q[k], q[Parent(i)]))
  }

  lemma SwapDownKeeps(q: seq<TaskItem>, i: nat, n: nat)
    requires 2 * i + 1 < n <= |q| && HeapBut(q, i, n)
    requires Less(q[FirstChild(q, i, n)], q[i])
    ensures HeapBut(Swapped(q, i, FirstChild(q, i, n)), FirstChild(q, i, n), n)
  {
    var c := FirstChild(q, i, n);
    var s := Swapped(q, i, c);
    forall k | 0 < k < n && Parent(k) != c ensures !Less(s[k], s[Parent(k)]) {
      if Parent(k) == i {
        assert s[Parent(k)] == q[c];
        assert s[k] == q[k] || k == c;
      } else if k == i {
        assert s[k] == q[c] && s[Parent(k)] == q[Parent(k)];
      } else {
        assert s[k] == q[k] && s[Parent(k)] == q[Parent(k)];
      }
    }
    forall k | 0 < k < n && Parent(k) == c ensures !Less(s[k], s[Parent(c)]) {
      assert s[k] == q[k] && s[i] == q[c];
    }
  }

  lemma HeapWhenSettled(q: seq<TaskItem>, i: nat, n: nat)
    requires n <= |q| && HeapBut(q, i, n)
    requires 2 * i + 1 < n ==> !Less(q[FirstChild(q, i, n)], q[i])
    ensures HeapUpTo(q, n)
  {
    forall k | 0 < k < n ensures !Less(q[k], q[Parent(k)]) {
      if Parent(k) == i {
        var c := FirstChild(q, i, n);
        assert !Less(q[k], q[c]);
      }
    }
  }

  lemma {:induction false} SiftDownRestores(q: seq<TaskItem>, i: nat, n: nat)
    requires n <= |q| && HeapBut(q, i, n)
    ensures HeapUpTo(SiftDown(q, i, n), n)
    decreases n - i
  {
    if 2 * i + 1 < n && Less(q[FirstChild(q, i, n)], q[i]) {
      var c := FirstChild(q, i, n);
      SwapDownKeeps(q, i, n);
      SiftDownRestores(Swapped(q, i, c), c, n);
    } else {
      HeapWhenSettled(q, i, n);
    }
  }

  lemma {:induction false} SiftDownKeepsItems(q: seq<TaskItem>, i: nat, n: nat)
    requires n <= |q|
    ensures multiset(SiftDown(q, i, n)[..n]) == multiset(q[..n])
    ensures SiftDown(q, i, n)[n..] == q[n..]
    decreases n - i
  {
    if 2 * i + 1 < n {
      var c := FirstChild(q, i, n);
      if Less(q[c], q[i]) {
        SwapKeepsItems(q, i, c, n);
        SiftDownKeepsItems(Swapped(q, i, c), c, n);
      }
    }
  }

  lemma {:induction false} RootGoesFirst(q: seq<TaskItem>, k: nat)
    requires Heap(q) && k < |q|
    ensures !Less(q[k], q[0])
    decreases k
  {
    if k > 0 {
      RootGoesFirst(q, Parent(k));
    }
  }

  /** Pushing keeps the heap and adds exactly the pushed item. */
  lemma PushKeepsHeap(q: seq<TaskItem>, x: TaskItem)
    requires Heap(q)
    ensures Heap(Pushed(q, x))
    ensures multiset(Pushed(q, x)) == multiset(q) + multiset{x}
  {
    var s := q + [x];
    forall k | 0 < k < |s| && k != |q| ensures !Less(s[k], s[Parent(k)]) {
      assert s[k] == q[k] && s[Parent(k)] == q[Parent(k)];
    }
    SiftUpRestores(s, |q|);
  }

  lemma RootPrecedesAll(q: seq<TaskItem>)
    requires Heap(q) && q != []
    ensures NonePrecedes(q, q[0])
  {
    forall y | y in q ensures !Less(y, q[0]) {
      var k :| 0 <= k < |q| && q[k] == y;
      RootGoesFirst(q, k);
    }
  }

  lemma SplitLast(q: seq<TaskItem>)
    requires q != []
    ensures multiset(q) == multiset(q[..|q| - 1]) + multiset{q[|q| - 1]}
  {
    assert q == q[..|q| - 1] + [q[|q| - 1]];
  }

  lemma SwapRootLast(q: seq<TaskItem>)
    requires q != []
    ensures Swapped(q, 0, |q| - 1)[|q| - 1] == q[0]
    ensures multiset(Swapped(q, 0, |q| - 1)[..|q| - 1]) == multiset(q) - multiset{q[0]}
  {
    var s := Swapped(q, 0, |q| - 1);
    assert multiset(s) == multiset(q) by {
      SwapKeepsItems(q, 0, |q| - 1, |q|);
      assert s[..|q|] == s && q[..|q|] == q;
    }
    SplitLast(s);
  }

  lemma PopKeepsItems(q: seq<TaskItem>)
    requires q != []
    ensures multiset(Popped(q)) == multiset(q) - multiset{q[0]}
    ensures SiftDown(Swapped(q, 0, |q| - 1), 0, |q| - 1)[|q| - 1] == q[0]
  {
    var n := |q| - 1;
    SwapRootLast(q);
    LastAfterSift(Swapped(q, 0, n), n);
  }

  lemma LastAfterSift(s: seq<TaskItem>, n: nat)
    requires n < |s|
    ensures SiftDown(s, 0, n)[n] == s[n]
    ensures multiset(SiftDown(s, 0, n)[..n]) == multiset(s[..n])
  {
    SiftDownKeepsItems(s, 0, n);
    assert SiftDown(s, 0, n)[n] == SiftDown(s, 0, n)[n..][0] == s[n..][0];
  }

  /** Popping keeps the heap, takes out exactly the root, and no queued item precedes it. */
  lemma PopTakesFirst(q: seq<TaskItem>)
    requires Heap(q) && q != []
    ensures NonePrecedes(q, q[0])
    ensures Heap(Popped(q))
    ensures multiset(Popped(q)) == multiset(q) - multiset{q[0]}
    ensures SiftDown(Swapped(q, 0, |q| - 1), 0, |q| - 1)[|q| - 1] == q[0]
  {
    RootPrecedesAll(q);
    PopKeepsItems(q);
    var n := |q| - 1;
    var s := Swapped(q, 0, n);
    assert HeapBut(s, 0, n) by {
      forall k | 0 < k < n && Parent(k) != 0 ensures !Less(s[k], s[Parent(k)]) {
        assert s[k] == q[k] && s[Parent(k)] == q[Parent(k)];
      }
    }
    SiftDownRestores(s, 0, n);
    var d := SiftDown(s, 0, n);
    forall k | 0 < k < n ensures !Less(d[..n][k], d[..n][Parent(k)]) {
      assert d[..n][k] == d[k];
    }
  }

  // ---------- the abstract queue: pending items, oldest push first ----------

  /** Position of the oldest item among those of highest priority. */
  function OldestOfTop(p: seq<TaskItem>): (b: nat)
    requires p != []
    ensures b < |p|
    ensures forall k :: 0 <= k < b ==> p[k].priority < p[b].priority
    ensures forall k :: 0 <= k < |p| ==> p[k].priority <= p[b].priority
  {
    if |p| == 1 then 0
    else
      var m := |p| - 1;
      var b := OldestOfTop(p[..m]);
      assert forall k :: 0 <= k < m ==> p[..m][k] == p[k];
      if p[m].priority > p[b].priority then m else b
  }

  /** Items of equal priority carry strictly increasing clock reads in push order. */
  ghost predicate ClockIncreases(p: seq<TaskItem>) {
    forall i, j :: 0 <= i < j < |p| && p[i].priority == p[j].priority ==> p[i].timestamp < p[j].timestamp
  }

  datatype Op = Insert(item: TaskItem) | Remove

  function Inserted(ops: seq<Op>): seq<TaskItem> {
    if ops == [] then []
    else if ops[0].Insert? then [ops[0].item] + Inserted(ops[1..])
    else Inserted(ops[1..])
  }

  /** State of the queue after a run, and the items its pops returned. */
  datatype Outcome = Outcome(rest: seq<TaskItem>, popped: seq<TaskItem>)

  /** A run of the heap. Popping an empty queue returns nil and changes nothing. */
  function RunHeap(q: seq<TaskItem>, ops: seq<Op>): Outcome
    decreases |ops|
  {
    if ops == [] then Outcome(q, [])
    else if ops[0].Insert? then RunHeap(Pushed(q, ops[0].item), ops[1..])
    else if q == [] then RunHeap(q, ops[1..])
    else
      var o := RunHeap(Popped(q), ops[1..]);
      Outcome(o.rest, [q[0]] + o.popped)
  }

  /** The same run on the abstract queue: each pop takes the oldest item of top priority. */
  function RunList(p: seq<TaskItem>, ops: seq<Op>): Outcome
    decreases |ops|
  {
    if ops == [] then Outcome(p, [])
    else if ops[0].Insert? then RunList(p + [ops[0].item], ops[1..])
    else if p == [] then RunList(p, ops[1..])
    else
      var b := OldestOfTop(p);
      var o := RunList(Without(p, b), ops[1..]);
      Outcome(o.rest, [p[b]] + o.popped)
  }

  /** What `for Len() > 0 { Pop() }` returns. */
  function Drain(q: seq<TaskItem>): (r: seq<TaskItem>)
    ensures |r| == |q|
    decreases |q|
  {
    if q == [] then [] else [q[0]] + Drain(Popped(q))
  }

  /** The items of priority `v`, in their order in `p`. */
  function OfPriority(p: seq<TaskItem>, v: int): seq<TaskItem> {
    if p == [] then []
    else (if p[0].priority == v then [p[0]] else []) + OfPriority(p[1..], v)
  }

  // ---------- main results ----------

  /** In every run of pushes and pops the heap stays a heap. */
  lemma {:induction false} RunKeepsHeap(q: seq<TaskItem>, ops: seq<Op>)
    requires Heap(q)
    ensures Heap(RunHeap(q, ops).rest)
    decreases |ops|
  {
    if ops == [] {
    } else if ops[0].Insert? {
      PushKeepsHeap(q, ops[0].item);
      RunKeepsHeap(Pushed(q, ops[0].item), ops[1..]);
    } else if q == [] {
      RunKeepsHeap(q, ops[1..]);
    } else {
      PopTakesFirst(q);
      RunKeepsHeap(Popped(q), ops[1..]);
    }
  }

  /** In every run the items left and the items popped are the items pushed, each once. */
  lemma {:induction false} RunKeepsItems(q: seq<TaskItem>, ops: seq<Op>)
    requires Heap(q)
    ensures multiset(RunHeap(q, ops).rest) + multiset(RunHeap(q, ops).popped)
         == multiset(q) + multiset(Inserted(ops))
    decreases |ops|
  {
    if ops == [] {
    } else if ops[0].Insert? {
      var x := ops[0].item;
      PushKeepsHeap(q, x);
      RunKeepsItems(Pushed(q, x), ops[1..]);
      assert multiset([x] + Inserted(ops[1..])) == multiset{x} + multiset(Inserted(ops[1..]));
    } else if q == [] {
      RunKeepsItems(q, ops[1..]);
    } else {
      PopTakesFirst(q);
      RunKeepsItems(Popped(q), ops[1..]);
      var o := RunHeap(Popped(q), ops[1..]);
      RootComesOut(q);
      AddToBoth(multiset(o.rest), multiset(o.popped), multiset(Popped(q)), multiset(Inserted(ops)), q[0]);
      assert multiset([q[0]] + o.popped) == multiset{q[0]} + multiset(o.popped);
    }
  }

  lemma AddToBoth(a: multiset<TaskItem>, b: multiset<TaskItem>, c: multiset<TaskItem>, d: multiset<TaskItem>, x: TaskItem)
    requires a + b == c + d
    ensures a + (multiset{x} + b) == multiset{x} + c + d
  {
    assert a + (multiset{x} + b) == (a + b) + multiset{x};
    assert multiset{x} + c + d == (c + d) + multiset{x};
  }

  lemma RootComesOut(q: seq<TaskItem>)
    requires q != [] && Heap(q)
    ensures multiset(q) == multiset{q[0]} + multiset(Popped(q))
  {
    PopKeepsItems(q);
    assert q[0] in multiset(q);
  }

  /** With increasing clock reads the item that nothing precedes is the oldest of top priority. */
  lemma FirstIsOldest(p: seq<TaskItem>, x: TaskItem)
    requires p != [] && ClockIncreases(p)
    requires x in p && NonePrecedes(p, x)
    ensures x == p[OldestOfTop(p)]
  {
    var b := OldestOfTop(p);
    assert !Less(p[b], x);
    var k :| 0 <= k < |p| && p[k] == x;
    assert k == b;
  }

  lemma InsertedCons(p: seq<TaskItem>, ops: seq<Op>)
    requires ops != [] && ops[0].Insert?
    ensures p + Inserted(ops) == p + [ops[0].item] + Inserted(ops[1..])
  {
  }

  lemma ClockIncreasesWithout(p: seq<TaskItem>, b: nat, more: seq<TaskItem>)
    requires b < |p| && ClockIncreases(p + more)
    ensures ClockIncreases(Without(p, b) + more)
  {
    var s, t := p + more, Without(p, b) + more;
    forall i, j | 0 <= i < j < |t| && t[i].priority == t[j].priority
      ensures t[i].timestamp < t[j].timestamp
    {
      var i', j' := if i < b then i else i + 1, if j < b then j else j + 1;
      assert t[i] == s[i'] && t[j] == s[j'];
    }
  }

  /**
    Refinement: in every run whose equal-priority pushes read a strictly increasing clock,
    the heap pops exactly what the abstract priority-then-FIFO list pops.
  */
  lemma {:induction false} HeapRefinesList(q: seq<TaskItem>, p: seq<TaskItem>, ops: seq<Op>)
    requires Heap(q) && multiset(q) == multiset(p)
    requires ClockIncreases(p + Inserted(ops))
    ensures RunHeap(q, ops).popped == RunList(p, ops).popped
    ensures multiset(RunHeap(q, ops).rest) == multiset(RunList(p, ops).rest)
    decreases |ops|
  {
    assert |q| == |p| by { assert |multiset(q)| == |multiset(p)|; }
    if ops == [] {
    } else if ops[0].Insert? {
      var x := ops[0].item;
      PushKeepsHeap(q, x);
      InsertedCons(p, ops);
      HeapRefinesList(Pushed(q, x), p + [x], ops[1..]);
    } else if q == [] {
      HeapRefinesList(q, p, ops[1..]);
    } else {
      PopTakesFirst(q);
      var more := Inserted(ops[1..]);
      assert Inserted(ops) == more;
      SameItems(q, p);
      ClockPrefix(p, more);
      FirstIsOldest(p, q[0]);
      var b := OldestOfTop(p);
      WithoutOne(p, b);
      ClockIncreasesWithout(p, b, more);
      HeapRefinesList(Popped(q), Without(p, b), ops[1..]);
    }
  }

  lemma ClockPrefix(p: seq<TaskItem>, more: seq<TaskItem>)
    requires ClockIncreases(p + more)
    ensures ClockIncreases(p)
  {
    var s := p + more;
    forall i, j | 0 <= i < j < |p| && p[i].priority == p[j].priority ensures p[i].timestamp < p[j].timestamp {
      assert s[i] == p[i] && s[j] == p[j];
    }
  }

  lemma SameItems(q: seq<TaskItem>, p: seq<TaskItem>)
    requires multiset(q) == multiset(p)
    ensures forall x :: x in q <==> x in p
    ensures forall x :: NonePrecedes(q, x) <==> NonePrecedes(p, x)
  {
    forall x ensures x in q <==> x in p {
      assert x in q <==> x in multiset(q);
      assert x in p <==> x in multiset(p);
    }
  }

  lemma {:induction false} DrainKeepsItems(q: seq<TaskItem>)
    requires Heap(q)
    ensures multiset(Drain(q)) == multiset(q)
    decreases |q|
  {
    if q != [] {
      PopTakesFirst(q);
      DrainKeepsItems(Popped(q));
      RootComesOut(q);
      assert multiset([q[0]] + Drain(Popped(q))) == multiset{q[0]} + multiset(Drain(Popped(q)));
    }
  }

  lemma PutFirst(x: TaskItem, s: seq<TaskItem>)
    requires Sorted(s) && NonePrecedes(s, x)
    ensures Sorted([x] + s)
  {
  }

  /** Draining returns every queued item, by falling priority, then by rising timestamp. */
  lemma {:induction false} DrainSorts(q: seq<TaskItem>)
    requires Heap(q)
    ensures Sorted(Drain(q)) && multiset(Drain(q)) == multiset(q)
    decreases |q|
  {
    DrainKeepsItems(q);
    if q != [] {
      PopTakesFirst(q);
      var rest := Drain(Popped(q));
      DrainSorts(Popped(q));
      forall x | x in rest ensures !Less(x, q[0]) {
        assert x in multiset(rest);
        assert x in multiset(q);
        assert x in q;
      }
      PutFirst(q[0], rest);
    }
  }

  lemma {:induction false} OfPriorityAppend(s: seq<TaskItem>, t: seq<TaskItem>, v: int)
    ensures OfPriority(s + t, v) == OfPriority(s, v) + OfPriority(t, v)
    decreases |s|
  {
    if s == [] {
      assert s + t == t;
    } else {
      assert (s + t)[0] == s[0] && (s + t)[1..] == s[1..] + t;
      OfPriorityAppend(s[1..], t, v);
      var h := if s[0].priority == v then [s[0]] else [];
      assert h + (OfPriority(s[1..], v) + OfPriority(t, v)) == h + OfPriority(s[1..], v) + OfPriority(t, v);
    }
  }

  lemma {:induction false} OfPriorityEmpty(s: seq<TaskItem>, v: int)
    requires forall k :: 0 <= k < |s| ==> s[k].priority != v
    ensures OfPriority(s, v) == []
    decreases |s|
  {
    if s != [] {
      OfPriorityEmpty(s[1..], v);
    }
  }

  lemma OfPriorityCons(x: TaskItem, s: seq<TaskItem>, v: int)
    ensures OfPriority([x] + s, v) == (if x.priority == v then [x] else []) + OfPriority(s, v)
  {
    assert ([x] + s)[1..] == s;
  }

  lemma OldestSplits(p: seq<TaskItem>, v: int)
    requires p != []
    ensures var b := OldestOfTop(p);
      OfPriority(p, v) == (if p[b].priority == v then [p[b]] else []) + OfPriority(Without(p, b), v)
  {
    hide OfPriority, OldestOfTop;
    var b := OldestOfTop(p);
    var x, before, after := p[b], p[..b], p[b + 1..];
    assert p == before + ([x] + after);
    OfPriorityAppend(before, [x] + after, v);
    OfPriorityCons(x, after, v);
    OfPriorityAppend(before, after, v);
    if v == x.priority {
      OfPriorityEmpty(before, v);
      assert [] + ([x] + OfPriority(after, v)) == [x] + ([] + OfPriority(after, v));
    } else {
      assert OfPriority(before, v) + ([] + OfPriority(after, v)) == [] + (OfPriority(before, v) + OfPriority(after, v));
    }
  }

  /** With increasing clock reads a drain returns each priority's items in push order. */
  lemma {:induction false} DrainIsFifo(q: seq<TaskItem>, p: seq<TaskItem>, v: int)
    requires Heap(q) && multiset(q) == multiset(p) && ClockIncreases(p)
    ensures OfPriority(Drain(q), v) == OfPriority(p, v)
    decreases |q|
  {
    assert |q| == |p| by { assert |multiset(q)| == |multiset(p)|; }
    if q != [] {
      PopTakesFirst(q);
      SameItems(q, p);
      FirstIsOldest(p, q[0]);
      var b := OldestOfTop(p);
      WithoutOne(p, b);
      assert p + [] == p && Without(p, b) + [] == Without(p, b);
      ClockIncreasesWithout(p, b, []);
      var rest := Popped(q);
      DrainIsFifo(rest, Without(p, b), v);
      OldestSplits(p, v);
      assert ([q[0]] + Drain(rest))[1..] == Drain(rest);
    }
  }

  // ---------- when the FIFO promise holds ----------

  /** The run pushes `a`, and before it pushes `b` if it does. */
  predicate PushedFirst(ops: seq<Op>, a: TaskItem, b: TaskItem) {
    ops != [] && (ops[0] == Insert(a) || (ops[0] != Insert(b) && PushedFirst(ops[1..], a, b)))
  }

  /** `b` is popped, and `a` not before it. */
  predicate Overtakes(popped: seq<TaskItem>, b: TaskItem, a: TaskItem) {
    popped != [] && popped[0] != a && (popped[0] == b || Overtakes(popped[1..], b, a))
  }

  /** Every push makes a new item. */
  ghost predicate PushesOnce(ops: seq<Op>) {
    forall i, j :: 0 <= i < j < |Inserted(ops)| ==> Inserted(ops)[i] != Inserted(ops)[j]
  }

  /** An item never leaves before one that it does not precede and that was queued no later. */
  lemma {:induction false} NeverOvertaken(q: seq<TaskItem>, ops: seq<Op>, a: TaskItem, b: TaskItem)
    requires Heap(q) && Less(a, b)
    requires a in q || (b !in q && PushedFirst(ops, a, b))
    ensures !Overtakes(RunHeap(q, ops).popped, b, a)
    decreases |ops|
  {
    hide Heap, Less, Pushed, Popped;
    if ops == [] {
    } else if ops[0].Insert? {
      var x := ops[0].item;
      PushKeepsHeap(q, x);
      assert forall y :: y in Pushed(q, x) <==> y in q || y == x by { PushedItems(q, x); }
      NeverOvertaken(Pushed(q, x), ops[1..], a, b);
    } else if q == [] {
      NeverOvertaken(q, ops[1..], a, b);
    } else if q[0] != a {
      PopTakesFirst(q);
      RootComesOut(q);
      assert q[0] in q;
      if a in q {
        assert q[0] != b;
        assert a in multiset(Popped(q));
      } else {
        assert b in Popped(q) ==> b in multiset(q);
      }
      NeverOvertaken(Popped(q), ops[1..], a, b);
      var o := RunHeap(Popped(q), ops[1..]);
      assert ([q[0]] + o.popped)[1..] == o.popped;
    }
  }

  lemma PushedItems(q: seq<TaskItem>, x: TaskItem)
    requires Heap(q)
    ensures forall y :: y in Pushed(q, x) <==> y in q || y == x
  {
    PushKeepsHeap(q, x);
    forall y ensures y in Pushed(q, x) <==> y in q || y == x {
      assert y in Pushed(q, x) <==> y in multiset(Pushed(q, x));
      assert y in q <==> y in multiset(q);
    }
  }

  /**
    Two items that tie in priority and clock read, or whose clock ran backwards, leave in reverse
    order when they were pushed behind an item of higher priority.
  */
  lemma LaterItemOvertakes(z: TaskItem, a: TaskItem, b: TaskItem)
    requires z.priority > a.priority == b.priority && a.timestamp >= b.timestamp
    ensures RunHeap([], [Insert(z), Insert(a), Insert(b), Remove, Remove, Remove]).popped == [z, b, a]
  {
    assert Pushed([], z) == [z];
    assert Pushed([z], a) == [z, a];
    assert Pushed([z, a], b) == [z, a, b];
    assert Swapped([z, a, b], 0, 2) == [b, a, z];
    assert Popped([z, a, b]) == [b, a];
    assert Swapped([b, a], 0, 1) == [a, b];
    assert Popped([b, a]) == [a];
    assert Popped([a]) == [];
    assert RunHeap([a], [Remove]).popped == [a] by { assert RunHeap([], []).popped == []; }
    assert RunHeap([b, a], [Remove, Remove]).popped == [b, a] by { assert [Remove, Remove][1..] == [Remove]; }
    assert RunHeap([z, a, b], [Remove, Remove, Remove]).popped == [z, b, a] by {
      assert [Remove, Remove, Remove][1..] == [Remove, Remove];
    }
    var ops := [Insert(z), Insert(a), Insert(b), Remove, Remove, Remove];
    assert ops[1..][1..][1..] == [Remove, Remove, Remove];
    assert RunHeap([], ops) == RunHeap([z], ops[1..]);
    assert RunHeap([z], ops[1..]) == RunHeap([z, a], ops[1..][1..]);
  }

  lemma LaterItemRun(z: TaskItem, a: TaskItem, b: TaskItem)
    requires z.priority > a.priority == b.priority && a != b
    ensures var ops := [Insert(z), Insert(a), Insert(b), Remove, Remove, Remove];
      PushedFirst(ops, a, b) && PushesOnce(ops) && Overtakes([z, b, a], b, a)
  {
    var ops := [Insert(z), Insert(a), Insert(b), Remove, Remove, Remove];
    assert Inserted(ops) == [z, a, b] by { InsertedThree(z, a, b); }
    assert ops[1..] == [Insert(a), Insert(b), Remove, Remove, Remove];
    assert ops[1..][1..] == [Insert(b), Remove, Remove, Remove];
    assert [z, b, a][1..] == [b, a];
  }

  lemma InsertedThree(z: TaskItem, a: TaskItem, b: TaskItem)
    ensures Inserted([Insert(z), Insert(a), Insert(b), Remove, Remove, Remove]) == [z, a, b]
  {
    var removes := [Remove, Remove, Remove];
    assert Inserted(removes) == [] by { assert removes[1..] == [Remove, Remove] && removes[1..][1..] == [Remove]; }
    InsertedCons([], [Insert(b)] + removes);
    InsertedCons([], [Insert(a), Insert(b)] + removes);
    InsertedCons([], [Insert(z), Insert(a), Insert(b)] + removes);
    assert ([Insert(b)] + removes)[1..] == removes;
    assert ([Insert(a), Insert(b)] + removes)[1..] == [Insert(b)] + removes;
    assert ([Insert(z), Insert(a), Insert(b)] + removes)[1..] == [Insert(a), Insert(b)] + removes;
    assert [Insert(z), Insert(a), Insert(b), Remove, Remove, Remove] == [Insert(z), Insert(a), Insert(b)] + removes;
  }

  /**
    The FIFO promise for two items of equal priority, the first pushed before the second: in every
    run the second is never popped before the first, if and only if the clock read strictly
    increased between the two pushes.
  */
  lemma FifoPopExactly(z: TaskItem, a: TaskItem, b: TaskItem)
    requires a != b && z.priority > a.priority == b.priority
    ensures (forall ops :: PushedFirst(ops, a, b) && PushesOnce(ops) ==> !Overtakes(RunHeap([], ops).popped, b, a))
       <==> a.timestamp < b.timestamp
  {
    if a.timestamp < b.timestamp {
      forall ops | PushedFirst(ops, a, b) && PushesOnce(ops) ensures !Overtakes(RunHeap([], ops).popped, b, a) {
        NeverOvertaken([], ops, a, b);
      }
    } else {
      LaterItemOvertakes(z, a, b);
      LaterItemRun(z, a, b);
    }
  }

  // ---------- the queue object ----------

  /** Heap and list lose the same item, one that no queued item precedes. */
  lemma PopMatches(q: seq<TaskItem>, p: seq<TaskItem>) returns (k: nat)
    requires Heap(q) && q != [] && multiset(q) == multiset(p)
    ensures k < |p| && p[k] == q[0] && NonePrecedes(p, q[0])
    ensures Heap(Popped(q)) && multiset(Popped(q)) == multiset(Without(p, k))
  {
    PopTakesFirst(q);
    SameItems(q, p);
    assert q[0] in q;
    k :| 0 <= k < |p| && p[k] == q[0];
    WithoutOne(p, k);
  }

  class PriorityQueue {
    var queue: seq<TaskItem>
    var count: int
    /** The queued items, oldest push first. */
    ghost var pending: seq<TaskItem>

    ghost predicate Indexed()
      reads this, queue
    {
      forall k :: 0 <= k < |queue| ==> queue[k].index == k
    }

    ghost predicate Valid()
      reads this, queue
    {
      Indexed() && Heap(queue) && multiset(queue) == multiset(pending)
    }

    constructor ()
      ensures Valid() && queue == [] && pending == [] && count == 0
    {
      queue := [];
      count := 0;
      pending := [];
    }

    method Swap(i: nat, j: nat)
      requires i < |queue| && j < |queue| && Indexed()
      modifies this`queue, queue
      ensures queue == Swapped(old(queue), i, j) && Indexed()
    {
      queue := queue[i := queue[j]][j := queue[i]];
      queue[i].index := i;
      queue[j].index := j;
    }

    method HeapUp(last: nat)
      requires last < |queue| && Indexed()
      modifies this`queue, queue
      ensures queue == SiftUp(old(queue), last) && Indexed()
    {
      var j: nat := last;
      while true
        invariant 0 <= j < |queue| == |old(queue)| && Indexed()
        invariant forall k :: 0 <= k < |queue| ==> queue[k] in old(queue)
        invariant SiftUp(queue, j) == SiftUp(old(queue), last)
        decreases j
      {
        var i := if j == 0 then 0 else (j - 1) / 2;
        if i == j || !Less(queue[j], queue[i]) {
          break;
        }
        Swap(i, j);
        j := i;
      }
    }

    method HeapDown(n: nat)
      requires n <= |queue| && Indexed()
      modifies this`queue, queue
      ensures queue == SiftDown(old(queue), 0, n) && Indexed()
    {
      hide SiftDown, Less, Heap;
      var i: nat := 0;
      while true
        invariant |queue| == |old(queue)| && Indexed()
        invariant forall k :: 0 <= k < |queue| ==> queue[k] in old(queue)
        invariant SiftDown(queue, i, n) == SiftDown(old(queue), 0, n)
        decreases n - i
      {
        SiftDownUnfold(queue, i, n);
        var j := 2 * i + 1;
        if j >= n {
          break;
        }
        if j + 1 < n && Less(queue[j + 1], queue[j]) {
          j := j + 1;
        }
        if !Less(queue[j], queue[i]) {
          break;
        }
        Swap(i, j);
        i := j;
      }
    }

    /** The slice push of taskHeap followed by container/heap's sift up. */
    method HeapPush(item: TaskItem)
      requires Indexed() && item !in queue
      modifies this`queue, queue, item
      ensures queue == Pushed(old(queue), item) && Indexed()
    {
      queue := queue + [item];
      item.index := |queue| - 1;
      HeapUp(|queue| - 1);
    }

    /** container/heap's swap and sift down, followed by the slice pop of taskHeap. */
    method HeapPop() returns (item: TaskItem)
      requires Indexed() && Heap(queue) && queue != []
      modifies this`queue, queue
      ensures item == old(queue)[0] && item.index == -1
      ensures queue == Popped(old(queue)) && Indexed()
    {
      PopTakesFirst(queue);
      var n := |queue| - 1;
      Swap(0, n);
      HeapDown(n);
      item := queue[n];
      item.index := -1;
      queue := queue[..n];
    }

    method Push(task: Task, now: int)
      requires Valid()
      modifies this, queue
      ensures Valid() && count == old(count) + 1
      ensures |pending| == |old(pending)| + 1 && pending[..|old(pending)|] == old(pending)
      ensures var x := pending[|old(pending)|];
        fresh(x) && x.task == task && x.priority == task.priority && x.timestamp == now
        && queue == Pushed(old(queue), x)
    {
      hide Heap, Pushed;
      var item := new TaskItem(task, now, count);
      count := count + 1;
      PushKeepsHeap(queue, item);
      HeapPush(item);
      pending := pending + [item];
    }

    method Pop() returns (task: Option<Task>)
      requires Valid()
      modifies this`queue, this`pending, queue
      ensures Valid()
      ensures old(queue) == [] ==> task == None && queue == [] && pending == old(pending)
      ensures old(queue) != [] ==>
        && task == Some(old(queue)[0].task)
        && old(queue)[0].index == -1
        && NonePrecedes(old(pending), old(queue)[0])
        && queue == Popped(old(queue))
        && (exists k :: 0 <= k < |old(pending)| && old(pending)[k] == old(queue)[0]
                        && pending == Without(old(pending), k))
    {
      if |queue| == 0 {
        return None;
      }
      hide Heap, Popped, SiftDown, Swapped, NonePrecedes, Without;
      ghost var k := PopMatches(queue, pending);
      var item := HeapPop();
      pending := Without(pending, k);
      task := Some(item.task);
    }

    method Peek() returns (task: Option<Task>)
      requires Valid()
      ensures queue == [] ==> task == None
      ensures queue != [] ==> exists x :: x in pending && NonePrecedes(pending, x) && task == Some(x.task)
    {
      if |queue| == 0 {
        return None;
      }
      PopTakesFirst(queue);
      SameItems(queue, pending);
      task := Some(queue[0].task);
    }

    method Len() returns (n: nat)
      requires Valid()
      ensures n == |pending|
    {
      assert |multiset(queue)| == |multiset(pending)|;
      n := |queue|;
    }

    /** The consumer loop of the README: pop until the queue is empty. */
    method DrainAll() returns (tasks: seq<Task>)
      requires Valid()
      modifies this`queue, this`pending, queue
      ensures Valid() && queue == []
      ensures tasks == Tasks(Drain(old(queue)))
    {
      tasks := [];
      while |queue| > 0
        invariant Valid()
        invariant forall k :: 0 <= k < |queue| ==> queue[k] in old(queue)
        invariant tasks + Tasks(Drain(queue)) == Tasks(Drain(old(queue)))
        decreases |queue|
      {
        RestIsQueued(queue);
        DrainStep(tasks, queue);
        var t := Pop();
        tasks := tasks + [t.value];
      }
    }
  }

  lemma DrainStep(done: seq<Task>, q: seq<TaskItem>)
    requires q != []
    ensures done + Tasks(Drain(q)) == done + [q[0].task] + Tasks(Drain(Popped(q)))
  {
    var d := Drain(q);
    assert d[0] == q[0] && d[1..] == Drain(Popped(q));
    assert Tasks(d) == [q[0].task] + Tasks(d[1..]);
    assert done + ([q[0].task] + Tasks(d[1..])) == done + [q[0].task] + Tasks(d[1..]);
  }

  lemma RestIsQueued(q: seq<TaskItem>)
    requires q != [] && Heap(q)
    ensures forall k :: 0 <= k < |Popped(q)| ==> Popped(q)[k] in q
  {
    PopTakesFirst(q);
    forall k | 0 <= k < |Popped(q)| ensures Popped(q)[k] in q {
      assert Popped(q)[k] in multiset(Popped(q));
      assert Popped(q)[k] in multiset(q);
    }
  }

  function Tasks(items: seq<TaskItem>): seq<Task> {
    if items == [] then [] else [items[0].task] + Tasks(items[1..])
  }
}
