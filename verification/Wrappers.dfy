/** Result shapes and small functions shared by the modules. */
module Wrappers {
  datatype Option<+T> = None | Some(value: T)

  function Min(x: int, y: int): int {
    if x < y then x else y
  }

  function Max(x: int, y: int): int {
    if x > y then x else y
  }

  function Pow2(n: nat): (p: nat)
    ensures p > 0
  {
    if n == 0 then 1 else 2 * Pow2(n - 1)
  }

  lemma {:induction false} Pow2Monotone(m: nat, n: nat)
    requires m <= n
    ensures Pow2(m) <= Pow2(n)
    decreases n
  {
    if m < n {
      Pow2Monotone(m, n - 1);
    }
  }

  function Copies<T>(x: T, count: nat): (s: seq<T>)
    ensures |s| == count && forall i :: 0 <= i < count ==> s[i] == x
  {
    if count == 0 then [] else [x] + Copies(x, count - 1)
  }

  /** The sequence without its element at `i`. */
  function Without<T>(s: seq<T>, i: nat): (r: seq<T>)
    requires i < |s|
    ensures |r| == |s| - 1
  {
    s[..i] + s[i + 1..]
  }

  lemma WithoutOne<T>(s: seq<T>, i: nat)
    requires i < |s|
    ensures multiset(s) == multiset(Without(s, i)) + multiset{s[i]}
  {
    assert s == s[..i] + [s[i]] + s[i + 1..];
  }

  /** The last `n` elements, or all if there are fewer. */
  function LastN<T>(s: seq<T>, n: nat): (r: seq<T>)
    ensures |r| == if |s| < n then |s| else n
  {
    if |s| <= n then s else s[|s| - n..]
  }

  lemma LastNAppend<T>(s: seq<T>, x: T, n: nat)
    requires n > 0
    ensures LastN(s + [x], n) == (if |LastN(s, n)| >= n then LastN(s, n)[1..] else LastN(s, n)) + [x]
  {
    if |s| >= n {
      assert (s + [x])[|s| + 1 - n..] == s[|s| + 1 - n..] + [x];
      assert s[|s| - n..][1..] == s[|s| + 1 - n..];
    }
  }

  lemma LastNConcat<T>(s: seq<T>, more: seq<T>, n: nat)
    requires n <= |s|
    ensures LastN(s + more, n + |more|) == LastN(s, n) + more
  {
  }

  /** k is the first position that holds true. */
  predicate FirstTrue(bs: seq<bool>, k: int) {
    0 <= k < |bs| && bs[k] && forall i :: 0 <= i < k ==> !bs[i]
  }

  predicate NoneTrue(bs: seq<bool>) {
    forall i :: 0 <= i < |bs| ==> !bs[i]
  }

  lemma FirstTrueStep(b: bool, rest: seq<bool>, k: int)
    ensures FirstTrue([b] + rest, k) <==> if b then k == 0 else k > 0 && FirstTrue(rest, k - 1)
    ensures NoneTrue([b] + rest) <==> !b && NoneTrue(rest)
  {
    var bs := [b] + rest;
    assert bs[0] == b && forall i :: 0 < i < |bs| ==> bs[i] == rest[i - 1];
    assert forall i :: 0 <= i < |rest| ==> rest[i] == bs[i + 1];
  }
}
