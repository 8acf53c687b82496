/** Result types and the few facts about finite sums that several components share. */
module Common {

  datatype Option<+T> = None | Some(value: T)

  datatype Result<+T, +E> = Ok(value: T) | Err(error: E)

  /** 2^64: the number of values of the source's `u64` and of its 64-bit `usize`. */
  const U64: nat := 0x1_0000_0000_0000_0000

  function Min(a: nat, b: nat): nat {
    if a <= b then a else b
  }

  function Max(a: nat, b: nat): nat {
    if a >= b then a else b
  }

  predicate NoRepeats<T(==)>(s: seq<T>) {
    forall i, j :: 0 <= i < j < |s| ==> s[i] != s[j]
  }

  function Sum(w: seq<nat>): nat {
    if w == [] then 0 else Sum(w[..|w| - 1]) + w[|w| - 1]
  }

  lemma {:induction false} SumUpdate(w: seq<nat>, i: nat, v: nat)
    requires i < |w|
    ensures Sum(w[i := v]) + w[i] == Sum(w) + v
    ensures w[i] <= Sum(w)
  {
    var last := |w| - 1;
    if i == last {
      assert w[i := v][..last] == w[..last];
    } else {
      assert w[i := v][..last] == w[..last][i := v];
      SumUpdate(w[..last], i, v);
    }
  }

  lemma {:induction false} SumBound(w: seq<nat>, bound: nat)
    requires forall i :: 0 <= i < |w| ==> w[i] <= bound
    ensures Sum(w) <= bound * |w|
  {
    if w != [] {
      SumBound(w[..|w| - 1], bound);
    }
  }

  lemma {:induction false} SumZero(w: seq<nat>)
    requires forall i :: 0 <= i < |w| ==> w[i] == 0
    ensures Sum(w) == 0
  {
    SumBound(w, 0);
  }

  lemma SubsetSize<T>(a: set<T>, b: set<T>)
    requires a <= b
    ensures |a| <= |b| && (|a| == |b| ==> a == b)
  {
    assert b == a + (b - a);
  }
}
