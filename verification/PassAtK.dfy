/** The unbiased pass@k estimator, with exact rationals in place of floats. */
module PassAtK {
  import opened Common

  const U32: nat := 0x1_0000_0000

  // ------------------------------------------------------------------
  // Choosing k of n, counted on sets
  // ------------------------------------------------------------------

  /** Binomial coefficients by Pascal's rule. */
  function Choose(n: nat, k: nat): nat {
    if k == 0 then 1
    else if n == 0 then 0
    else Choose(n - 1, k - 1) + Choose(n - 1, k)
  }

  /** All ways of drawing `k` of the trials in `s`. */
  ghost function Draws(s: set<nat>, k: nat): set<set<nat>> {
    set t: set<nat> | t <= s && |t| == k
  }

  lemma SameSize<A, B>(a: set<A>, b: set<B>, f: A --> B)
    requires forall x :: x in a ==> f.requires(x) && f(x) in b
    requires forall x, y :: x in a && y in a && f(x) == f(y) ==> x == y
    requires forall y :: y in b ==> exists x :: x in a && f(x) == y
    ensures |a| == |b|
  {
    if a == {} {
      if y :| y in b {
        assert false;
      }
    } else {
      var x :| x in a;
      SameSize(a - {x}, b - {f(x)}, f);
    }
  }

  /** Draws from a larger set: those without the extra trial and those with it. */
  lemma DrawsSplit(s: set<nat>, x: nat, k: nat)
    requires x !in s && k > 0
    ensures |Draws(s + {x}, k)| == |Draws(s, k)| + |Draws(s, k - 1)|
  {
    var with := set t | t in Draws(s + {x}, k) && x in t;
    forall t
      ensures t in Draws(s + {x}, k) <==> t in Draws(s, k) || t in with
    {
    }
    assert Draws(s + {x}, k) == Draws(s, k) + with;
    assert Draws(s, k) !! with;
    var f := (t: set<nat>) => t + {x};
    forall t, u | t in Draws(s, k - 1) && u in Draws(s, k - 1) && f(t) == f(u)
      ensures t == u
    {
      assert t == f(t) - {x} && u == f(u) - {x};
    }
    forall u | u in with
      ensures exists t :: t in Draws(s, k - 1) && f(t) == u
    {
      assert u - {x} in Draws(s, k - 1) && f(u - {x}) == u;
    }
    SameSize(Draws(s, k - 1), with, f);
  }

  /** The number of draws is the binomial coefficient. */
  lemma {:induction false} DrawsCounted(s: set<nat>, k: nat)
    ensures |Draws(s, k)| == Choose(|s|, k)
  {
    if k == 0 {
      assert Draws(s, 0) == {{}};
    } else if s == {} {
      assert Draws(s, k) == {};
    } else {
      var x :| x in s;
      var rest := s - {x};
      assert rest + {x} == s;
      DrawsSplit(rest, x, k);
      DrawsCounted(rest, k);
      DrawsCounted(rest, k - 1);
    }
  }

  // ------------------------------------------------------------------
  // The closed form
  // ------------------------------------------------------------------

  function Ratio(part: nat, whole: nat): real
    requires whole > 0
  {
    part as real / whole as real
  }

  /** pass@k as Harbor defines it: 1 - C(n-c, k) / C(n, k). */
  function ForTask(n: nat, correct: nat, k: nat): real
    requires correct <= n && k <= n
  {
    ChoosePositive(n, k);
    1.0 - Ratio(Choose(n - correct, k), Choose(n, k))
  }

  lemma AbsorptionStep(m: int, k: int, a: int, b: int, d: int)
    requires k * d == (m - k) * b && (k - 1) * b == (m - k + 1) * a
    ensures k * (b + d) == (m - k + 1) * (a + b)
  {
  }

  lemma {:induction false} Absorption(m: nat, k: nat)
    requires k > 0
    ensures k * Choose(m, k) == (m - k + 1) * Choose(m, k - 1)
  {
    if m == 0 {
      assert Choose(0, k) == 0;
    } else if k == 1 {
      Absorption(m - 1, 1);
      assert Choose(m, 1) == Choose(m - 1, 0) + Choose(m - 1, 1);
    } else {
      Absorption(m - 1, k);
      Absorption(m - 1, k - 1);
      AbsorptionStep(m, k, Choose(m - 1, k - 2), Choose(m - 1, k - 1), Choose(m - 1, k));
    }
  }

  lemma {:induction false} ChoosePositive(n: nat, k: nat)
    requires k <= n
    ensures Choose(n, k) > 0
  {
    if k > 0 {
      ChoosePositive(n - 1, k - 1);
    }
  }

  lemma {:induction false} ChooseTooMany(n: nat, k: nat)
    requires k > n
    ensures Choose(n, k) == 0
  {
    if n > 0 {
      ChooseTooMany(n - 1, k - 1);
      ChooseTooMany(n - 1, k);
    }
  }

  /** With fewer than `k` failures every draw contains a success. */
  lemma CertainSuccess(n: nat, correct: nat, k: nat)
    requires correct <= n && n - correct < k <= n
    ensures ForTask(n, correct, k) == 1.0
  {
    ChoosePositive(n, k);
    ChooseTooMany(n - correct, k);
    assert Ratio(0, Choose(n, k)) == 0.0;
  }

  /** The 0-th to `k`-th coefficients of `n`; neighbours differ by one factor. */
  ghost predicate IsRow(row: seq<nat>, n: nat, k: nat) {
    && |row| == k + 1 && row[0] == 1
    && (forall i :: 0 <= i <= k && i <= n ==> row[i] > 0)
    && (forall i :: 0 <= i < k ==> Neighbours(row[i], row[i + 1], n, i))
  }

  ghost predicate Neighbours(c0: nat, c1: nat, n: nat, i: nat) {
    (i + 1) * c1 == (n - i) * c0
  }

  lemma RowOf(n: nat, k: nat) returns (row: seq<nat>)
    ensures IsRow(row, n, k)
    ensures forall i :: 0 <= i <= k ==> row[i] == Choose(n, i)
  {
    row := seq(k + 1, i requires 0 <= i <= k => Choose(n, i));
    forall i | 0 <= i < k
      ensures Neighbours(row[i], row[i + 1], n, i)
    {
      Absorption(n, i + 1);
    }
    forall i | 0 <= i <= k && i <= n
      ensures row[i] > 0
    {
      ChoosePositive(n, i);
    }
  }

  /** One factor of the fold turns one ratio of coefficients into the next. */
  lemma FactorStep(p: real, c0: nat, c1: nat, d0: nat, d1: nat, n: nat, m: nat, i: nat)
    requires c0 > 0 && c1 > 0 && i < n && p == Ratio(d0, c0)
    requires Neighbours(c0, c1, n, i) && Neighbours(d0, d1, m, i)
    ensures p * (m - i) as real / (n - i) as real == Ratio(d1, c1)
  {
  }

  /** `pass_at_k_for_task`: the loop is the source's fold over `0..k`, whose
      subtractions and divisors stay positive. */
  method EstimateForTask(n: nat, correct: nat, k: nat) returns (r: real)
    requires correct <= n && k <= n
    ensures r == ForTask(n, correct, k)
  {
    if n - correct < k {
      CertainSuccess(n, correct, k);
      return 1.0;
    }
    ghost var all := RowOf(n, k);
    ghost var failing := RowOf(n - correct, k);
    var product := FoldFactors(n, correct, k, all, failing);
    return 1.0 - product;
  }

  method FoldFactors(n: nat, correct: nat, k: nat, ghost all: seq<nat>, ghost failing: seq<nat>) returns (product: real)
    requires correct <= n && k <= n - correct
    requires IsRow(all, n, k) && IsRow(failing, n - correct, k)
    ensures product == Ratio(failing[k], all[k])
  {
    product := 1.0;
    for i := 0 to k
      invariant product == Ratio(failing[i], all[i])
    {
      FactorStep(product, all[i], all[i + 1], failing[i], failing[i + 1], n, n - correct, i);
      product := product * (n - correct - i) as real / (n - i) as real;
    }
  }

  /** A draw either contains a success or is a draw of failures only. */
  lemma DrawsBySuccess(successes: set<nat>, failures: set<nat>, k: nat)
    requires successes !! failures
    ensures var draws := Draws(successes + failures, k);
            var hits := set t | t in draws && t * successes != {};
            |draws| == |hits| + |Draws(failures, k)|
  {
    var draws := Draws(successes + failures, k);
    var hits := set t | t in draws && t * successes != {};
    forall t
      ensures t in draws <==> t in hits || t in Draws(failures, k)
    {
      if t in draws && t * successes == {} {
        forall x | x in t
          ensures x in failures
        {
          assert x !in t * successes;
        }
      }
    }
    assert draws == hits + Draws(failures, k) && hits !! Draws(failures, k);
  }

  lemma Complement(hits: real, misses: real, all: real)
    requires all > 0.0 && hits + misses == all
    ensures 1.0 - misses / all == hits / all
  {
    assert all / all == 1.0;
    assert (all - misses) / all == all / all - misses / all;
  }

  /** Main result: the estimate is the exact share of k-draws from the trials
      that contain at least one of the successes. */
  lemma ShareOfDraws(trials: set<nat>, successes: set<nat>, k: nat)
    requires successes <= trials && k <= |trials|
    ensures |successes| <= |trials| && |Draws(trials, k)| > 0
    ensures var hits := set t | t in Draws(trials, k) && t * successes != {};
            ForTask(|trials|, |successes|, k) == |hits| as real / |Draws(trials, k)| as real
  {
    var failures := trials - successes;
    assert trials == successes + failures && |trials| == |successes| + |failures|;
    DrawsBySuccess(successes, failures, k);
    DrawsCounted(trials, k);
    DrawsCounted(failures, k);
    ChoosePositive(|trials|, k);
    var hits := set t | t in Draws(trials, k) && t * successes != {};
    Complement(|hits| as real, |Draws(failures, k)| as real, |Draws(trials, k)| as real);
  }

  // ------------------------------------------------------------------
  // Range and monotonicity
  // ------------------------------------------------------------------

  lemma {:induction false} ChooseMonotone(m: nat, n: nat, k: nat)
    requires m <= n
    ensures Choose(m, k) <= Choose(n, k)
  {
    if k > 0 && m < n {
      ChooseMonotone(m, n - 1, k);
    }
  }

  lemma ShrinkStep(c0: nat, c1: nat, d0: nat, d1: nat, n: nat, m: nat, i: nat)
    requires c0 > 0 && c1 > 0 && i < m <= n
    requires Neighbours(c0, c1, n, i) && Neighbours(d0, d1, m, i)
    ensures Ratio(d1, c1) <= Ratio(d0, c0)
  {
  }

  lemma {:induction false} FoldShrinks(n: nat, m: nat, k: nat, all: seq<nat>, failing: seq<nat>, i: nat, j: nat)
    requires m <= n && i <= j <= k <= m
    requires IsRow(all, n, k) && IsRow(failing, m, k)
    ensures Ratio(failing[j], all[j]) <= Ratio(failing[i], all[i])
  {
    if i < j {
      var l := j - 1;
      FoldShrinks(n, m, k, all, failing, i, l);
      ShrinkStep(all[l], all[l + 1], failing[l], failing[l + 1], n, m, l);
    }
  }

  lemma RatioChain(a: nat, b: nat, whole: nat)
    requires a <= b <= whole && whole > 0
    ensures 0.0 <= 1.0 - Ratio(b, whole) <= 1.0 - Ratio(a, whole) <= 1.0
  {
  }

  lemma GrowsWithSuccesses(n: nat, correct: nat, more: nat, k: nat)
    requires correct <= more <= n && k <= n
    ensures 0.0 <= ForTask(n, correct, k) <= ForTask(n, more, k) <= 1.0
  {
    ChoosePositive(n, k);
    ChooseMonotone(n - more, n - correct, k);
    ChooseMonotone(n - correct, n, k);
    RatioChain(Choose(n - more, k), Choose(n - correct, k), Choose(n, k));
  }

  lemma GrowsWithK(n: nat, correct: nat, k: nat, k': nat)
    requires correct <= n && k <= k' <= n
    ensures ForTask(n, correct, k) <= ForTask(n, correct, k')
  {
    if n - correct < k' {
      CertainSuccess(n, correct, k');
      GrowsWithSuccesses(n, correct, correct, k);
    } else {
      var all := RowOf(n, k');
      var failing := RowOf(n - correct, k');
      FoldShrinks(n, n - correct, k', all, failing, k, k');
      assert ForTask(n, correct, k) == 1.0 - Ratio(failing[k], all[k]);
      assert ForTask(n, correct, k') == 1.0 - Ratio(failing[k'], all[k']);
    }
  }

  /** The estimate is a probability and grows with the successes and with k. */
  lemma Monotone(n: nat, correct: nat, more: nat, k: nat, k': nat)
    requires correct <= more <= n && k <= k' <= n
    ensures 0.0 <= ForTask(n, correct, k) <= ForTask(n, more, k') <= 1.0
  {
    GrowsWithSuccesses(n, correct, more, k);
    GrowsWithK(n, more, k, k');
    GrowsWithSuccesses(n, more, more, k');
  }

  // ------------------------------------------------------------------
  // The reported table
  // ------------------------------------------------------------------

  function Power(e: nat): nat {
    if e == 0 then 1 else 2 * Power(e - 1)
  }

  /** The values of k Harbor reports: 2, 4, 8, ... and 5, 10, 15, ... */
  ghost predicate Eligible(k: nat) {
    (exists e: nat :: e > 0 && k == Power(e)) || (k > 0 && k % 5 == 0)
  }

  /** Halving again and again leaves one. */
  predicate Halves(k: nat) {
    k == 1 || (k > 0 && k % 2 == 0 && Halves(k / 2))
  }

  lemma {:induction false} PowerHalves(e: nat)
    ensures Halves(Power(e)) && (Power(e) > 1 <==> e > 0)
  {
    if e > 0 {
      PowerHalves(e - 1);
      assert Power(e) / 2 == Power(e - 1);
    }
  }

  lemma {:induction false} HalvesPower(k: nat)
    requires Halves(k)
    ensures exists e: nat :: k == Power(e)
  {
    if k == 1 {
      assert k == Power(0);
    } else {
      HalvesPower(k / 2);
      var e: nat :| k / 2 == Power(e);
      assert k == Power(e + 1);
    }
  }

  /** The k that are reported: what halves down to one, but not one itself, and multiples of five. */
  lemma EligibleExactly(k: nat)
    ensures Eligible(k) <==> k > 0 && ((k > 1 && Halves(k)) || k % 5 == 0)
  {
    if e: nat :| k == Power(e) {
      PowerHalves(e);
    }
    if Halves(k) {
      HalvesPower(k);
      var e: nat :| k == Power(e);
      PowerHalves(e);
    }
  }

  lemma {:induction false} PowerMonotone(d: nat, e: nat)
    requires d <= e
    ensures 1 <= Power(d) <= Power(e)
  {
    if d < e {
      PowerMonotone(d, e - 1);
    } else if d > 0 {
      PowerMonotone(d - 1, d - 1);
    }
  }

  /** The first loop of `eligible_k_values`. A `Vec` holds fewer than 2^63
      elements, so the doubling stays inside `usize`. */
  method PowersOfTwo(maxK: nat) returns (values: set<nat>)
    requires maxK < U64 / 2
    ensures forall k: nat :: k in values <==> k <= maxK && exists e: nat :: e > 0 && k == Power(e)
  {
    values := {};
    var k := 2;
    ghost var e: nat := 1;
    while k <= maxK
      invariant e >= 1 && k == Power(e) && k < U64
      invariant forall v: nat :: v in values <==> v <= maxK && exists d: nat :: 0 < d < e && v == Power(d)
      decreases maxK + 1 - k
    {
      values := values + {k};
      k := k * 2;
      e := e + 1;
      assert Power(e) == k && Power(e - 1) > 0;
    }
    forall v: nat | v <= maxK && exists d: nat :: d > 0 && v == Power(d)
      ensures v in values
    {
      var d: nat :| d > 0 && v == Power(d);
      if d >= e {
        PowerMonotone(e, d);
      }
    }
  }

  /** `eligible_k_values`, up to the order of the result. */
  method EligibleKValues(maxK: nat) returns (values: set<nat>)
    requires maxK < U64 / 2
    ensures forall k: nat :: k in values <==> k <= maxK && Eligible(k)
  {
    values := PowersOfTwo(maxK);
    ghost var powers := values;
    var k := 5;
    while k <= maxK
      invariant k > 0 && k % 5 == 0
      invariant forall v: nat :: v in values <==> v in powers || (v <= maxK && 0 < v < k && v % 5 == 0)
      decreases maxK + 5 - k
    {
      values := values + {k};
      k := k + 5;
    }
  }

  function Correct(successes: seq<bool>): (c: nat)
    ensures c <= |successes|
  {
    if successes == [] then 0
    else Correct(successes[..|successes| - 1]) + (if successes[|successes| - 1] then 1 else 0)
  }

  function TotalPass(tasks: seq<seq<bool>>, k: nat): real
    requires forall t :: t in tasks ==> k <= |t|
  {
    if tasks == [] then 0.0
    else
      var last := tasks[|tasks| - 1];
      TotalPass(tasks[..|tasks| - 1], k) + ForTask(|last|, Correct(last), k)
  }

  ghost predicate AllHave(tasks: seq<seq<bool>>, k: nat) {
    forall t :: t in tasks ==> k <= |t|
  }

  // ------------------------------------------------------------------
  // The table by draws
  // ------------------------------------------------------------------

  /** The positions of a task's trials, and of its successful ones. */
  function Positions(n: nat): (r: set<nat>)
    ensures forall i: nat :: i in r <==> i < n
  {
    if n == 0 then {} else Positions(n - 1) + {n - 1}
  }

  function Successes(trials: seq<bool>): set<nat> {
    set i | 0 <= i < |trials| && trials[i]
  }

  lemma {:induction false} PositionsSize(n: nat)
    ensures |Positions(n)| == n
  {
    if n > 0 {
      PositionsSize(n - 1);
    }
  }

  /** A task's count of successes is the number of positions that hold one. */
  lemma {:induction false} CorrectCounts(trials: seq<bool>)
    ensures Correct(trials) == |Successes(trials)|
  {
    if trials != [] {
      var n := |trials| - 1;
      CorrectCounts(trials[..n]);
      assert Successes(trials) == Successes(trials[..n]) + if trials[n] then {n} else {};
    }
  }

  /** The draws of `k` trials of a task, and those with a success among them. */
  ghost function TaskDraws(trials: seq<bool>, k: nat): set<set<nat>> {
    Draws(Positions(|trials|), k)
  }

  ghost function Hits(trials: seq<bool>, k: nat): set<set<nat>> {
    set t | t in TaskDraws(trials, k) && exists i :: i in t && i < |trials| && trials[i]
  }

  /** A task's estimate is the exact share of draws of its trials that hold a success. */
  lemma TaskByDraws(trials: seq<bool>, k: nat)
    requires k <= |trials|
    ensures |TaskDraws(trials, k)| > 0
    ensures ForTask(|trials|, Correct(trials), k) == |Hits(trials, k)| as real / |TaskDraws(trials, k)| as real
  {
    hide Draws, ForTask;
    var all, good := Positions(|trials|), Successes(trials);
    PositionsSize(|trials|);
    CorrectCounts(trials);
    ShareOfDraws(all, good, k);
    var hits := set t | t in Draws(all, k) && t * good != {};
    forall t
      ensures t in hits <==> t in Hits(trials, k)
    {
      if i :| i in t && i < |trials| && trials[i] {
        assert i in t * good;
      }
      if t * good != {} {
        var i :| i in t * good;
      }
    }
    assert hits == Hits(trials, k);
  }

  ghost function Shares(tasks: seq<seq<bool>>, k: nat): real {
    if tasks == [] then 0.0
    else
      var last := tasks[|tasks| - 1];
      Shares(tasks[..|tasks| - 1], k)
      + (if TaskDraws(last, k) == {} then 0.0 else |Hits(last, k)| as real / |TaskDraws(last, k)| as real)
  }

  lemma {:induction false} TotalIsShares(tasks: seq<seq<bool>>, k: nat)
    requires AllHave(tasks, k)
    ensures TotalPass(tasks, k) == Shares(tasks, k)
  {
    hide TaskDraws, Hits, ForTask, Correct;
    if tasks != [] {
      TotalIsShares(tasks[..|tasks| - 1], k);
      TaskByDraws(tasks[|tasks| - 1], k);
    }
  }

  // ------------------------------------------------------------------
  // Computing the table
  // ------------------------------------------------------------------

  method MinTrials(tasks: seq<seq<bool>>) returns (m: nat)
    requires tasks != []
    ensures AllHave(tasks, m) && exists t :: t in tasks && |t| == m
  {
    m := |tasks[0]|;
    for i := 1 to |tasks|
      invariant exists t :: t in tasks && |t| == m
      invariant forall j :: 0 <= j < i ==> m <= |tasks[j]|
    {
      if |tasks[i]| < m {
        m := |tasks[i]|;
      }
    }
  }

  /** The inner loop: the estimates for one k, summed, which are the tasks' shares of
      draws with a success; no sum past 32 bits. */
  method SumEstimates(tasks: seq<seq<bool>>, k: nat) returns (r: Option<real>)
    requires AllHave(tasks, k)
    ensures r.Some? <==> forall t :: t in tasks ==> |t| < U32
    ensures r.Some? ==> r.value == Shares(tasks, k)
  {
    var estimate := 0.0;
    for i := 0 to |tasks|
      invariant forall j :: 0 <= j < i ==> |tasks[j]| < U32
      invariant estimate == TotalPass(tasks[..i], k)
    {
      var n := |tasks[i]|;
      if n >= U32 {
        return None;
      }
      assert tasks[..i + 1][..i] == tasks[..i];
      var share := EstimateForTask(n, Correct(tasks[i]), k);
      estimate := estimate + share;
    }
    assert tasks[..|tasks|] == tasks;
    TotalIsShares(tasks, k);
    return Some(estimate);
  }

  /** What one row of the table reports: the mean over the tasks of the share of draws of
      `k` trials that hold a success. */
  ghost predicate RowExact(tasks: seq<seq<bool>>, k: nat, estimate: real) {
    tasks != [] && AllHave(tasks, k) && estimate == Shares(tasks, k) / |tasks| as real
  }

  /** `compute_pass_at_k_for_tasks`: `tasks` lists each task's trials in key order.
      Every k reported is at most every task's trial count, so each estimate is
      defined; a count beyond 32 bits yields no table. */
  method ForTasks(tasks: seq<seq<bool>>) returns (r: Option<map<nat, real>>)
    requires forall t :: t in tasks ==> |t| < U64 / 2
    ensures r.Some? <==>
      (tasks != [] && |tasks| < U32 && (AllHave(tasks, 2) ==> forall t :: t in tasks ==> |t| < U32))
    ensures r.Some? ==> forall k: nat :: k in r.value <==> Eligible(k) && AllHave(tasks, k)
    ensures r.Some? ==> forall k: nat :: k in r.value ==> RowExact(tasks, k, r.value[k])
  {
    if tasks == [] {
      return None;
    }
    var minTrials := MinTrials(tasks);
    if |tasks| >= U32 {
      return None;
    }
    var values := EligibleKValues(minTrials);
    ghost var all := values;
    forall k: nat
      ensures k in all <==> Eligible(k) && AllHave(tasks, k)
    {
    }
    if AllHave(tasks, 2) {
      assert Power(1) == 2;
      assert Eligible(2) && 2 in values;
    } else {
      assert values == {} by {
        forall k: nat | Eligible(k)
          ensures k >= 2
        {
          if e: nat :| e > 0 && k == Power(e) {
            PowerMonotone(1, e);
          }
        }
      }
    }
    var table: map<nat, real> := map[];
    while values != {}
      invariant values <= all && table.Keys == all - values
      invariant all == values || forall t :: t in tasks ==> |t| < U32
      invariant forall k: nat :: k in table ==> RowExact(tasks, k, table[k])
      decreases |values|
    {
      var k :| k in values;
      values := values - {k};
      if k >= U32 {
        return None;
      }
      var estimate := SumEstimates(tasks, k);
      if estimate.None? {
        return None;
      }
      table := table[k := estimate.value / |tasks| as real];
    }
    return Some(table);
  }

  lemma {:induction false} EqualShares(tasks: seq<seq<bool>>, k: nat, share: real)
    requires AllHave(tasks, k)
    requires forall t :: t in tasks ==> ForTask(|t|, Correct(t), k) == share
    ensures TotalPass(tasks, k) == |tasks| as real * share
  {
    hide ForTask, Correct;
    if tasks != [] {
      EqualShares(tasks[..|tasks| - 1], k, share);
      assert tasks[|tasks| - 1] in tasks;
    }
  }

  /** Tasks that always succeed are reported with one, tasks that never do with zero. */
  lemma CertainRows(tasks: seq<seq<bool>>, k: nat, estimate: real)
    requires k > 0 && RowExact(tasks, k, estimate)
    ensures (forall t, i :: t in tasks && 0 <= i < |t| ==> t[i]) ==> estimate == 1.0
    ensures (forall t, i :: t in tasks && 0 <= i < |t| ==> !t[i]) ==> estimate == 0.0
  {
    hide Correct, ForTask, TotalPass, Shares;
    TotalIsShares(tasks, k);
    if forall t, i :: t in tasks && 0 <= i < |t| ==> t[i] {
      forall t | t in tasks
        ensures ForTask(|t|, Correct(t), k) == 1.0
      {
        CorrectCounts(t);
        assert Successes(t) == Positions(|t|);
        PositionsSize(|t|);
        CertainSuccess(|t|, |t|, k);
      }
      EqualShares(tasks, k, 1.0);
    }
    if forall t, i :: t in tasks && 0 <= i < |t| ==> !t[i] {
      forall t | t in tasks
        ensures ForTask(|t|, Correct(t), k) == 0.0
      {
        CorrectCounts(t);
        assert Successes(t) == {};
        CertainFailure(|t|, k);
      }
      EqualShares(tasks, k, 0.0);
    }
  }

  lemma CertainFailure(n: nat, k: nat)
    requires k <= n
    ensures ForTask(n, 0, k) == 0.0
  {
    ChoosePositive(n, k);
    assert Choose(n, k) as real / Choose(n, k) as real == 1.0;
  }
}
