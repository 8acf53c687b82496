/** How `run_tasks` turns the completions of one call, in whatever order they
    arrive, into a result in input order. */
module Executor {
  import opened Common
  import opened Admission
  import opened Sorting

  predicate Earlier<T>(a: (nat, T), b: (nat, T)) {
    a.0 < b.0
  }

  /** `sort_unstable_by_key` on the input index. */
  function SortByIndex<T>(entries: seq<(nat, T)>): seq<(nat, T)> {
    Sort(Earlier, entries)
  }

  function Outputs<T>(entries: seq<(nat, T)>): (r: seq<T>)
    ensures |r| == |entries|
  {
    seq(|entries|, i requires 0 <= i < |entries| => entries[i].1)
  }

  ghost predicate FirstFailure<T, E>(completed: seq<(nat, Result<T, E>)>, error: E) {
    exists k :: 0 <= k < |completed| && completed[k].1 == Err(error)
      && forall j :: 0 <= j < k ==> completed[j].1.Ok?
  }

  function Successes<T, E>(completed: seq<(nat, Result<T, E>)>): seq<(nat, T)> {
    if completed == [] then []
    else
      var last := completed[|completed| - 1];
      Successes(completed[..|completed| - 1]) + (if last.1.Ok? then [(last.0, last.1.value)] else [])
  }

  /** What a call returns for its completions: the error that completed first or,
      without errors, the successes by input index. */
  ghost predicate Collects<T, E>(completed: seq<(nat, Result<T, E>)>, r: Result<seq<T>, E>) {
    && (r.Err? ==> FirstFailure(completed, r.error))
    && (r.Ok? <==> forall k :: 0 <= k < |completed| ==> completed[k].1.Ok?)
    && (r.Ok? ==> r.value == Outputs(SortByIndex(Successes(completed))))
  }

  /** The collection loop of `run_tasks`: later failures are drained, not returned. */
  method Collect<T, E>(completed: seq<(nat, Result<T, E>)>) returns (r: Result<seq<T>, E>)
    ensures Collects(completed, r)
  {
    var results: seq<(nat, T)> := [];
    var firstError: Option<E> := None;
    for n := 0 to |completed|
      invariant results == Successes(completed[..n])
      invariant firstError.Some? ==> FirstFailure(completed, firstError.value)
      invariant firstError.None? <==> forall k :: 0 <= k < n ==> completed[k].1.Ok?
    {
      assert completed[..n + 1][..n] == completed[..n];
      match completed[n].1 {
        case Ok(value) => results := results + [(completed[n].0, value)];
        case Err(error) =>
          if firstError.None? {
            firstError := Some(error);
          }
      }
    }
    assert completed[..|completed|] == completed;
    if firstError.Some? {
      return Err(firstError.value);
    }
    return Ok(Outputs(SortByIndex(results)));
  }

  // ------------------------------------------------------------------
  // Input order
  // ------------------------------------------------------------------

  ghost predicate DistinctIndices<T>(entries: seq<(nat, T)>) {
    forall x, y :: 0 <= x < y < |entries| ==> entries[x].0 != entries[y].0
  }

  /** The completions of call `b`, in arrival order, when attempt `i` ends with `outcome(i)`. */
  function Completions<T, E>(c: Config, log: seq<nat>, b: nat, outcome: nat -> Result<T, E>)
    : seq<(nat, Result<T, E>)>
  {
    if log == [] then []
    else
      var i := log[|log| - 1];
      Completions(c, log[..|log| - 1], b, outcome)
      + (if i < |c.batch| && c.batch[i] == b then [(i, outcome(i))] else [])
  }

  lemma {:induction false} CompletionsExact<T(!new), E(!new)>(c: Config, log: seq<nat>, b: nat,
      outcome: nat -> Result<T, E>)
    requires forall x, y :: 0 <= x < y < |log| ==> log[x] != log[y]
    ensures DistinctIndices(Completions(c, log, b, outcome))
    ensures forall e: (nat, Result<T, E>) :: e in Completions(c, log, b, outcome) <==>
      e.0 in log && e.0 in c.Members(b) && e.1 == outcome(e.0)
  {
    if log != [] {
      var init, last := log[..|log| - 1], log[|log| - 1];
      assert log == init + [last] && last !in init;
      CompletionsExact(c, init, b, outcome);
      var before := Completions(c, init, b, outcome);
      assert forall k :: 0 <= k < |before| ==> before[k] in before;
    }
  }

  lemma {:induction false} SuccessesExact<T(!new), E(!new)>(completed: seq<(nat, Result<T, E>)>)
    requires DistinctIndices(completed)
    ensures DistinctIndices(Successes(completed))
    ensures forall e: (nat, T) :: e in Successes(completed) <==> (e.0, Ok(e.1)) in completed
  {
    if completed != [] {
      var init, last := completed[..|completed| - 1], completed[|completed| - 1];
      assert completed == init + [last];
      SuccessesExact(init);
      var before := Successes(init);
      forall k | 0 <= k < |before|
        ensures before[k].0 != last.0
      {
        assert before[k] in before;
      }
    }
  }

  /** However the window interleaved the attempts, a call whose attempts all
      succeed gets its results back in the order the inputs were given. */
  lemma ResultsInInputOrder<T(!new), E(!new)>(
    c: Config, steps: seq<Step>, s: System, b: nat, outcome: nat -> Result<T, E>, order: seq<nat>)
    requires c.Valid() && IsRun(c, Initial(c), steps, s) && |s.phases| == c.Size()
    requires forall k :: 0 <= k < |steps| ==> !steps[k].Abandon?
    requires forall step :: Enabled(c, s, step) ==> step.Abandon?
    requires (forall x, y :: 0 <= x < y < |order| ==> order[x] < order[y])
      && forall i: nat :: i in order <==> i in c.Members(b)
    requires forall i: nat :: i in c.Members(b) ==> outcome(i).Ok?
    ensures var completed := Completions(c, s.finished, b, outcome);
            && (forall k :: 0 <= k < |completed| ==> completed[k].1.Ok?)
            && var r := Outputs(SortByIndex(Successes(completed)));
               |r| == |order| && forall k :: 0 <= k < |r| ==> r[k] == outcome(order[k]).value
  {
    hide IsRun, Enabled, Completions, Successes, Sort;
    EveryAttemptCompletes(c, steps, s);
    var completed := Completions(c, s.finished, b, outcome);
    CompletionsExact(c, s.finished, b, outcome);
    forall k | 0 <= k < |completed|
      ensures completed[k].1.Ok?
    {
      assert completed[k] in completed;
    }
    SuccessesExact(completed);
    var successes := Successes(completed);
    assert forall k :: 0 <= k < |order| ==> order[k] in order;
    var expected := seq(|order|, k requires 0 <= k < |order| => (order[k], outcome(order[k]).value));
    assert Comparable(Earlier, successes);
    SortAscends(Earlier, successes);
    forall e: (nat, T)
      ensures e in SortByIndex(successes) <==> e in expected
    {
      if e.0 in order {
        var k :| 0 <= k < |order| && order[k] == e.0;
        assert expected[k] in expected;
      }
    }
    AscendingUnique(Earlier, SortByIndex(successes), expected);
  }

  // ------------------------------------------------------------------
  // The error that completed first
  // ------------------------------------------------------------------

  /** The `x`th attempt to complete is the first of call `b` to have failed. */
  ghost predicate FirstFailing<T, E>(c: Config, log: seq<nat>, b: nat, outcome: nat -> Result<T, E>, x: nat) {
    && x < |log| && log[x] in c.Members(b) && outcome(log[x]).Err?
    && forall y :: 0 <= y < x && log[y] in c.Members(b) ==> outcome(log[y]).Ok?
  }

  lemma {:induction false} SucceededSoFar<T(!new), E(!new)>(c: Config, log: seq<nat>, b: nat,
      outcome: nat -> Result<T, E>)
    requires forall k :: 0 <= k < |Completions(c, log, b, outcome)| ==> Completions(c, log, b, outcome)[k].1.Ok?
    ensures forall y :: 0 <= y < |log| && log[y] in c.Members(b) ==> outcome(log[y]).Ok?
  {
    if log != [] {
      var init, last := log[..|log| - 1], log[|log| - 1];
      var before, all := Completions(c, init, b, outcome), Completions(c, log, b, outcome);
      assert forall k :: 0 <= k < |before| ==> all[k] == before[k];
      SucceededSoFar(c, init, b, outcome);
      assert last in c.Members(b) ==> all[|before|] == (last, outcome(last));
      assert forall y :: 0 <= y < |init| ==> log[y] == init[y];
    }
  }

  lemma {:induction false} FirstInLog<T(!new), E(!new)>(c: Config, log: seq<nat>, b: nat,
      outcome: nat -> Result<T, E>, error: E) returns (x: nat)
    requires FirstFailure(Completions(c, log, b, outcome), error)
    ensures FirstFailing(c, log, b, outcome, x) && outcome(log[x]) == Err(error)
  {
    var init, last := log[..|log| - 1], log[|log| - 1];
    var before, all := Completions(c, init, b, outcome), Completions(c, log, b, outcome);
    assert forall j :: 0 <= j < |before| ==> all[j] == before[j];
    var k :| 0 <= k < |all| && all[k].1 == Err(error) && forall j :: 0 <= j < k ==> all[j].1.Ok?;
    if k < |before| {
      assert before[k].1 == Err(error);
      x := FirstInLog(c, init, b, outcome, error);
      assert forall y :: 0 <= y <= x ==> log[y] == init[y];
    } else {
      SucceededSoFar(c, init, b, outcome);
      x := |log| - 1;
      assert forall y :: 0 <= y < x ==> log[y] == init[y];
    }
  }

  /** However the window interleaved the attempts, a call with a failing attempt
      returns the error of the one that completed first, after all have completed. */
  lemma {:induction false} FirstErrorReturned<T(!new), E(!new)>(
    c: Config, steps: seq<Step>, s: System, b: nat, outcome: nat -> Result<T, E>, i: nat, r: Result<seq<T>, E>)
    requires c.Valid() && IsRun(c, Initial(c), steps, s) && |s.phases| == c.Size()
    requires forall k :: 0 <= k < |steps| ==> !steps[k].Abandon?
    requires forall step :: Enabled(c, s, step) ==> step.Abandon?
    requires i in c.Members(b) && outcome(i).Err?
    requires Collects(Completions(c, s.finished, b, outcome), r)
    ensures exists x: nat ::
      FirstFailing(c, s.finished, b, outcome, x) && r == Err(outcome(s.finished[x]).error)
    ensures forall j: nat :: j < c.Size() ==> j in s.finished
  {
    hide IsRun, Enabled, Completions, Successes, Sort;
    EveryAttemptCompletes(c, steps, s);
    var completed := Completions(c, s.finished, b, outcome);
    CompletionsExact(c, s.finished, b, outcome);
    assert (i, outcome(i)) in completed;
    var x := FirstInLog(c, s.finished, b, outcome, r.error);
  }
}
