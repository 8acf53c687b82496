/** The job result a Harbor recorder rewrites after every terminal event: counts,
    token totals and the reward and exception buckets, over resumed sessions. */
module Accounting {
  import opened Common

  // ------------------------------------------------------------------
  // Buckets: trial names filed under a key
  // ------------------------------------------------------------------

  type Buckets<K> = map<K, seq<string>>

  function At<K(==)>(b: Buckets<K>, k: K): seq<string> {
    if k in b then b[k] else []
  }

  /** `entry(key).or_default().push(name)` */
  function Push<K(==)>(b: Buckets<K>, k: K, name: string): Buckets<K> {
    b[k := At(b, k) + [name]]
  }

  function PushAll<K(==)>(b: Buckets<K>, filed: seq<(K, string)>): Buckets<K> {
    if filed == [] then b
    else Push(PushAll(b, filed[..|filed| - 1]), filed[|filed| - 1].0, filed[|filed| - 1].1)
  }

  /** `entry(key).or_default().extend(names)` for every key of `more`. */
  function Merged<K(==)>(more: Buckets<K>, b: Buckets<K>): Buckets<K> {
    map k | k in more.Keys + b.Keys :: if k in more then At(b, k) + more[k] else b[k]
  }

  function NamesAt<K(==)>(filed: seq<(K, string)>, k: K): seq<string> {
    if filed == [] then []
    else
      var last := filed[|filed| - 1];
      NamesAt(filed[..|filed| - 1], k) + (if last.0 == k then [last.1] else [])
  }

  lemma {:induction false} PushAllAppend<K(!new)>(b: Buckets<K>, xs: seq<(K, string)>, ys: seq<(K, string)>)
    ensures PushAll(PushAll(b, xs), ys) == PushAll(b, xs + ys)
  {
    if ys == [] {
      assert xs + ys == xs;
    } else {
      assert (xs + ys)[..|xs + ys| - 1] == xs + ys[..|ys| - 1];
      PushAllAppend(b, xs, ys[..|ys| - 1]);
    }
  }

  lemma PushAt<K(!new)>(b: Buckets<K>, k: K, name: string, k': K)
    ensures At(Push(b, k, name), k') == At(b, k') + (if k == k' then [name] else [])
  {
  }

  lemma {:induction false} PushAllAt<K(!new)>(b: Buckets<K>, filed: seq<(K, string)>, k: K)
    ensures At(PushAll(b, filed), k) == At(b, k) + NamesAt(filed, k)
  {
    if filed != [] {
      var init, last := filed[..|filed| - 1], filed[|filed| - 1];
      PushAllAt(b, init, k);
      PushAt(PushAll(b, init), last.0, last.1, k);
    }
  }

  lemma MergedPush<K(!new)>(more: Buckets<K>, b: Buckets<K>, k: K, name: string)
    ensures Merged(Push(more, k, name), b) == Push(Merged(more, b), k, name)
  {
    assert At(b, k) + (At(more, k) + [name]) == (At(b, k) + At(more, k)) + [name];
    assert At(Merged(more, b), k) == At(b, k) + At(more, k);
  }

  /** Merging what was filed on its own is filing it on top. */
  lemma {:induction false} MergedIsPushAll<K(!new)>(b: Buckets<K>, filed: seq<(K, string)>)
    ensures Merged(PushAll(map[], filed), b) == PushAll(b, filed)
  {
    if filed == [] {
      assert Merged(map[], b) == b;
    } else {
      var init, last := filed[..|filed| - 1], filed[|filed| - 1];
      MergedIsPushAll(b, init);
      MergedPush(PushAll(map[], init), b, last.0, last.1);
    }
  }

  // ------------------------------------------------------------------
  // Results, failures and totals
  // ------------------------------------------------------------------

  datatype Usage = Usage(input: nat, cached: nat, output: nat, cost: Option<real>) {
    function Plus(u: Usage): Usage {
      Usage(input + u.input, cached + u.cached, output + u.output,
            if u.cost.None? then cost
            else if cost.None? then u.cost
            else Some(cost.value + u.cost.value))
    }
  }

  const NO_USAGE := Usage(0, 0, 0, None)

  /** `rewards` lists each metric with the key its reward is filed under, in the
      order of the source's map. */
  datatype EvalResult = EvalResult(attempt: nat, trial: string, model: string, rewards: seq<(string, string)>,
                                   usage: Usage)

  datatype EvalFailure = EvalFailure(attempt: nat, trial: string, model: string, exception: string)

  datatype EvalStats = EvalStats(trials: nat, errors: nat, passAtK: map<nat, real>,
                                 rewards: Buckets<(string, string)>, exceptions: Buckets<string>)

  datatype Stats = Stats(completed: nat, errored: nat, pending: nat, evals: map<string, EvalStats>, usage: Usage)

  const NO_EVAL := EvalStats(0, 0, map[], map[], map[])
  const NO_STATS := Stats(0, 0, 0, map[], NO_USAGE)

  function ModelKey(model: string): string {
    "nanocodex__" + model + "__nanoeval/local"
  }

  const DEFAULT_KEY := "nanocodex__nanoeval/local"

  function Filed(r: EvalResult): seq<((string, string), string)> {
    seq(|r.rewards|, i requires 0 <= i < |r.rewards| => (r.rewards[i], r.trial))
  }

  function RewardPairs(results: seq<EvalResult>): seq<((string, string), string)> {
    if results == [] then [] else RewardPairs(results[..|results| - 1]) + Filed(results[|results| - 1])
  }

  function ExceptionPairs(failures: seq<EvalFailure>): seq<(string, string)> {
    seq(|failures|, i requires 0 <= i < |failures| => (failures[i].exception, failures[i].trial))
  }

  function TotalUsage(results: seq<EvalResult>): Usage {
    if results == [] then NO_USAGE else TotalUsage(results[..|results| - 1]).Plus(results[|results| - 1].usage)
  }

  /** The model is that of the first result or, without results, of the first failure. */
  function EvalKey(results: seq<EvalResult>, failures: seq<EvalFailure>): Option<string> {
    if results != [] then Some(ModelKey(results[0].model))
    else if failures != [] then Some(ModelKey(failures[0].model))
    else None
  }

  datatype Delta = Delta(key: Option<string>, stats: EvalStats, usage: Usage)

  function DeltaOf(results: seq<EvalResult>, failures: seq<EvalFailure>): Delta {
    Delta(EvalKey(results, failures),
          EvalStats(|results|, |failures|, map[], PushAll(map[], RewardPairs(results)),
                    PushAll(map[], ExceptionPairs(failures))),
          TotalUsage(results))
  }

  /** `HarborJobDelta::new` */
  method NewDelta(results: seq<EvalResult>, failures: seq<EvalFailure>) returns (delta: Delta)
    ensures delta == DeltaOf(results, failures)
  {
    var rewards: Buckets<(string, string)> := map[];
    var usage := NO_USAGE;
    for i := 0 to |results|
      invariant rewards == PushAll(map[], RewardPairs(results[..i]))
      invariant usage == TotalUsage(results[..i])
    {
      assert results[..i + 1][..i] == results[..i];
      rewards := FileRewards(rewards, results[i]);
      PushAllAppend(map[], RewardPairs(results[..i]), Filed(results[i]));
      usage := usage.Plus(results[i].usage);
    }
    var exceptions: Buckets<string> := map[];
    for i := 0 to |failures|
      invariant exceptions == PushAll(map[], ExceptionPairs(failures)[..i])
    {
      assert ExceptionPairs(failures)[..i + 1][..i] == ExceptionPairs(failures)[..i];
      exceptions := Push(exceptions, failures[i].exception, failures[i].trial);
    }
    assert results[..|results|] == results;
    assert ExceptionPairs(failures)[..|failures|] == ExceptionPairs(failures);
    delta := Delta(EvalKey(results, failures), EvalStats(|results|, |failures|, map[], rewards, exceptions), usage);
  }

  method FileRewards(before: Buckets<(string, string)>, r: EvalResult) returns (rewards: Buckets<(string, string)>)
    ensures rewards == PushAll(before, Filed(r))
  {
    rewards := before;
    for i := 0 to |r.rewards|
      invariant rewards == PushAll(before, Filed(r)[..i])
    {
      assert Filed(r)[..i + 1][..i] == Filed(r)[..i];
      rewards := Push(rewards, r.rewards[i], r.trial);
    }
    assert Filed(r)[..|r.rewards|] == Filed(r);
  }

  function Combined(more: EvalStats, retained: EvalStats): EvalStats {
    EvalStats(retained.trials + more.trials, retained.errors + more.errors, retained.passAtK,
              Merged(more.rewards, retained.rewards), Merged(more.exceptions, retained.exceptions))
  }

  /** The buckets when `waiting` are the keys of `more` still to merge. */
  function PartMerged<K(==)>(more: Buckets<K>, b: Buckets<K>, waiting: set<K>): Buckets<K> {
    map k | k in (more.Keys - waiting) + b.Keys ::
      if k in more && k !in waiting then At(b, k) + more[k] else b[k]
  }

  lemma MergeEnds<K(!new)>(more: Buckets<K>, b: Buckets<K>)
    ensures PartMerged(more, b, more.Keys) == b
    ensures PartMerged(more, b, {}) == Merged(more, b)
  {
    assert PartMerged(more, b, more.Keys).Keys == b.Keys;
  }

  lemma MergeNext<K(!new)>(more: Buckets<K>, b: Buckets<K>, waiting: set<K>, k: K)
    requires waiting <= more.Keys && k in waiting
    ensures var now := PartMerged(more, b, waiting);
      PartMerged(more, b, waiting - {k}) == now[k := At(now, k) + more[k]]
  {
  }

  method MergeBuckets<K(==, !new)>(more: Buckets<K>, retained: Buckets<K>) returns (b: Buckets<K>)
    ensures b == Merged(more, retained)
  {
    b := retained;
    var keys := more.Keys;
    MergeEnds(more, retained);
    while keys != {}
      invariant keys <= more.Keys && b == PartMerged(more, retained, keys)
      decreases |keys|
    {
      var k :| k in keys;
      MergeNext(more, retained, keys, k);
      b := b[k := At(b, k) + more[k]];
      keys := keys - {k};
    }
  }

  /** `merge_into` */
  method MergeInto(more: EvalStats, retained: EvalStats) returns (merged: EvalStats)
    ensures merged == Combined(more, retained)
  {
    var rewards := MergeBuckets(more.rewards, retained.rewards);
    var exceptions := MergeBuckets(more.exceptions, retained.exceptions);
    merged := EvalStats(retained.trials + more.trials, retained.errors + more.errors, retained.passAtK,
                        rewards, exceptions);
  }

  function Get(evals: map<string, EvalStats>, key: string): EvalStats {
    if key in evals then evals[key] else NO_EVAL
  }

  function AppliedEvals(d: Delta, evals: map<string, EvalStats>): map<string, EvalStats> {
    match d.key
    case Some(key) => evals[key := Combined(d.stats, Get(evals, key))]
    case None => if evals == map[] then map[DEFAULT_KEY := d.stats] else evals
  }

  function Applied(d: Delta, s: Stats): Stats {
    Stats(s.completed + (d.stats.trials + d.stats.errors), s.errored + d.stats.errors, s.pending,
          AppliedEvals(d, s.evals), s.usage.Plus(d.usage))
  }

  method ApplyEvals(d: Delta, evals: map<string, EvalStats>) returns (applied: map<string, EvalStats>)
    ensures applied == AppliedEvals(d, evals)
  {
    match d.key
    case Some(key) =>
      var merged := MergeInto(d.stats, Get(evals, key));
      applied := evals[key := merged];
    case None =>
      applied := if evals == map[] then map[DEFAULT_KEY := d.stats] else evals;
  }

  /** The evaluations once old estimates are cleared and those of `waiting` are
      still to be put in. */
  function Estimated(evals: map<string, EvalStats>, estimates: map<string, map<nat, real>>,
      waiting: set<string>): map<string, EvalStats>
  {
    map key | key in evals.Keys + (estimates.Keys - waiting) ::
      Get(evals, key).(passAtK := if key in estimates && key !in waiting then estimates[key] else map[])
  }

  lemma EstimateNext(evals: map<string, EvalStats>, estimates: map<string, map<nat, real>>, waiting: set<string>,
      key: string)
    requires waiting <= estimates.Keys && key in waiting
    ensures var now := Estimated(evals, estimates, waiting);
      Estimated(evals, estimates, waiting - {key}) == now[key := Get(now, key).(passAtK := estimates[key])]
  {
  }

  /** The statistics `write_job` builds up. */
  class JobStats {
    var completed: nat
    var errored: nat
    var pending: nat
    var evals: map<string, EvalStats>
    var usage: Usage

    function Value(): Stats
      reads this
    {
      Stats(completed, errored, pending, evals, usage)
    }

    constructor (s: Stats)
      ensures Value() == s
    {
      completed, errored, pending, evals, usage := s.completed, s.errored, s.pending, s.evals, s.usage;
    }

    /** `HarborJobDelta::apply` */
    method Apply(d: Delta)
      modifies this
      ensures Value() == Applied(d, old(Value()))
    {
      evals := ApplyEvals(d, evals);
      completed := completed + (d.stats.trials + d.stats.errors);
      errored := errored + d.stats.errors;
      usage := usage.Plus(d.usage);
    }

    /** Old estimates go; `estimates` come from the trial directories. */
    method ReplacePassAtK(estimates: map<string, map<nat, real>>)
      modifies `evals
      ensures evals == Estimated(old(evals), estimates, {})
    {
      ghost var before := evals;
      evals := map key | key in evals :: evals[key].(passAtK := map[]);
      var keys := estimates.Keys;
      while keys != {}
        invariant keys <= estimates.Keys && evals == Estimated(before, estimates, keys)
        decreases |keys|
      {
        var key :| key in keys;
        EstimateNext(before, estimates, keys, key);
        evals := evals[key := Get(evals, key).(passAtK := estimates[key])];
        keys := keys - {key};
      }
    }
  }

  // ------------------------------------------------------------------
  // The job result
  // ------------------------------------------------------------------

  datatype JobResult = JobResult(total: nat, finished: bool, stats: Stats)

  function OrZero(n: Option<nat>): nat {
    if n.None? then 0 else n.value
  }

  function BaselineStats(baseline: Option<JobResult>): Stats {
    if baseline.None? then NO_STATS else baseline.value.stats
  }

  function BaselineTotal(baseline: Option<JobResult>): nat {
    if baseline.None? then 0 else baseline.value.total
  }

  /** The count the caller knows of, never below what is planned or recorded. */
  function Total(n: nat, planned: Option<nat>, baseline: Option<JobResult>, completed: nat): nat {
    Max(Max(Max(n, OrZero(planned)), BaselineTotal(baseline)), completed)
  }

  lemma TotalCoversCompleted(n: nat, planned: Option<nat>, baseline: Option<JobResult>, completed: nat)
    ensures Total(n, planned, baseline, completed) >= completed
  {
  }

  function Rebuilt(baseline: Option<JobResult>, results: seq<EvalResult>, failures: seq<EvalFailure>): Stats {
    Applied(DeltaOf(results, failures), BaselineStats(baseline))
  }

  function Written(baseline: Option<JobResult>, planned: Option<nat>, estimates: map<string, map<nat, real>>,
      results: seq<EvalResult>, failures: seq<EvalFailure>, n: nat): JobResult
  {
    var stats := Rebuilt(baseline, results, failures);
    var total := Total(n, planned, baseline, stats.completed);
    JobResult(total, total > 0 && stats.completed == total,
              stats.(evals := Estimated(stats.evals, estimates, {}), pending := total - stats.completed))
  }

  /** `write_job` */
  method WriteJob(baseline: Option<JobResult>, planned: Option<nat>, estimates: map<string, map<nat, real>>,
      results: seq<EvalResult>, failures: seq<EvalFailure>, n: nat) returns (job: JobResult)
    ensures job == Written(baseline, planned, estimates, results, failures, n)
  {
    hide Applied, DeltaOf, Estimated, BaselineStats, BaselineTotal, Total;
    var stats := new JobStats(BaselineStats(baseline));
    var delta := NewDelta(results, failures);
    stats.Apply(delta);
    stats.ReplacePassAtK(estimates);
    var total := Total(n, planned, baseline, stats.completed);
    TotalCoversCompleted(n, planned, baseline, stats.completed);
    stats.pending := total - stats.completed;
    job := JobResult(total, total > 0 && stats.completed == total, stats.Value());
  }

  // ------------------------------------------------------------------
  // Conservation
  // ------------------------------------------------------------------

  ghost function Pick(m: map<string, nat>): (key: string)
    requires m != map[]
    ensures key in m
  {
    var key :| key in m;
    key
  }

  ghost function MapSum(m: map<string, nat>): nat
    decreases |m|
  {
    if m == map[] then 0 else m[Pick(m)] + MapSum(m - {Pick(m)})
  }

  lemma {:induction false} MapSumRemove(m: map<string, nat>, key: string)
    requires key in m
    ensures MapSum(m) == m[key] + MapSum(m - {key})
    decreases |m|
  {
    var first := Pick(m);
    if first != key {
      MapSumRemove(m - {first}, key);
      MapSumRemove(m - {key}, first);
      assert m - {first} - {key} == m - {key} - {first};
    }
  }

  lemma MapSumPut(m: map<string, nat>, key: string, n: nat)
    ensures MapSum(m[key := n]) + (if key in m then m[key] else 0) == MapSum(m) + n
  {
    MapSumRemove(m[key := n], key);
    if key in m {
      MapSumRemove(m, key);
      assert m[key := n] - {key} == m - {key};
    } else {
      assert m[key := n] - {key} == m;
    }
  }

  lemma {:induction false} MapSumZeros(m: map<string, nat>, wider: map<string, nat>)
    requires m.Keys <= wider.Keys
    requires forall key :: key in wider ==> wider[key] == if key in m then m[key] else 0
    ensures MapSum(m) == MapSum(wider)
    decreases |wider|
  {
    if key :| key in wider && key !in m {
      MapSumRemove(wider, key);
      MapSumZeros(m, wider - {key});
    } else {
      assert m == wider;
    }
  }

  function TrialsOf(evals: map<string, EvalStats>): map<string, nat> {
    map key | key in evals :: evals[key].trials
  }

  function ErrorsOf(evals: map<string, EvalStats>): map<string, nat> {
    map key | key in evals :: evals[key].errors
  }

  /** The job's counters are the sums of its evaluations' counters. */
  ghost predicate Conserved(s: Stats) {
    && s.completed == MapSum(TrialsOf(s.evals)) + MapSum(ErrorsOf(s.evals))
    && s.errored == MapSum(ErrorsOf(s.evals))
  }

  lemma PutTrials(evals: map<string, EvalStats>, key: string, e: EvalStats)
    ensures MapSum(TrialsOf(evals[key := e])) + Get(evals, key).trials == MapSum(TrialsOf(evals)) + e.trials
  {
    hide MapSum;
    MapSumPut(TrialsOf(evals), key, e.trials);
    assert TrialsOf(evals[key := e]) == TrialsOf(evals)[key := e.trials];
  }

  lemma PutErrors(evals: map<string, EvalStats>, key: string, e: EvalStats)
    ensures MapSum(ErrorsOf(evals[key := e])) + Get(evals, key).errors == MapSum(ErrorsOf(evals)) + e.errors
  {
    hide MapSum;
    MapSumPut(ErrorsOf(evals), key, e.errors);
    assert ErrorsOf(evals[key := e]) == ErrorsOf(evals)[key := e.errors];
  }

  lemma AppliedConserves(d: Delta, s: Stats)
    requires Conserved(s) && (d.key.None? ==> d.stats.trials == 0 && d.stats.errors == 0)
    ensures Conserved(Applied(d, s))
  {
    match d.key
    case Some(key) =>
      PutTrials(s.evals, key, Combined(d.stats, Get(s.evals, key)));
      PutErrors(s.evals, key, Combined(d.stats, Get(s.evals, key)));
    case None =>
      if s.evals == map[] {
        PutTrials(s.evals, DEFAULT_KEY, d.stats);
        PutErrors(s.evals, DEFAULT_KEY, d.stats);
        assert s.evals[DEFAULT_KEY := d.stats] == map[DEFAULT_KEY := d.stats];
      }
  }

  lemma EstimatedCounts(evals: map<string, EvalStats>, estimates: map<string, map<nat, real>>)
    ensures MapSum(TrialsOf(Estimated(evals, estimates, {}))) == MapSum(TrialsOf(evals))
    ensures MapSum(ErrorsOf(Estimated(evals, estimates, {}))) == MapSum(ErrorsOf(evals))
  {
    var estimated := Estimated(evals, estimates, {});
    MapSumZeros(TrialsOf(evals), TrialsOf(estimated));
    MapSumZeros(ErrorsOf(evals), ErrorsOf(estimated));
  }

  lemma BaselineConserved(baseline: Option<JobResult>)
    requires baseline.Some? ==> Conserved(baseline.value.stats)
    ensures Conserved(BaselineStats(baseline))
  {
    assert TrialsOf(map[]) == map[] && ErrorsOf(map[]) == map[];
  }

  lemma WrittenConserves(baseline: Option<JobResult>, planned: Option<nat>, estimates: map<string, map<nat, real>>,
      results: seq<EvalResult>, failures: seq<EvalFailure>, n: nat)
    requires baseline.Some? ==> Conserved(baseline.value.stats)
    ensures var job := Written(baseline, planned, estimates, results, failures, n);
      && Conserved(job.stats)
      && job.stats.completed == BaselineStats(baseline).completed + |results| + |failures|
      && job.stats.errored == BaselineStats(baseline).errored + |failures|
      && job.stats.pending + job.stats.completed == job.total
      && (job.finished <==> job.total > 0 && job.stats.pending == 0)
  {
    hide AppliedEvals, Estimated, MapSum, TrialsOf, ErrorsOf, PushAll, RewardPairs, ExceptionPairs, BaselineStats;
    BaselineConserved(baseline);
    var stats := Rebuilt(baseline, results, failures);
    AppliedConserves(DeltaOf(results, failures), BaselineStats(baseline));
    EstimatedCounts(stats.evals, estimates);
  }

  // ------------------------------------------------------------------
  // Terminal events and sessions
  // ------------------------------------------------------------------

  datatype Terminal = Completed(result: EvalResult) | Failed(failure: EvalFailure) {
    function Model(): string {
      if Completed? then result.model else failure.model
    }
  }

  function Results(ts: seq<Terminal>): seq<EvalResult> {
    if ts == [] then []
    else
      var last := ts[|ts| - 1];
      Results(ts[..|ts| - 1]) + (if last.Completed? then [last.result] else [])
  }

  function Failures(ts: seq<Terminal>): seq<EvalFailure> {
    if ts == [] then []
    else
      var last := ts[|ts| - 1];
      Failures(ts[..|ts| - 1]) + (if last.Failed? then [last.failure] else [])
  }

  lemma {:induction false} SplitAppend(xs: seq<Terminal>, ys: seq<Terminal>)
    ensures Results(xs + ys) == Results(xs) + Results(ys)
    ensures Failures(xs + ys) == Failures(xs) + Failures(ys)
  {
    if ys == [] {
      assert xs + ys == xs;
    } else {
      assert (xs + ys)[..|xs + ys| - 1] == xs + ys[..|ys| - 1];
      SplitAppend(xs, ys[..|ys| - 1]);
    }
  }

  lemma {:induction false} SplitSizes(ts: seq<Terminal>)
    ensures |Results(ts)| + |Failures(ts)| == |ts|
  {
    if ts != [] {
      SplitSizes(ts[..|ts| - 1]);
    }
  }

  /** A recorder's life: it writes the job when it attaches, after each terminal
      event and, unless it is stopped, when it finishes. `estimates` are those of
      the last write. */
  datatype Session = Session(planned: Option<nat>, terminals: seq<Terminal>, finish: Option<nat>,
                             estimates: map<string, map<nat, real>>)

  function LastCount(s: Session): nat {
    if s.finish.Some? then s.finish.value
    else if s.terminals == [] then OrZero(s.planned)
    else |Results(s.terminals)| + |Failures(s.terminals)|
  }

  function AfterSession(baseline: Option<JobResult>, s: Session): JobResult {
    Written(baseline, s.planned, s.estimates, Results(s.terminals), Failures(s.terminals), LastCount(s))
  }

  /** Each session starts from the job result the one before left. */
  function AfterSessions(sessions: seq<Session>): Option<JobResult> {
    if sessions == [] then None
    else Some(AfterSession(AfterSessions(sessions[..|sessions| - 1]), sessions[|sessions| - 1]))
  }

  function AllTerminals(sessions: seq<Session>): seq<Terminal> {
    if sessions == [] then []
    else AllTerminals(sessions[..|sessions| - 1]) + sessions[|sessions| - 1].terminals
  }

  ghost predicate Books(job: JobResult, ts: seq<Terminal>) {
    && Conserved(job.stats)
    && job.stats.completed == |ts| && job.stats.errored == |Failures(ts)|
    && job.stats.pending + job.stats.completed == job.total
    && (job.finished <==> job.total > 0 && job.stats.pending == 0)
  }

  lemma FirstSessionKeepsBooks(s: Session)
    ensures Books(AfterSession(None, s), s.terminals)
  {
    hide Written, Conserved, LastCount;
    WrittenConserves(None, s.planned, s.estimates, Results(s.terminals), Failures(s.terminals), LastCount(s));
    SplitSizes(s.terminals);
  }

  lemma LaterSessionKeepsBooks(before: JobResult, ts: seq<Terminal>, s: Session)
    requires Books(before, ts)
    ensures Books(AfterSession(Some(before), s), ts + s.terminals)
  {
    hide Written, Conserved, LastCount;
    WrittenConserves(Some(before), s.planned, s.estimates, Results(s.terminals), Failures(s.terminals), LastCount(s));
    SplitSizes(s.terminals);
    SplitAppend(ts, s.terminals);
  }

  /** Main result: wherever between events the sessions stopped, the job counts
      every terminal event of all of them exactly once. */
  lemma {:induction false} AccountingConserved(sessions: seq<Session>)
    requires sessions != []
    ensures Books(AfterSessions(sessions).value, AllTerminals(sessions))
  {
    hide Books, AfterSession;
    var before, s := sessions[..|sessions| - 1], sessions[|sessions| - 1];
    if before == [] {
      FirstSessionKeepsBooks(s);
      assert AllTerminals(sessions) == s.terminals;
    } else {
      AccountingConserved(before);
      LaterSessionKeepsBooks(AfterSessions(before).value, AllTerminals(before), s);
    }
  }

  /** So for one more session after any others. */
  lemma OneMoreSession(sessions: seq<Session>, s: Session)
    ensures Books(AfterSession(AfterSessions(sessions), s), AllTerminals(sessions) + s.terminals)
  {
    hide Books, AfterSession;
    var all := sessions + [s];
    assert all[..|all| - 1] == sessions && all[|all| - 1] == s;
    AccountingConserved(all);
  }

  /** The job never forgets a planned attempt. */
  lemma {:induction false} TotalCoversPlans(sessions: seq<Session>, i: nat)
    requires i < |sessions|
    ensures AfterSessions(sessions).value.total >= OrZero(sessions[i].planned)
  {
    var before := sessions[..|sessions| - 1];
    if i < |sessions| - 1 {
      TotalCoversPlans(before, i);
      assert before[i] == sessions[i];
      assert BaselineTotal(AfterSessions(before)) >= OrZero(sessions[i].planned);
    }
  }

  /** `total` is the largest of what was recorded, what any session planned and what
      any was told to finish at. */
  ghost predicate Largest(total: nat, sessions: seq<Session>) {
    && total >= |AllTerminals(sessions)|
    && (forall i :: 0 <= i < |sessions| ==>
          (sessions[i].planned.Some? ==> total >= sessions[i].planned.value)
          && (sessions[i].finish.Some? ==> total >= sessions[i].finish.value))
    && (|| total == |AllTerminals(sessions)|
        || exists i :: 0 <= i < |sessions| && (sessions[i].planned == Some(total) || sessions[i].finish == Some(total)))
  }

  lemma LargestGrows(before: seq<Session>, s: Session, total: nat, next: nat)
    requires Largest(total, before)
    requires next >= total && next >= |AllTerminals(before)| + |s.terminals|
    requires (s.planned.Some? ==> next >= s.planned.value) && (s.finish.Some? ==> next >= s.finish.value)
    requires || next == total || next == |AllTerminals(before)| + |s.terminals|
             || s.planned == Some(next) || s.finish == Some(next)
    ensures Largest(next, before + [s])
  {
    var all := before + [s];
    assert all[..|all| - 1] == before && all[|before|] == s;
    assert forall i :: 0 <= i < |before| ==> all[i] == before[i];
    if next == total && total != |AllTerminals(before)| {
      var i :| 0 <= i < |before| && (before[i].planned == Some(total) || before[i].finish == Some(total));
      assert all[i] == before[i];
    }
  }

  lemma TotalIsOne(n: nat, planned: Option<nat>, baseline: Option<JobResult>, completed: nat)
    ensures var total := Total(n, planned, baseline, completed);
      && total >= n && total >= OrZero(planned) && total >= BaselineTotal(baseline) && total >= completed
      && total in {n, OrZero(planned), BaselineTotal(baseline), completed}
  {
  }

  lemma CountIsOne(s: Session)
    ensures s.finish.Some? ==> LastCount(s) == s.finish.value
    ensures s.finish.None? ==> LastCount(s) in {OrZero(s.planned), |s.terminals|}
  {
    SplitSizes(s.terminals);
  }

  lemma TotalSteps(baseline: Option<JobResult>, s: Session, recorded: nat)
    requires BaselineStats(baseline).completed == recorded
    ensures var (before, next) := (BaselineTotal(baseline), AfterSession(baseline, s).total);
      && next >= before && next >= recorded + |s.terminals|
      && (s.planned.Some? ==> next >= s.planned.value) && (s.finish.Some? ==> next >= s.finish.value)
      && (next == before || next == recorded + |s.terminals| || s.planned == Some(next) || s.finish == Some(next))
  {
    hide AppliedEvals, Estimated, PushAll, RewardPairs, ExceptionPairs, TotalUsage, EvalKey, Results, Failures;
    hide Total, LastCount, BaselineTotal;
    SplitSizes(s.terminals);
    CountIsOne(s);
    TotalIsOne(LastCount(s), s.planned, baseline, recorded + |s.terminals|);
  }

  lemma SplitNothing()
    ensures Results([]) == [] && Failures([]) == []
  {
  }

  /** Main result: over any sessions the total is the largest of the events recorded, the
      plans and the counts sessions were finished at; no more and no less. */
  lemma {:induction false} TotalIsLargest(sessions: seq<Session>)
    ensures Largest(BaselineTotal(AfterSessions(sessions)), sessions)
  {
    hide AfterSession, Largest, Books;
    if sessions == [] {
      NothingLargest();
    } else {
      var before, s := sessions[..|sessions| - 1], sessions[|sessions| - 1];
      TotalIsLargest(before);
      RecordedSoFar(before);
      TotalSteps(AfterSessions(before), s, |AllTerminals(before)|);
      LargestGrows(before, s, BaselineTotal(AfterSessions(before)), AfterSession(AfterSessions(before), s).total);
      assert before + [s] == sessions;
    }
  }

  /** A new job whose only session planned no more than it recorded and finished at is done. */
  lemma OneSessionFinishes(s: Session)
    requires s.finish == Some(|s.terminals|) && (s.planned.None? || s.planned == s.finish)
    ensures var job := AfterSession(None, s);
      && job.total == job.stats.completed == |s.terminals| && job.stats.pending == 0
      && (job.finished <==> |s.terminals| > 0)
  {
    hide AfterSession, Conserved;
    assert [s][..0] == [] && AfterSessions([s][..0]) == None;
    TotalIsLargest([s]);
    AccountingConserved([s]);
    assert AllTerminals([s]) == [] + s.terminals;
  }

  lemma NothingLargest()
    ensures Largest(0, [])
  {
  }

  lemma RecordedSoFar(sessions: seq<Session>)
    ensures BaselineStats(AfterSessions(sessions)).completed == |AllTerminals(sessions)|
  {
    hide Conserved, AfterSession;
    if sessions != [] {
      AccountingConserved(sessions);
    }
  }

  /** The estimates of the last write are there, and no older ones. */
  lemma EstimatesAreLast(sessions: seq<Session>, key: string)
    requires sessions != []
    ensures var last := sessions[|sessions| - 1];
      Get(AfterSessions(sessions).value.stats.evals, key).passAtK
      == if key in last.estimates then last.estimates[key] else map[]
  {
    hide AppliedEvals;
  }

  // ------------------------------------------------------------------
  // Tokens and costs
  // ------------------------------------------------------------------

  function AmountIn(r: EvalResult, amount: Usage -> nat): nat {
    amount(r.usage)
  }

  function Amounts(results: seq<EvalResult>, amount: Usage -> nat): seq<nat> {
    seq(|results|, i requires 0 <= i < |results| => AmountIn(results[i], amount))
  }

  function Costs(results: seq<EvalResult>): real {
    if results == [] then 0.0
    else
      var last := results[|results| - 1].usage.cost;
      Costs(results[..|results| - 1]) + if last.Some? then last.value else 0.0
  }

  /** Each token count is the sum over the results, and so is the cost, if any has one. */
  ghost predicate UsageOf(u: Usage, results: seq<EvalResult>) {
    && u.input == Sum(Amounts(results, (v: Usage) => v.input))
    && u.cached == Sum(Amounts(results, (v: Usage) => v.cached))
    && u.output == Sum(Amounts(results, (v: Usage) => v.output))
    && (u.cost.None? <==> forall i :: 0 <= i < |results| ==> results[i].usage.cost.None?)
    && (u.cost.Some? ==> u.cost.value == Costs(results))
  }

  lemma AmountsNext(results: seq<EvalResult>, amount: Usage -> nat)
    requires results != []
    ensures var (init, last) := (results[..|results| - 1], results[|results| - 1]);
      Sum(Amounts(results, amount)) == Sum(Amounts(init, amount)) + amount(last.usage)
  {
    var init := results[..|results| - 1];
    assert Amounts(results, amount)[..|init|] == Amounts(init, amount);
  }

  lemma {:induction false} NoCosts(results: seq<EvalResult>)
    requires forall i :: 0 <= i < |results| ==> results[i].usage.cost.None?
    ensures Costs(results) == 0.0
  {
    if results != [] {
      NoCosts(results[..|results| - 1]);
    }
  }

  lemma {:induction false} TotalUsageExact(results: seq<EvalResult>)
    ensures UsageOf(TotalUsage(results), results)
  {
    hide Sum, Amounts;
    if results == [] {
      NothingUsed();
    } else {
      var init, last := results[..|results| - 1], results[|results| - 1];
      TotalUsageExact(init);
      AmountsNext(results, (v: Usage) => v.input);
      AmountsNext(results, (v: Usage) => v.cached);
      AmountsNext(results, (v: Usage) => v.output);
      assert forall i :: 0 <= i < |init| ==> results[i] == init[i];
      if TotalUsage(init).cost.None? {
        NoCosts(init);
      }
    }
  }

  lemma NothingUsed()
    ensures UsageOf(NO_USAGE, [])
  {
  }

  lemma {:induction false} TotalUsageAppend(a: seq<EvalResult>, b: seq<EvalResult>)
    ensures TotalUsage(a + b) == TotalUsage(a).Plus(TotalUsage(b))
  {
    hide Usage.Plus;
    if b == [] {
      assert a + b == a;
      PlusAssociates(TotalUsage(a), NO_USAGE, NO_USAGE);
    } else {
      var init, last := b[..|b| - 1], b[|b| - 1];
      assert (a + b)[..|a + b| - 1] == a + init;
      TotalUsageAppend(a, init);
      PlusAssociates(TotalUsage(a), TotalUsage(init), last.usage);
    }
  }

  lemma {:induction false} UsageSoFar(sessions: seq<Session>)
    ensures BaselineStats(AfterSessions(sessions)).usage == TotalUsage(Results(AllTerminals(sessions)))
  {
    hide AppliedEvals, Estimated, PushAll, RewardPairs, ExceptionPairs, Usage.Plus, EvalKey, Total, LastCount;
    if sessions == [] {
      SplitNothing();
    } else {
      var before, s := sessions[..|sessions| - 1], sessions[|sessions| - 1];
      UsageSoFar(before);
      SplitAppend(AllTerminals(before), s.terminals);
      TotalUsageAppend(Results(AllTerminals(before)), Results(s.terminals));
    }
  }

  /** Main result: over any sessions the job's token counts and cost are the sums over
      all results. */
  lemma UsageConserved(sessions: seq<Session>)
    ensures UsageOf(BaselineStats(AfterSessions(sessions)).usage, Results(AllTerminals(sessions)))
  {
    hide UsageOf, TotalUsage;
    UsageSoFar(sessions);
    TotalUsageExact(Results(AllTerminals(sessions)));
  }

  // ------------------------------------------------------------------
  // Rebuilding from the baseline against adding events one by one
  // ------------------------------------------------------------------

  /** An evaluation without its estimates, which every write replaces. */
  function View(evals: map<string, EvalStats>, key: string): EvalStats {
    Get(evals, key).(passAtK := map[])
  }

  /** What `ts` add to an evaluation when all belong to it. */
  function Tally(v: EvalStats, ts: seq<Terminal>): EvalStats {
    EvalStats(v.trials + |Results(ts)|, v.errors + |Failures(ts)|, map[],
              PushAll(v.rewards, RewardPairs(Results(ts))),
              PushAll(v.exceptions, ExceptionPairs(Failures(ts))))
  }

  /** The events of the evaluation `key`. */
  function Of(ts: seq<Terminal>, key: string): seq<Terminal> {
    if ts == [] then []
    else
      var last := ts[|ts| - 1];
      Of(ts[..|ts| - 1], key) + (if ModelKey(last.Model()) == key then [last] else [])
  }

  function DeltaOfAll(ts: seq<Terminal>): Delta {
    DeltaOf(Results(ts), Failures(ts))
  }

  function SessionKey(ts: seq<Terminal>): Option<string> {
    EvalKey(Results(ts), Failures(ts))
  }

  function OneByOne(s: Stats, ts: seq<Terminal>): Stats {
    if ts == [] then s else Applied(DeltaOfAll([ts[|ts| - 1]]), OneByOne(s, ts[..|ts| - 1]))
  }

  ghost predicate SameBooks(a: Stats, b: Stats) {
    && a.completed == b.completed && a.errored == b.errored && a.usage == b.usage
    && forall key :: View(a.evals, key) == View(b.evals, key)
  }

  lemma {:induction false} RewardPairsAppend(a: seq<EvalResult>, b: seq<EvalResult>)
    ensures RewardPairs(a + b) == RewardPairs(a) + RewardPairs(b)
  {
    hide Filed;
    if b == [] {
      assert a + b == a;
    } else {
      assert (a + b)[..|a + b| - 1] == a + b[..|b| - 1];
      RewardPairsAppend(a, b[..|b| - 1]);
    }
  }

  lemma TallyAppend(v: EvalStats, a: seq<Terminal>, b: seq<Terminal>)
    ensures Tally(Tally(v, a), b) == Tally(v, a + b)
  {
    hide Results, Failures, RewardPairs, PushAll;
    SplitAppend(a, b);
    RewardPairsAppend(Results(a), Results(b));
    PushAllAppend(v.rewards, RewardPairs(Results(a)), RewardPairs(Results(b)));
    assert ExceptionPairs(Failures(a) + Failures(b)) == ExceptionPairs(Failures(a)) + ExceptionPairs(Failures(b));
    PushAllAppend(v.exceptions, ExceptionPairs(Failures(a)), ExceptionPairs(Failures(b)));
  }

  lemma TallyNothing(v: EvalStats)
    ensures Tally(v, []) == v.(passAtK := map[])
  {
  }

  lemma CombinedIsTally(v: EvalStats, ts: seq<Terminal>)
    ensures Combined(DeltaOfAll(ts).stats, v).(passAtK := map[]) == Tally(v, ts)
  {
    hide Results, Failures, RewardPairs, PushAll, Merged, EvalKey, TotalUsage;
    MergedIsPushAll(v.rewards, RewardPairs(Results(ts)));
    MergedIsPushAll(v.exceptions, ExceptionPairs(Failures(ts)));
  }

  /** A rebuild adds every event to the one evaluation its key names. */
  lemma RebuiltView(evals: map<string, EvalStats>, ts: seq<Terminal>, key: string)
    ensures View(AppliedEvals(DeltaOfAll(ts), evals), key)
         == if SessionKey(ts) == Some(key) then Tally(View(evals, key), ts) else View(evals, key)
  {
    hide Results, Failures, PushAll, RewardPairs, ExceptionPairs, Merged, Combined, TotalUsage, Tally;
    CombinedIsTally(Get(evals, key), ts);
    TallyIgnoresEstimates(Get(evals, key), ts);
    if SessionKey(ts) == None {
      SplitSizes(ts);
      assert Results(ts) == [] && Failures(ts) == [];
      EmptyDelta();
    }
  }

  lemma TallyIgnoresEstimates(v: EvalStats, ts: seq<Terminal>)
    ensures Tally(v.(passAtK := map[]), ts) == Tally(v, ts)
  {
    hide Results, Failures, PushAll;
  }

  lemma EmptyDelta()
    ensures DeltaOf([], []).stats == NO_EVAL
  {
  }

  lemma OneEvent(t: Terminal)
    ensures SessionKey([t]) == Some(ModelKey(t.Model()))
    ensures |Results([t])| + |Failures([t])| == 1
  {
  }

  lemma {:induction false} OneByOneView(s: Stats, ts: seq<Terminal>, key: string)
    ensures View(OneByOne(s, ts).evals, key) == Tally(View(s.evals, key), Of(ts, key))
  {
    hide DeltaOfAll, AppliedEvals, View, Tally, SessionKey, ModelKey;
    if ts == [] {
      TallyNothing(View(s.evals, key));
      ViewIsBare(s.evals, key);
    } else {
      var init, last := ts[..|ts| - 1], ts[|ts| - 1];
      OneByOneView(s, init, key);
      RebuiltView(OneByOne(s, init).evals, [last], key);
      OneEvent(last);
      TallyAppend(View(s.evals, key), Of(init, key), [last]);
      assert Of(init, key) + [] == Of(init, key);
    }
  }

  lemma ViewIsBare(evals: map<string, EvalStats>, key: string)
    ensures View(evals, key).(passAtK := map[]) == View(evals, key)
  {
  }

  lemma PlusAssociates(a: Usage, b: Usage, c: Usage)
    ensures a.Plus(b).Plus(c) == a.Plus(b.Plus(c))
    ensures a.Plus(NO_USAGE) == a && NO_USAGE.Plus(a) == a
  {
  }

  lemma {:induction false} OneByOneTotals(s: Stats, ts: seq<Terminal>)
    ensures var t := OneByOne(s, ts);
      && t.completed == s.completed + |ts| && t.errored == s.errored + |Failures(ts)|
      && t.usage == s.usage.Plus(TotalUsage(Results(ts)))
  {
    if ts == [] {
      PlusAssociates(s.usage, NO_USAGE, NO_USAGE);
    } else {
      hide AppliedEvals, PushAll, RewardPairs, ExceptionPairs, Usage.Plus, EvalKey;
      var init, last := ts[..|ts| - 1], ts[|ts| - 1];
      OneByOneTotals(s, init);
      OneEventTotals(last);
      PlusAssociates(s.usage, TotalUsage(Results(init)), TotalUsage(Results([last])));
      UsageAppend(Results(init), last);
    }
  }

  lemma OneEventTotals(t: Terminal)
    ensures Results([t]) == (if t.Completed? then [t.result] else [])
    ensures Failures([t]) == (if t.Failed? then [t.failure] else [])
  {
  }

  lemma UsageAppend(results: seq<EvalResult>, t: Terminal)
    ensures var more := if t.Completed? then [t.result] else [];
      TotalUsage(results + more) == TotalUsage(results).Plus(TotalUsage(more))
  {
    hide Usage.Plus;
    PlusAssociates(TotalUsage(results), NO_USAGE, NO_USAGE);
    if t.Completed? {
      assert (results + [t.result])[..|results|] == results;
      PlusAssociates(t.result.usage, NO_USAGE, NO_USAGE);
      assert TotalUsage([t.result]) == t.result.usage;
    } else {
      assert results + [] == results;
    }
  }

  predicate OneModel(ts: seq<Terminal>) {
    forall i, j :: 0 <= i < |ts| && 0 <= j < |ts| ==> ts[i].Model() == ts[j].Model()
  }

  lemma ModelKeyReadsBack(a: string, b: string)
    requires ModelKey(a) == ModelKey(b)
    ensures a == b
  {
    var head, tail := "nanocodex__", "__nanoeval/local";
    assert a == ModelKey(a)[|head|..|ModelKey(a)| - |tail|];
    assert b == ModelKey(b)[|head|..|ModelKey(b)| - |tail|];
  }

  lemma {:induction false} SomeModelIsKey(ts: seq<Terminal>) returns (i: nat)
    requires ts != []
    ensures i < |ts| && SessionKey(ts) == Some(ModelKey(ts[i].Model()))
  {
    hide ModelKey;
    if |ts| == 1 {
      assert ts == [ts[0]];
      OneEvent(ts[0]);
      i := 0;
    } else {
      var init, last := ts[..|ts| - 1], ts[|ts| - 1];
      i := SomeModelIsKey(init);
      if Results(init) == [] && last.Completed? {
        i := |ts| - 1;
      }
    }
  }

  lemma {:induction false} OfAll(ts: seq<Terminal>, key: string)
    requires forall i :: 0 <= i < |ts| ==> ModelKey(ts[i].Model()) == key
    ensures Of(ts, key) == ts
  {
    hide ModelKey;
    if ts != [] {
      OfAll(ts[..|ts| - 1], key);
    }
  }

  lemma {:induction false} OfNone(ts: seq<Terminal>, key: string)
    ensures Of(ts, key) == [] <==> forall i :: 0 <= i < |ts| ==> ModelKey(ts[i].Model()) != key
  {
    hide ModelKey;
    if ts != [] {
      OfNone(ts[..|ts| - 1], key);
      assert forall i :: 0 <= i < |ts| - 1 ==> ts[..|ts| - 1][i] == ts[i];
    }
  }

  lemma OneModelView(s: Stats, ts: seq<Terminal>, key: string)
    requires OneModel(ts)
    ensures View(AppliedEvals(DeltaOfAll(ts), s.evals), key) == View(OneByOne(s, ts).evals, key)
  {
    hide AppliedEvals, DeltaOfAll, OneByOne, View, ModelKey, SessionKey, Tally;
    RebuiltView(s.evals, ts, key);
    OneByOneView(s, ts, key);
    TallyNothing(View(s.evals, key));
    ViewIsBare(s.evals, key);
    OfNone(ts, key);
    if ts == [] {
      SplitSizes(ts);
      NoSessionKey();
    } else {
      var i := SomeModelIsKey(ts);
      if SessionKey(ts) == Some(key) {
        OfAll(ts, key);
      }
    }
  }

  lemma NoSessionKey()
    ensures SessionKey([]) == None
  {
  }

  lemma TwoModelsView(s: Stats, ts: seq<Terminal>, i: nat)
    requires i < |ts| && SessionKey(ts) != Some(ModelKey(ts[i].Model()))
    ensures var key := ModelKey(ts[i].Model());
      View(AppliedEvals(DeltaOfAll(ts), s.evals), key) != View(OneByOne(s, ts).evals, key)
  {
    hide AppliedEvals, DeltaOfAll, OneByOne, View, ModelKey, SessionKey, Results, Failures, PushAll;
    var key := ModelKey(ts[i].Model());
    RebuiltView(s.evals, ts, key);
    OneByOneView(s, ts, key);
    OfNone(ts, key);
    SplitSizes(Of(ts, key));
  }

  /** Rebuilding the job from its baseline gives what adding the session's events
      one by one gives, exactly when all of them carry one model. */
  lemma RebuildIsOneByOne(s: Stats, ts: seq<Terminal>)
    ensures SameBooks(Applied(DeltaOfAll(ts), s), OneByOne(s, ts)) <==> OneModel(ts)
  {
    hide AppliedEvals, OneByOne, View, ModelKey, SessionKey, Results, Failures, PushAll, RewardPairs, ExceptionPairs;
    SplitSizes(ts);
    OneByOneTotals(s, ts);
    if OneModel(ts) {
      forall key
        ensures View(AppliedEvals(DeltaOfAll(ts), s.evals), key) == View(OneByOne(s, ts).evals, key)
      {
        OneModelView(s, ts, key);
      }
    } else {
      var a, b :| 0 <= a < |ts| && 0 <= b < |ts| && ts[a].Model() != ts[b].Model();
      var i := SomeModelIsKey(ts);
      var other := if ts[i].Model() == ts[a].Model() then b else a;
      if ModelKey(ts[other].Model()) == ModelKey(ts[i].Model()) {
        ModelKeyReadsBack(ts[other].Model(), ts[i].Model());
      }
      TwoModelsView(s, ts, other);
    }
  }

  /** Every failure carries the model `attempt_failure` stamps on it. */
  ghost predicate Stamped(ts: seq<Terminal>, stamp: string) {
    forall i :: 0 <= i < |ts| && ts[i].Failed? ==> ts[i].Model() == stamp
  }

  /** All results report one model, and it is the stamp if any attempt failed. */
  ghost predicate ResultsAgree(ts: seq<Terminal>, stamp: string) {
    && (forall i, j :: 0 <= i < |ts| && 0 <= j < |ts| && ts[i].Completed? && ts[j].Completed? ==>
          ts[i].Model() == ts[j].Model())
    && (forall i, j :: 0 <= i < |ts| && 0 <= j < |ts| && ts[i].Completed? && ts[j].Failed? ==> ts[i].Model() == stamp)
  }

  /** Main result: with failures stamped as the evaluator does, rebuilding the job is
      adding its events one by one exactly when all results report one model and,
      if an attempt failed, that model is the stamp. */
  lemma RebuildExactly(s: Stats, ts: seq<Terminal>, stamp: string)
    requires Stamped(ts, stamp)
    ensures SameBooks(Applied(DeltaOfAll(ts), s), OneByOne(s, ts)) <==> ResultsAgree(ts, stamp)
  {
    hide SameBooks, Applied, DeltaOfAll, OneByOne;
    RebuildIsOneByOne(s, ts);
  }

  /** One model ran, one attempt succeeded and one failed: the failure's stamp is
      enough to make the two ways differ. */
  lemma OneSuccessOneFailure(s: Stats, r: EvalResult, f: EvalFailure)
    requires r.model != f.model
    ensures Stamped([Completed(r), Failed(f)], f.model)
    ensures !SameBooks(Applied(DeltaOfAll([Completed(r), Failed(f)]), s), OneByOne(s, [Completed(r), Failed(f)]))
  {
    hide SameBooks, Applied, DeltaOfAll, OneByOne;
    var ts := [Completed(r), Failed(f)];
    RebuildExactly(s, ts, f.model);
    assert ts[0].Completed? && ts[1].Failed?;
  }

  lemma SameBooksContinue(a: Stats, b: Stats, ts: seq<Terminal>)
    requires SameBooks(a, b)
    ensures SameBooks(OneByOne(a, ts), OneByOne(b, ts))
  {
    hide OneByOne, View, Tally, Results, Failures, TotalUsage, Usage.Plus;
    OneByOneTotals(a, ts);
    OneByOneTotals(b, ts);
    forall key
      ensures View(OneByOne(a, ts).evals, key) == View(OneByOne(b, ts).evals, key)
    {
      OneByOneView(a, ts, key);
      OneByOneView(b, ts, key);
    }
  }

  lemma {:induction false} OneByOneAppend(s: Stats, xs: seq<Terminal>, ys: seq<Terminal>)
    ensures OneByOne(OneByOne(s, xs), ys) == OneByOne(s, xs + ys)
  {
    hide DeltaOfAll, Applied;
    if ys == [] {
      assert xs + ys == xs;
    } else {
      assert (xs + ys)[..|xs + ys| - 1] == xs + ys[..|ys| - 1];
      OneByOneAppend(s, xs, ys[..|ys| - 1]);
    }
  }

  lemma EstimatedView(evals: map<string, EvalStats>, estimates: map<string, map<nat, real>>, key: string)
    ensures View(Estimated(evals, estimates, {}), key) == View(evals, key)
  {
  }

  lemma SessionIsOneByOne(baseline: Option<JobResult>, s: Session)
    requires OneModel(s.terminals)
    ensures SameBooks(AfterSession(baseline, s).stats, OneByOne(BaselineStats(baseline), s.terminals))
  {
    hide Applied, OneByOne, View, Results, Failures, Estimated, BaselineStats, DeltaOf, Total, LastCount, OneModel;
    var base := BaselineStats(baseline);
    var rebuilt := Applied(DeltaOfAll(s.terminals), base);
    RebuildIsOneByOne(base, s.terminals);
    forall key
      ensures View(AfterSession(baseline, s).stats.evals, key) == View(rebuilt.evals, key)
    {
      EstimatedView(rebuilt.evals, s.estimates, key);
    }
  }

  /** Over all sessions the job is what adding every event one by one gives, as
      long as no single session mixed models. */
  lemma {:induction false} SessionsAreOneByOne(sessions: seq<Session>)
    requires forall i :: 0 <= i < |sessions| ==> OneModel(sessions[i].terminals)
    ensures SameBooks(BaselineStats(AfterSessions(sessions)), OneByOne(NO_STATS, AllTerminals(sessions)))
  {
    hide AfterSession, OneModel, Applied;
    if sessions != [] {
      var before, s := sessions[..|sessions| - 1], sessions[|sessions| - 1];
      SessionsAreOneByOne(before);
      SessionIsOneByOne(AfterSessions(before), s);
      SameBooksContinue(BaselineStats(AfterSessions(before)), OneByOne(NO_STATS, AllTerminals(before)), s.terminals);
      OneByOneAppend(NO_STATS, AllTerminals(before), s.terminals);
    }
  }

  /** The events filed under `key`: those of the sessions whose key it is, whatever
      model each event carries. */
  function FiledUnder(sessions: seq<Session>, key: string): seq<Terminal> {
    if sessions == [] then []
    else
      var last := sessions[|sessions| - 1];
      FiledUnder(sessions[..|sessions| - 1], key)
      + (if SessionKey(last.terminals) == Some(key) then last.terminals else [])
  }

  /** After any sessions an evaluation holds exactly what was filed under its key. */
  lemma {:induction false} EvaluationExact(sessions: seq<Session>, key: string)
    ensures View(BaselineStats(AfterSessions(sessions)).evals, key) == Tally(NO_EVAL, FiledUnder(sessions, key))
  {
    hide Tally, SessionKey, DeltaOf, AppliedEvals, Total, LastCount;
    TallyNothing(NO_EVAL);
    if sessions != [] {
      var before, s := sessions[..|sessions| - 1], sessions[|sessions| - 1];
      var evals := BaselineStats(AfterSessions(before)).evals;
      EvaluationExact(before, key);
      RebuiltView(evals, s.terminals, key);
      EstimatedView(AppliedEvals(DeltaOfAll(s.terminals), evals), s.estimates, key);
      TallyAppend(NO_EVAL, FiledUnder(before, key), s.terminals);
      assert FiledUnder(before, key) + [] == FiledUnder(before, key);
    }
  }

  /** So each bucket lists, in order, the trials filed under its key whose metric got its reward. */
  lemma BucketsExact(sessions: seq<Session>, key: string, metric: string, reward: string)
    ensures At(Get(BaselineStats(AfterSessions(sessions)).evals, key).rewards, (metric, reward))
         == NamesAt(RewardPairs(Results(FiledUnder(sessions, key))), (metric, reward))
  {
    hide AfterSessions, BaselineStats, FiledUnder, Results, Failures, RewardPairs, PushAll, NamesAt, ExceptionPairs;
    EvaluationExact(sessions, key);
    PushAllAt(map[], RewardPairs(Results(FiledUnder(sessions, key))), (metric, reward));
  }

  /** An evaluation counts the results and failures filed under its key. */
  lemma EvaluationCounts(sessions: seq<Session>, key: string)
    ensures var e := Get(BaselineStats(AfterSessions(sessions)).evals, key);
      e.trials == |Results(FiledUnder(sessions, key))| && e.errors == |Failures(FiledUnder(sessions, key))|
  {
    hide AfterSessions, BaselineStats, FiledUnder, Results, Failures, RewardPairs, PushAll, ExceptionPairs, Get;
    EvaluationExact(sessions, key);
  }

  /** An evaluation appears with a session whose key it is or whose estimates name it, and
      with a first session that has no events under the default key. */
  ghost predicate Appears(sessions: seq<Session>, key: string) {
    || (exists n :: 0 <= n < |sessions| && SessionKey(sessions[n].terminals) == Some(key))
    || (exists n :: 0 <= n < |sessions| && key in sessions[n].estimates)
    || (sessions != [] && sessions[0].terminals == [] && key == "nanocodex__nanoeval/local")
  }

  /** A job holds just the evaluations that appeared in its sessions, and none is lost. */
  lemma {:induction false} EvaluationsExact(sessions: seq<Session>, key: string)
    ensures key in BaselineStats(AfterSessions(sessions)).evals <==> Appears(sessions, key)
    ensures sessions != [] ==> BaselineStats(AfterSessions(sessions)).evals != map[]
  {
    hide SessionKey, DeltaOf, Total, LastCount, Appears, Combined;
    if sessions == [] {
      NothingAppears(key);
    } else {
      var before, s := sessions[..|sessions| - 1], sessions[|sessions| - 1];
      EvaluationsExact(before, key);
      SessionHasKey(s.terminals);
      AppearsNext(before, s, key);
      assert before + [s] == sessions;
      SomeEvaluation(DeltaOfAll(s.terminals), BaselineStats(AfterSessions(before)).evals, s.estimates);
    }
  }

  lemma SomeEvaluation(d: Delta, evals: map<string, EvalStats>, estimates: map<string, map<nat, real>>)
    ensures Estimated(AppliedEvals(d, evals), estimates, {}) != map[]
  {
    hide Combined;
    var applied := AppliedEvals(d, evals);
    if d.key.Some? {
      assert d.key.value in Estimated(applied, estimates, {});
    } else if evals == map[] {
      assert DEFAULT_KEY in Estimated(applied, estimates, {});
    } else {
      var key :| key in evals;
      assert key in Estimated(applied, estimates, {});
    }
  }

  lemma NothingAppears(key: string)
    ensures !Appears([], key)
  {
  }

  lemma SessionHasKey(ts: seq<Terminal>)
    ensures SessionKey(ts).None? <==> ts == []
    ensures DeltaOfAll(ts).key == SessionKey(ts)
  {
    SplitSizes(ts);
  }

  lemma AppearsNext(before: seq<Session>, s: Session, key: string)
    ensures Appears(before + [s], key) <==>
      Appears(before, key) || SessionKey(s.terminals) == Some(key) || key in s.estimates
      || (before == [] && s.terminals == [] && key == "nanocodex__nanoeval/local")
  {
    hide SessionKey;
    var all := before + [s];
    assert all[|before|] == s && forall n :: 0 <= n < |before| ==> all[n] == before[n];
    if Appears(before, key) {
      if n :| 0 <= n < |before| && SessionKey(before[n].terminals) == Some(key) {
        assert SessionKey(all[n].terminals) == Some(key);
      } else if n :| 0 <= n < |before| && key in before[n].estimates {
        assert key in all[n].estimates;
      }
    }
    if SessionKey(s.terminals) == Some(key) {
      assert SessionKey(all[|before|].terminals) == Some(key);
    } else if key in s.estimates {
      assert key in all[|before|].estimates;
    }
  }

  /** A session's key names the model of its first result or, without any, of its first failure. */
  lemma SessionKeyIsFirst(ts: seq<Terminal>, i: nat)
    requires i < |ts|
    requires if ts[i].Completed? then forall j :: 0 <= j < i ==> ts[j].Failed?
             else i == 0 && forall j :: 0 <= j < |ts| ==> ts[j].Failed?
    ensures SessionKey(ts) == Some("nanocodex__" + ts[i].Model() + "__nanoeval/local")
  {
    if ts[i].Completed? {
      FirstResultAt(ts, i);
    } else {
      OnlyFailures(ts);
    }
  }

  lemma {:induction false} FirstResultAt(ts: seq<Terminal>, i: nat)
    requires i < |ts| && ts[i].Completed? && forall j :: 0 <= j < i ==> ts[j].Failed?
    ensures Results(ts) != [] && Results(ts)[0] == ts[i].result
  {
    var init := ts[..|ts| - 1];
    if i < |init| {
      FirstResultAt(init, i);
    } else {
      OnlyFailures(init);
    }
  }

  lemma {:induction false} OnlyFailures(ts: seq<Terminal>)
    requires forall j :: 0 <= j < |ts| ==> ts[j].Failed?
    ensures Results(ts) == [] && |Failures(ts)| == |ts|
    ensures forall j :: 0 <= j < |ts| ==> Failures(ts)[j] == ts[j].failure
  {
    if ts != [] {
      OnlyFailures(ts[..|ts| - 1]);
    }
  }

  /** An exception bucket lists, in order, the failed trials filed under its key with it. */
  lemma ExceptionsExact(sessions: seq<Session>, key: string, exception: string)
    ensures At(Get(BaselineStats(AfterSessions(sessions)).evals, key).exceptions, exception)
         == FailedWith(Failures(FiledUnder(sessions, key)), exception)
  {
    hide AfterSessions, BaselineStats, FiledUnder, Results, Failures, RewardPairs, PushAll, NamesAt, ExceptionPairs;
    hide Get;
    var failures := Failures(FiledUnder(sessions, key));
    EvaluationExact(sessions, key);
    PushAllAt(map[], ExceptionPairs(failures), exception);
    ExceptionNames(failures, exception);
  }

  /** The trials that failed with one exception, in order. */
  function FailedWith(failures: seq<EvalFailure>, exception: string): seq<string> {
    if failures == [] then []
    else
      var last := failures[|failures| - 1];
      FailedWith(failures[..|failures| - 1], exception) + if last.exception == exception then [last.trial] else []
  }

  lemma {:induction false} ExceptionNames(failures: seq<EvalFailure>, exception: string)
    ensures NamesAt(ExceptionPairs(failures), exception) == FailedWith(failures, exception)
  {
    if failures != [] {
      var init := failures[..|failures| - 1];
      ExceptionNames(init, exception);
      assert ExceptionPairs(failures)[..|init|] == ExceptionPairs(init);
    }
  }

  lemma {:induction false} NamesAtOnce<K(!new)>(filed: seq<(K, string)>, k: K, name: string)
    requires NoRepeats(filed)
    ensures multiset(NamesAt(filed, k))[name] == if (k, name) in filed then 1 else 0
  {
    if filed != [] {
      var init, last := filed[..|filed| - 1], filed[|filed| - 1];
      assert filed == init + [last];
      assert last !in init;
      NamesAtOnce(init, k, name);
    }
  }

  /** No two results share a trial name and no result lists a metric twice. */
  ghost predicate DistinctTrials(results: seq<EvalResult>) {
    && (forall i, j :: 0 <= i < j < |results| ==> results[i].trial != results[j].trial)
    && (forall i, a, b :: 0 <= i < |results| && 0 <= a < b < |results[i].rewards| ==>
          results[i].rewards[a].0 != results[i].rewards[b].0)
  }

  lemma {:induction false} InRewardPairs(results: seq<EvalResult>, pair: ((string, string), string))
    ensures pair in RewardPairs(results) <==>
      exists i :: 0 <= i < |results| && results[i].trial == pair.1 && pair.0 in results[i].rewards
  {
    if results != [] {
      var init, last := results[..|results| - 1], results[|results| - 1];
      InRewardPairs(init, pair);
      InFiled(last, pair);
      assert forall i :: 0 <= i < |init| ==> init[i] == results[i];
    }
  }

  lemma InFiled(r: EvalResult, pair: ((string, string), string))
    ensures pair in Filed(r) <==> r.trial == pair.1 && pair.0 in r.rewards
  {
    if r.trial == pair.1 && pair.0 in r.rewards {
      var j :| 0 <= j < |r.rewards| && r.rewards[j] == pair.0;
      assert Filed(r)[j] == pair;
    }
  }

  lemma NoRepeatsAppend<T>(a: seq<T>, b: seq<T>)
    requires NoRepeats(a) && NoRepeats(b) && forall x :: x in a ==> x !in b
    ensures NoRepeats(a + b)
  {
    forall i, j | 0 <= i < j < |a + b|
      ensures (a + b)[i] != (a + b)[j]
    {
      if i < |a| <= j {
        assert a[i] !in b && b[j - |a|] in b;
      }
    }
  }

  lemma {:induction false} PairsDistinct(results: seq<EvalResult>)
    requires DistinctTrials(results)
    ensures NoRepeats(RewardPairs(results))
  {
    if results != [] {
      var init, last := results[..|results| - 1], results[|results| - 1];
      PairsDistinct(init);
      assert NoRepeats(Filed(last));
      forall x | x in RewardPairs(init)
        ensures x !in Filed(last)
      {
        InRewardPairs(init, x);
        InFiled(last, x);
      }
      NoRepeatsAppend(RewardPairs(init), Filed(last));
    }
  }

  lemma DistinctParts(a: seq<EvalResult>, b: seq<EvalResult>)
    requires DistinctTrials(a + b)
    ensures DistinctTrials(a) && DistinctTrials(b)
    ensures forall x, y :: x in a && y in b ==> x.trial != y.trial
  {
    var all := a + b;
    assert forall i :: 0 <= i < |a| ==> all[i] == a[i];
    assert forall i :: 0 <= i < |b| ==> all[|a| + i] == b[i];
  }

  lemma DistinctTogether(a: seq<EvalResult>, b: seq<EvalResult>)
    requires DistinctTrials(a) && DistinctTrials(b)
    requires forall x, y :: x in a && y in b ==> x.trial != y.trial
    ensures DistinctTrials(a + b)
  {
    var all := a + b;
    forall i, j | 0 <= i < j < |all|
      ensures all[i].trial != all[j].trial
    {
      if i < |a| <= j {
        assert a[i] in a && b[j - |a|] in b;
      }
    }
  }

  /** What is filed under one key is part of what was recorded. */
  lemma {:induction false} FiledDistinct(sessions: seq<Session>, key: string)
    requires DistinctTrials(Results(AllTerminals(sessions)))
    ensures DistinctTrials(Results(FiledUnder(sessions, key)))
    ensures forall r :: r in Results(FiledUnder(sessions, key)) ==> r in Results(AllTerminals(sessions))
  {
    hide DistinctTrials, Results, SessionKey;
    if sessions == [] {
      assert FiledUnder(sessions, key) == AllTerminals(sessions);
    } else {
      var before, last := sessions[..|sessions| - 1], sessions[|sessions| - 1].terminals;
      SplitAppend(AllTerminals(before), last);
      DistinctParts(Results(AllTerminals(before)), Results(last));
      FiledDistinct(before, key);
      SplitAppend(FiledUnder(before, key), last);
      assert FiledUnder(before, key) + [] == FiledUnder(before, key);
      DistinctTogether(Results(FiledUnder(before, key)), Results(last));
    }
  }

  /** A result is filed under its session's key. */
  lemma {:induction false} InFiledUnder(sessions: seq<Session>, key: string, r: EvalResult)
    ensures r in Results(FiledUnder(sessions, key)) <==>
      exists n :: 0 <= n < |sessions| && SessionKey(sessions[n].terminals) == Some(key)
        && r in Results(sessions[n].terminals)
  {
    hide SessionKey;
    if sessions != [] {
      var before, last := sessions[..|sessions| - 1], sessions[|sessions| - 1];
      InFiledUnder(before, key, r);
      SplitAppend(FiledUnder(before, key), last.terminals);
      assert FiledUnder(before, key) + [] == FiledUnder(before, key);
      assert forall n :: 0 <= n < |before| ==> before[n] == sessions[n];
    }
  }

  lemma {:induction false} InAllTerminals(sessions: seq<Session>, n: nat, r: EvalResult)
    requires n < |sessions| && r in Results(sessions[n].terminals)
    ensures r in Results(AllTerminals(sessions))
  {
    var before, last := sessions[..|sessions| - 1], sessions[|sessions| - 1].terminals;
    SplitAppend(AllTerminals(before), last);
    if n < |before| {
      assert before[n] == sessions[n];
      InAllTerminals(before, n, r);
    }
  }

  /** A trial name is used in one session, by one result. */
  lemma {:induction false} TrialUnique(sessions: seq<Session>, n: nat, m: nat, r: EvalResult, q: EvalResult)
    requires DistinctTrials(Results(AllTerminals(sessions))) && n < |sessions| && m < |sessions|
    requires r in Results(sessions[n].terminals) && q in Results(sessions[m].terminals) && r.trial == q.trial
    ensures n == m && r == q
  {
    hide Results;
    var before, last := sessions[..|sessions| - 1], sessions[|sessions| - 1].terminals;
    SplitAppend(AllTerminals(before), last);
    DistinctParts(Results(AllTerminals(before)), Results(last));
    assert forall k :: 0 <= k < |before| ==> before[k] == sessions[k];
    if n < |before| {
      InAllTerminals(before, n, r);
    }
    if m < |before| {
      InAllTerminals(before, m, q);
    }
    if n < |before| && m < |before| {
      TrialUnique(before, n, m, r, q);
    }
  }

  lemma OneRewardEach(r: EvalResult, j: nat, reward: string)
    requires DistinctTrials([r]) && j < |r.rewards|
    ensures (r.rewards[j].0, reward) in r.rewards <==> reward == r.rewards[j].1
  {
    assert [r][0] == r;
    if (r.rewards[j].0, reward) in r.rewards {
      var k :| 0 <= k < |r.rewards| && r.rewards[k] == (r.rewards[j].0, reward);
    }
  }

  lemma DistinctOne(results: seq<EvalResult>, r: EvalResult)
    requires DistinctTrials(results) && r in results
    ensures DistinctTrials([r])
  {
    var i :| 0 <= i < |results| && results[i] == r;
  }

  /** Main result: over any sessions, whatever models they ran, each result sits
      exactly once among all evaluations' buckets of a metric: under its session's
      key, in the bucket of its own reward. */
  lemma {:induction false} EachResultFiledOnce(sessions: seq<Session>, n: nat, r: EvalResult, j: nat,
      key: string, reward: string)
    requires DistinctTrials(Results(AllTerminals(sessions)))
    requires n < |sessions| && r in Results(sessions[n].terminals) && j < |r.rewards|
    ensures var (metric, own) := r.rewards[j];
      multiset(At(Get(BaselineStats(AfterSessions(sessions)).evals, key).rewards, (metric, reward)))[r.trial]
      == if SessionKey(sessions[n].terminals) == Some(key) && reward == own then 1 else 0
    ensures SessionKey(sessions[n].terminals).Some?
  {
    assert SessionKey(sessions[n].terminals).Some?;
    hide SessionKey, AfterSessions, BaselineStats, FiledUnder, AllTerminals, Results;
    hide RewardPairs, NamesAt, Get, DistinctTrials;
    var filed, pair := Results(FiledUnder(sessions, key)), ((r.rewards[j].0, reward), r.trial);
    BucketsExact(sessions, key, r.rewards[j].0, reward);
    FiledDistinct(sessions, key);
    PairsDistinct(filed);
    NamesAtOnce(RewardPairs(filed), pair.0, pair.1);
    InRewardPairs(filed, pair);
    InFiledUnder(sessions, key, r);
    InAllTerminals(sessions, n, r);
    DistinctOne(Results(AllTerminals(sessions)), r);
    OneRewardEach(r, j, reward);
    forall i | 0 <= i < |filed| && filed[i].trial == r.trial
      ensures filed[i] == r && SessionKey(sessions[n].terminals) == Some(key)
    {
      InFiledUnder(sessions, key, filed[i]);
      var m :| 0 <= m < |sessions| && SessionKey(sessions[m].terminals) == Some(key)
        && filed[i] in Results(sessions[m].terminals);
      TrialUnique(sessions, n, m, r, filed[i]);
    }
  }
}
