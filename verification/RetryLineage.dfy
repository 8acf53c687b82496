/** Which tasks a rerun retries: the chain of jobs that reran each other, each task's
    status in its newest job, and the queue made from both. */
module RetryLineage {
  import opened Common

  datatype Status = Passed | Failed | Refused | Errored

  /** A directory entry of a job: a trial's result, if it is a directory holding one. */
  datatype Entry = Entry(isDirectory: bool, result: Option<TrialResult>)

  datatype TrialResult = TrialResult(task: string, exception: Option<string>, rewards: Option<seq<real>>)

  /** A retained job: the job it reran and its directory in reading order. */
  datatype Job = Job(rerunFrom: Option<string>, entries: seq<Entry>)

  type Jobs = map<string, Job>

  // ------------------------------------------------------------------
  // Lineage
  // ------------------------------------------------------------------

  datatype LineageError = Missing(job: string) | Cycle(at: string) | Unavailable(parent: string)

  function Parent(jobs: Jobs, job: string): Option<string> {
    if job in jobs then jobs[job].rerunFrom else None
  }

  /** The job reached by following `n` parents, all of them available. */
  function Ancestor(jobs: Jobs, job: string, n: nat): Option<string> {
    if job !in jobs then None
    else if n == 0 then Some(job)
    else
      match Ancestor(jobs, job, n - 1)
      case None => None
      case Some(child) =>
        match Parent(jobs, child)
        case None => None
        case Some(parent) => if parent in jobs then Some(parent) else None
  }

  ghost predicate Revisits(jobs: Jobs, job: string) {
    exists i: nat, j: nat :: i < j && SameAncestor(jobs, job, i, j)
  }

  ghost predicate SameAncestor(jobs: Jobs, job: string, i: nat, j: nat) {
    Ancestor(jobs, job, i).Some? && Ancestor(jobs, job, i) == Ancestor(jobs, job, j)
  }

  /** The `n`th ancestor reran nothing. */
  ghost predicate Root(jobs: Jobs, job: string, n: nat) {
    Ancestor(jobs, job, n).Some? && Parent(jobs, Ancestor(jobs, job, n).value) == None
  }

  /** The `n`th ancestor names a parent that is not there. */
  ghost predicate Orphan(jobs: Jobs, job: string, n: nat, parent: string) {
    && Ancestor(jobs, job, n).Some? && Parent(jobs, Ancestor(jobs, job, n).value) == Some(parent)
    && parent !in jobs
  }

  lemma {:induction false} NoneStaysNone(jobs: Jobs, job: string, n: nat, m: nat)
    requires n <= m && Ancestor(jobs, job, n) == None
    ensures Ancestor(jobs, job, m) == None
  {
    if n < m {
      NoneStaysNone(jobs, job, n, m - 1);
    }
  }

  lemma {:induction false} SameGoesOn(jobs: Jobs, job: string, i: nat, j: nat, m: nat)
    requires Ancestor(jobs, job, i) == Ancestor(jobs, job, j)
    ensures Ancestor(jobs, job, i + m) == Ancestor(jobs, job, j + m)
  {
    if m > 0 {
      SameGoesOn(jobs, job, i, j, m - 1);
    }
  }

  /** A chain that ends does not revisit a job. */
  lemma EndedChainIsSimple(jobs: Jobs, job: string, n: nat)
    requires Ancestor(jobs, job, n).Some? && Ancestor(jobs, job, n + 1) == None
    ensures !Revisits(jobs, job)
  {
    if Revisits(jobs, job) {
      var i: nat, j: nat :| i < j && SameAncestor(jobs, job, i, j);
      if n < i {
        NoneStaysNone(jobs, job, n + 1, i);
      } else {
        SameGoesOn(jobs, job, i, j, n - i);
        NoneStaysNone(jobs, job, n + 1, j + (n - i));
      }
      assert false;
    }
  }

  function Reversed(names: seq<string>): seq<string> {
    seq(|names|, i requires 0 <= i < |names| => names[|names| - 1 - i])
  }

  lemma {:induction false} DistinctFit(names: seq<string>, keys: set<string>)
    requires NoRepeats(names) && forall i :: 0 <= i < |names| ==> names[i] in keys
    ensures |names| <= |keys|
  {
    if names != [] {
      var init, last := names[..|names| - 1], names[|names| - 1];
      DistinctFit(init, keys - {last});
    }
  }

  /** The chain from `job` up to its `n`th ancestor. */
  ghost predicate IsChain(jobs: Jobs, job: string, chain: seq<string>) {
    forall k :: 0 <= k < |chain| ==> Ancestor(jobs, job, k) == Some(chain[k])
  }

  /** Available jobs from `job` to `last`, each what the one before it reran. */
  ghost predicate Reran(jobs: Jobs, job: string, chain: seq<string>, last: string) {
    && chain != [] && chain[0] == job && chain[|chain| - 1] == last
    && (forall k :: 0 <= k < |chain| ==> chain[k] in jobs)
    && (forall k :: 0 < k < |chain| ==> jobs[chain[k - 1]].rerunFrom == Some(chain[k]))
  }

  lemma ReranNext(jobs: Jobs, job: string, chain: seq<string>, last: string, parent: string)
    requires Reran(jobs, job, chain, last) && jobs[last].rerunFrom == Some(parent) && parent in jobs
    ensures Reran(jobs, job, chain + [parent], parent)
  {
  }

  lemma ReranNothing(jobs: Jobs, job: string)
    requires job in jobs
    ensures Reran(jobs, job, [] + [job], job)
  {
  }

  /** `retained_retry_lineage`: it ends on every job graph, reports a cycle exactly
      when the chain of parents revisits a job, and otherwise lists the whole chain,
      oldest first. */
  method Lineage(jobs: Jobs, job: string) returns (r: Result<seq<string>, LineageError>)
    ensures r == Err(Missing(job)) <==> job !in jobs
    ensures r.Err? && r.error.Cycle? <==> Revisits(jobs, job)
    ensures r.Err? && r.error.Unavailable? ==> exists n: nat :: Orphan(jobs, job, n, r.error.parent)
    ensures r.Ok? ==>
      && |r.value| > 0 && NoRepeats(r.value) && IsChain(jobs, job, Reversed(r.value))
      && Root(jobs, job, |r.value| - 1)
    ensures r.Ok? && r.value != [] ==>
      Reran(jobs, job, Reversed(r.value), r.value[0]) && jobs[r.value[0]].rerunFrom == None
    ensures r.Err? && r.error.Cycle? ==> exists chain ::
      Reran(jobs, job, chain, r.error.at) && r.error.at in chain[..|chain| - 1]
    ensures r.Err? && r.error.Unavailable? ==> exists chain, last ::
      Reran(jobs, job, chain, last) && jobs[last].rerunFrom == Some(r.error.parent) && r.error.parent !in jobs
  {
    if job !in jobs {
      return Err(Missing(job));
    }
    hide Reran, Revisits, Orphan;
    ReranNothing(jobs, job);
    var current, seen, lineage := job, {}, [];
    while true
      invariant current in jobs && Ancestor(jobs, job, |lineage|) == Some(current)
      invariant IsChain(jobs, job, lineage) && NoRepeats(lineage)
      invariant Reran(jobs, job, lineage + [current], current)
      invariant forall name :: name in seen <==> name in lineage
      invariant forall k :: 0 <= k < |lineage| ==> lineage[k] in jobs.Keys
      decreases |jobs.Keys| - |lineage|
    {
      if current in seen {
        ghost var i :| 0 <= i < |lineage| && lineage[i] == current;
        assert SameAncestor(jobs, job, i, |lineage|);
        assert (lineage + [current])[..|lineage|] == lineage;
        return Err(Cycle(current));
      }
      seen := seen + {current};
      lineage := lineage + [current];
      DistinctFit(lineage, jobs.Keys);
      match jobs[current].rerunFrom {
        case None =>
          EndedChainIsSimple(jobs, job, |lineage| - 1);
          ReversedTwice(lineage);
          return Ok(Reversed(lineage));
        case Some(parent) =>
          if parent !in jobs {
            EndedChainIsSimple(jobs, job, |lineage| - 1);
            assert Orphan(jobs, job, |lineage| - 1, parent);
            return Err(Unavailable(parent));
          }
          ReranNext(jobs, job, lineage, current, parent);
          current := parent;
      }
    }
  }

  lemma ReversedTwice(names: seq<string>)
    ensures Reversed(Reversed(names)) == names
    ensures NoRepeats(names) ==> NoRepeats(Reversed(names))
  {
  }

  // ------------------------------------------------------------------
  // Statuses
  // ------------------------------------------------------------------

  const REFUSAL := "AgentSafetyRefusalError"

  /** `RetainedTrialResult::status` */
  function StatusOf(r: TrialResult): Status {
    if r.exception.Some? then if r.exception.value == REFUSAL then Refused else Errored
    else if r.rewards.Some? && forall i :: 0 <= i < |r.rewards.value| ==> r.rewards.value[i] > 0.0 then Passed
    else Failed
  }

  /** `RetainedTrialStatus::merge` */
  function Merge(a: Status, b: Status): Status {
    if a == Passed || b == Passed then Passed
    else if a == Failed || b == Failed then Failed
    else if a == Refused || b == Refused then Refused
    else Errored
  }

  function Rank(s: Status): nat {
    match s
    case Passed => 3
    case Failed => 2
    case Refused => 1
    case Errored => 0
  }

  /** The two arguments' better status; so the order of merging does not matter. */
  lemma MergeIsMaximum(a: Status, b: Status, c: Status)
    ensures Rank(Merge(a, b)) == Max(Rank(a), Rank(b))
    ensures Merge(a, b) == Merge(b, a) && Merge(Merge(a, b), c) == Merge(a, Merge(b, c)) && Merge(a, a) == a
  {
  }

  predicate Mentions(e: Entry, task: string) {
    e.isDirectory && e.result.Some? && e.result.value.task == task
  }

  /** The best status of the task's trials. */
  ghost predicate Best(entries: seq<Entry>, task: string, s: Status) {
    && (exists i :: 0 <= i < |entries| && Mentions(entries[i], task) && StatusOf(entries[i].result.value) == s)
    && (forall i :: 0 <= i < |entries| && Mentions(entries[i], task) ==>
          Rank(StatusOf(entries[i].result.value)) <= Rank(s))
  }

  ghost predicate Mentioned(entries: seq<Entry>, task: string) {
    exists i :: 0 <= i < |entries| && Mentions(entries[i], task)
  }

  ghost predicate StatusesExact(entries: seq<Entry>, statuses: map<string, Status>) {
    && (forall task :: task in statuses <==> Mentioned(entries, task))
    && (forall task :: task in statuses ==> Best(entries, task, statuses[task]))
  }

  lemma BestNext(entries: seq<Entry>, e: Entry, task: string, s: Status)
    requires Mentions(e, task) && Best(entries, task, s)
    ensures Best(entries + [e], task, Merge(s, StatusOf(e.result.value)))
  {
    var after, own := entries + [e], StatusOf(e.result.value);
    var i :| 0 <= i < |entries| && Mentions(entries[i], task) && StatusOf(entries[i].result.value) == s;
    MergeIsMaximum(s, own, s);
    assert after[i] == entries[i] && after[|entries|] == e;
  }

  lemma BestFirst(entries: seq<Entry>, e: Entry, task: string)
    requires Mentions(e, task) && !Mentioned(entries, task)
    ensures Best(entries + [e], task, StatusOf(e.result.value))
  {
    var after := entries + [e];
    assert after[|entries|] == e;
    assert forall i :: 0 <= i < |entries| ==> after[i] == entries[i] && !Mentions(entries[i], task);
  }

  lemma BestElsewhere(entries: seq<Entry>, e: Entry, task: string, s: Status)
    requires !Mentions(e, task) && Best(entries, task, s)
    ensures Best(entries + [e], task, s)
  {
    var after := entries + [e];
    var i :| 0 <= i < |entries| && Mentions(entries[i], task) && StatusOf(entries[i].result.value) == s;
    assert after[i] == entries[i];
  }

  lemma MentionedNext(entries: seq<Entry>, e: Entry, task: string)
    ensures Mentioned(entries + [e], task) <==> Mentioned(entries, task) || Mentions(e, task)
  {
    var after := entries + [e];
    if Mentioned(entries, task) {
      var i :| 0 <= i < |entries| && Mentions(entries[i], task);
      assert after[i] == entries[i];
    }
    if Mentions(e, task) {
      assert after[|entries|] == e;
    }
  }

  lemma StatusesNext(entries: seq<Entry>, e: Entry, statuses: map<string, Status>)
    requires StatusesExact(entries, statuses) && e.isDirectory && e.result.Some?
    ensures var task, own := e.result.value.task, StatusOf(e.result.value);
      StatusesExact(entries + [e], statuses[task := if task in statuses then Merge(statuses[task], own) else own])
  {
    hide Best, Mentioned;
    var task, own := e.result.value.task, StatusOf(e.result.value);
    var after := statuses[task := if task in statuses then Merge(statuses[task], own) else own];
    forall t
      ensures t in after <==> Mentioned(entries + [e], t)
      ensures t in after ==> Best(entries + [e], t, after[t])
    {
      MentionedNext(entries, e, t);
      if t == task {
        if task in statuses {
          BestNext(entries, e, task, statuses[task]);
        } else {
          BestFirst(entries, e, task);
        }
      } else if t in statuses {
        BestElsewhere(entries, e, t, statuses[t]);
      }
    }
  }

  lemma StatusesSkip(entries: seq<Entry>, e: Entry, statuses: map<string, Status>)
    requires StatusesExact(entries, statuses) && (!e.isDirectory || e.result.None?)
    ensures StatusesExact(entries + [e], statuses)
  {
    hide Best, Mentioned;
    forall t
      ensures t in statuses <==> Mentioned(entries + [e], t)
      ensures t in statuses ==> Best(entries + [e], t, statuses[t])
    {
      MentionedNext(entries, e, t);
      if t in statuses {
        BestElsewhere(entries, e, t, statuses[t]);
      }
    }
  }

  /** `retained_task_statuses` */
  method TaskStatuses(entries: seq<Entry>) returns (statuses: map<string, Status>)
    ensures StatusesExact(entries, statuses)
  {
    hide StatusesExact, StatusOf, Merge;
    statuses := map[];
    NoStatuses();
    for i := 0 to |entries|
      invariant StatusesExact(entries[..i], statuses)
    {
      var e := entries[i];
      assert entries[..i + 1] == entries[..i] + [e];
      if !e.isDirectory || e.result.None? {
        StatusesSkip(entries[..i], e, statuses);
        continue;
      }
      StatusesNext(entries[..i], e, statuses);
      var task, status := e.result.value.task, StatusOf(e.result.value);
      statuses := statuses[task := if task in statuses then Merge(statuses[task], status) else status];
    }
    assert entries[..|entries|] == entries;
  }

  lemma NoStatuses()
    ensures StatusesExact([], map[])
  {
  }

  /** Statuses do not depend on the order the directory is read in. */
  lemma StatusesIgnoreOrder(a: seq<Entry>, b: seq<Entry>, s: map<string, Status>, t: map<string, Status>)
    requires multiset(a) == multiset(b) && StatusesExact(a, s) && StatusesExact(b, t)
    ensures s == t
  {
    forall task
      ensures task in s <==> task in t
      ensures task in s ==> task in t && s[task] == t[task]
    {
      SameMentioned(a, b, task);
      if task in s {
        BestElsewhereToo(a, b, task, s[task], t[task]);
        BestElsewhereToo(b, a, task, t[task], s[task]);
        RankReadsBack(s[task], t[task]);
      }
    }
  }

  lemma SameMentioned(a: seq<Entry>, b: seq<Entry>, task: string)
    requires multiset(a) == multiset(b)
    ensures Mentioned(a, task) <==> Mentioned(b, task)
  {
    if Mentioned(a, task) {
      var i :| 0 <= i < |a| && Mentions(a[i], task);
      assert a[i] in multiset(b);
    }
    if Mentioned(b, task) {
      var i :| 0 <= i < |b| && Mentions(b[i], task);
      assert b[i] in multiset(a);
    }
  }

  lemma BestElsewhereToo(a: seq<Entry>, b: seq<Entry>, task: string, s: Status, t: Status)
    requires multiset(a) == multiset(b) && Best(a, task, s) && Best(b, task, t)
    ensures Rank(s) <= Rank(t)
  {
    var i :| 0 <= i < |a| && Mentions(a[i], task) && StatusOf(a[i].result.value) == s;
    assert a[i] in multiset(b);
    var j :| 0 <= j < |b| && b[j] == a[i];
  }

  lemma RankReadsBack(s: Status, t: Status)
    requires Rank(s) == Rank(t)
    ensures s == t
  {
  }

  // ------------------------------------------------------------------
  // The queue
  // ------------------------------------------------------------------

  /** Job `k` of the lineage is the newest that mentions the task. */
  ghost predicate NewestMentioning(jobs: Jobs, lineage: seq<string>, task: string, k: nat) {
    && k < |lineage| && lineage[k] in jobs && Mentioned(jobs[lineage[k]].entries, task)
    && forall j :: k < j < |lineage| && lineage[j] in jobs ==> !Mentioned(jobs[lineage[j]].entries, task)
  }

  /** The task's effective status: its best one in the newest job that mentions it. */
  ghost predicate Effective(jobs: Jobs, lineage: seq<string>, task: string, s: Status) {
    exists k: nat :: NewestMentioning(jobs, lineage, task, k) && Best(jobs[lineage[k]].entries, task, s)
  }

  ghost predicate EverMentioned(jobs: Jobs, lineage: seq<string>, task: string) {
    exists k: nat :: k < |lineage| && lineage[k] in jobs && Mentioned(jobs[lineage[k]].entries, task)
  }

  ghost predicate EffectiveExact(jobs: Jobs, lineage: seq<string>, statuses: map<string, Status>) {
    && (forall task :: task in statuses <==> EverMentioned(jobs, lineage, task))
    && (forall task :: task in statuses ==> Effective(jobs, lineage, task, statuses[task]))
  }

  lemma EffectiveNext(jobs: Jobs, lineage: seq<string>, job: string, task: string, s: Status, own: map<string, Status>)
    requires job in jobs && StatusesExact(jobs[job].entries, own)
    ensures task in own ==> Effective(jobs, lineage + [job], task, own[task])
    ensures task !in own && Effective(jobs, lineage, task, s) ==> Effective(jobs, lineage + [job], task, s)
    ensures EverMentioned(jobs, lineage + [job], task) <==> EverMentioned(jobs, lineage, task) || task in own
  {
    hide Best, Mentioned;
    var after := lineage + [job];
    assert after[|lineage|] == job && forall k :: 0 <= k < |lineage| ==> after[k] == lineage[k];
    if task in own {
      assert NewestMentioning(jobs, after, task, |lineage|);
    } else if Effective(jobs, lineage, task, s) {
      var k: nat :| NewestMentioning(jobs, lineage, task, k) && Best(jobs[lineage[k]].entries, task, s);
      assert NewestMentioning(jobs, after, task, k);
    }
    if EverMentioned(jobs, lineage, task) {
      var k: nat :| k < |lineage| && lineage[k] in jobs && Mentioned(jobs[lineage[k]].entries, task);
      assert after[k] == lineage[k];
    }
  }

  method EffectiveStatuses(jobs: Jobs, lineage: seq<string>) returns (statuses: map<string, Status>)
    requires forall k :: 0 <= k < |lineage| ==> lineage[k] in jobs
    ensures EffectiveExact(jobs, lineage, statuses)
  {
    hide StatusesExact, Effective, EverMentioned;
    statuses := map[];
    NothingMentioned(jobs);
    for k := 0 to |lineage|
      invariant EffectiveExact(jobs, lineage[..k], statuses)
    {
      var own := TaskStatuses(jobs[lineage[k]].entries);
      assert lineage[..k + 1] == lineage[..k] + [lineage[k]];
      forall task
        ensures task in own || task in statuses <==> EverMentioned(jobs, lineage[..k + 1], task)
        ensures task in own ==> Effective(jobs, lineage[..k + 1], task, own[task])
        ensures task !in own && task in statuses ==> Effective(jobs, lineage[..k + 1], task, statuses[task])
      {
        EffectiveNext(jobs, lineage[..k], lineage[k], task, if task in statuses then statuses[task] else Passed, own);
      }
      statuses := statuses + own;
    }
    assert lineage[..|lineage|] == lineage;
  }

  lemma NothingMentioned(jobs: Jobs)
    ensures forall task :: !EverMentioned(jobs, [], task)
  {
  }

  predicate Retryable(s: Status, includeRefused: bool, includeErrored: bool) {
    match s
    case Failed => true
    case Refused => includeRefused
    case Errored => includeErrored
    case Passed => false
  }

  datatype RetryQueue = RetryQueue(tasks: set<string>, unresolved: nat, lineage: seq<string>)

  /** A task that is retried for its effective status. */
  ghost predicate Retried(jobs: Jobs, lineage: seq<string>, task: string, includeRefused: bool, includeErrored: bool) {
    exists s :: Effective(jobs, lineage, task, s) && Retryable(s, includeRefused, includeErrored)
  }

  lemma EffectiveUnique(jobs: Jobs, lineage: seq<string>, task: string, s: Status, t: Status)
    requires Effective(jobs, lineage, task, s) && Effective(jobs, lineage, task, t)
    ensures s == t && EverMentioned(jobs, lineage, task)
  {
  }

  lemma RetriedExact(jobs: Jobs, lineage: seq<string>, statuses: map<string, Status>, task: string,
      includeRefused: bool, includeErrored: bool)
    requires EffectiveExact(jobs, lineage, statuses)
    ensures Retried(jobs, lineage, task, includeRefused, includeErrored)
      <==> task in statuses && Retryable(statuses[task], includeRefused, includeErrored)
  {
  }

  ghost predicate RetriedSet(jobs: Jobs, lineage: seq<string>, includeRefused: bool, includeErrored: bool,
      retried: set<string>)
  {
    forall task :: task in retried <==> Retried(jobs, lineage, task, includeRefused, includeErrored)
  }

  /** `retained_retry_task_names`; the matcher is the caller's pattern set, if any.
      The queue holds exactly the matching tasks whose newest status is retried, and
      the unresolved ones are counted whether they match or not. */
  method RetryTaskNames(jobs: Jobs, job: string, includeRefused: bool, includeErrored: bool,
      matcher: Option<string -> bool>) returns (r: Result<RetryQueue, LineageError>)
    ensures r == Err(Missing(job)) <==> job !in jobs
    ensures r.Err? && r.error.Cycle? <==> Revisits(jobs, job)
    ensures r.Ok? ==>
      && IsChain(jobs, job, Reversed(r.value.lineage))
      && |r.value.lineage| > 0 && Root(jobs, job, |r.value.lineage| - 1)
      && (forall task :: task in r.value.tasks <==>
            Retried(jobs, r.value.lineage, task, includeRefused, includeErrored)
            && (matcher.None? || matcher.value(task)))
      && (matcher.None? ==> r.value.unresolved == |r.value.tasks|)
      && (exists retried :: RetriedSet(jobs, r.value.lineage, includeRefused, includeErrored, retried)
            && r.value.unresolved == |retried|)
  {
    hide Retried, Effective, EverMentioned, Revisits, Root, Orphan;
    hide IsChain, EffectiveExact, NoRepeats, Reversed, Retryable;
    var lineage := Lineage(jobs, job);
    if lineage.Err? {
      return Err(lineage.error);
    }
    ChainAvailable(jobs, job, lineage.value);
    var statuses := EffectiveStatuses(jobs, lineage.value);
    var retryable := set task | task in statuses && Retryable(statuses[task], includeRefused, includeErrored);
    var tasks := set task | task in retryable && (matcher.None? || matcher.value(task));
    forall task
      ensures task in retryable <==> Retried(jobs, lineage.value, task, includeRefused, includeErrored)
    {
      RetriedExact(jobs, lineage.value, statuses, task, includeRefused, includeErrored);
    }
    assert RetriedSet(jobs, lineage.value, includeRefused, includeErrored, retryable);
    assert matcher.None? ==> tasks == retryable;
    return Ok(RetryQueue(tasks, |retryable|, lineage.value));
  }

  lemma ChainAvailable(jobs: Jobs, job: string, lineage: seq<string>)
    requires IsChain(jobs, job, Reversed(lineage))
    ensures forall k :: 0 <= k < |lineage| ==> lineage[k] in jobs
  {
    forall k | 0 <= k < |lineage|
      ensures lineage[k] in jobs
    {
      var n := |lineage| - 1 - k;
      assert Reversed(lineage)[n] == lineage[k];
    }
  }

  // ------------------------------------------------------------------
  // The queue by trials
  // ------------------------------------------------------------------

  /** The trial ran, was verified and got only positive rewards. */
  predicate Passes(r: TrialResult) {
    r.exception.None? && r.rewards.Some? && forall i :: 0 <= i < |r.rewards.value| ==> r.rewards.value[i] > 0.0
  }

  /** It ran without passing. */
  predicate Fails(r: TrialResult) {
    r.exception.None? && (r.rewards.None? || exists i :: 0 <= i < |r.rewards.value| && r.rewards.value[i] <= 0.0)
  }

  predicate Refuses(r: TrialResult) {
    r.exception == Some("AgentSafetyRefusalError")
  }

  ghost predicate SomeTrial(entries: seq<Entry>, task: string, which: TrialResult -> bool) {
    exists i :: 0 <= i < |entries| && Mentions(entries[i], task) && which(entries[i].result.value)
  }

  lemma {:induction false} BestByTrials(entries: seq<Entry>, task: string, s: Status)
    requires Best(entries, task, s)
    ensures s == Passed <==> SomeTrial(entries, task, Passes)
    ensures s == Failed <==> !SomeTrial(entries, task, Passes) && SomeTrial(entries, task, Fails)
    ensures s == Refused <==> !SomeTrial(entries, task, Passes) && !SomeTrial(entries, task, Fails)
                              && SomeTrial(entries, task, Refuses)
  {
    hide StatusOf;
    var b :| 0 <= b < |entries| && Mentions(entries[b], task) && StatusOf(entries[b].result.value) == s;
    forall i | 0 <= i < |entries| && Mentions(entries[i], task)
      ensures var (r, own) := (entries[i].result.value, StatusOf(entries[i].result.value));
        && (own == Passed <==> Passes(r)) && (own == Failed <==> Fails(r)) && (own == Refused <==> Refuses(r))
        && Rank(own) <= Rank(s)
    {
      StatusExact(entries[i].result.value);
    }
  }

  lemma StatusExact(r: TrialResult)
    ensures StatusOf(r) == Passed <==> Passes(r)
    ensures StatusOf(r) == Failed <==> Fails(r)
    ensures StatusOf(r) == Refused <==> Refuses(r)
  {
  }

  /** What a job's trials of a task say of retrying it: none passed; and one failed, or
      one was refused and refusals are retried, or all were errors and those are. */
  ghost predicate WantsRetry(entries: seq<Entry>, task: string, includeRefused: bool, includeErrored: bool) {
    && !SomeTrial(entries, task, Passes)
    && (SomeTrial(entries, task, Fails)
        || if SomeTrial(entries, task, Refuses) then includeRefused else includeErrored)
  }

  /** Main result: a task is retried exactly when the trials of the newest job that
      mentions it say so. */
  lemma {:induction false} RetriedByTrials(jobs: Jobs, lineage: seq<string>, task: string, includeRefused: bool,
      includeErrored: bool)
    ensures Retried(jobs, lineage, task, includeRefused, includeErrored) <==>
      exists k: nat :: NewestMentioning(jobs, lineage, task, k)
                       && WantsRetry(jobs[lineage[k]].entries, task, includeRefused, includeErrored)
  {
    hide Best, SomeTrial;
    if Retried(jobs, lineage, task, includeRefused, includeErrored) {
      var s :| Effective(jobs, lineage, task, s) && Retryable(s, includeRefused, includeErrored);
      var k: nat :| NewestMentioning(jobs, lineage, task, k) && Best(jobs[lineage[k]].entries, task, s);
      BestByTrials(jobs[lineage[k]].entries, task, s);
    }
    if k: nat :| NewestMentioning(jobs, lineage, task, k)
                 && WantsRetry(jobs[lineage[k]].entries, task, includeRefused, includeErrored) {
      var s := SomeBest(jobs[lineage[k]].entries, task);
      BestByTrials(jobs[lineage[k]].entries, task, s);
      assert Effective(jobs, lineage, task, s);
    }
  }

  lemma {:induction false} SomeBest(entries: seq<Entry>, task: string) returns (s: Status)
    requires Mentioned(entries, task)
    ensures Best(entries, task, s)
  {
    hide Best;
    var init, last := entries[..|entries| - 1], entries[|entries| - 1];
    assert entries == init + [last];
    MentionedNext(init, last, task);
    if Mentioned(init, task) {
      s := SomeBest(init, task);
      if Mentions(last, task) {
        BestNext(init, last, task, s);
        s := Merge(s, StatusOf(last.result.value));
      } else {
        BestElsewhere(init, last, task, s);
      }
    } else {
      s := StatusOf(last.result.value);
      BestFirst(init, last, task);
    }
  }
}
