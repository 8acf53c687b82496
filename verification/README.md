# Nanoeval, modelled and proved

Nanoeval runs agents on evaluation tasks inside disposable virtual machines and
records what happened. This project models the parts of it where an error would
be silent - an attempt run twice or never, a reply given to the wrong request, a
count that drifts over a resumed job, a cache hit that differs from a fresh
build - and proves what each part is for, over every input, every run or every
interleaving.

The modules follow the program's components.

- `Admission` and `Executor`: the two-resource admission protocol and the
  bounded-window executor above it. Creating a wake-up handle, checking under the
  lock, parking, waking, updating on drop and notifying are separate steps of a
  state machine, so every interleaving of concurrent attempts is a run. The
  wake-up contract is Tokio's: a notification fires every handle created before
  it. The counters the protocol uses are those of the class
  `AdmissionController`.
- `Session`: the console RPC between host and guest. Callers may stop waiting at
  any point; the id counter wraps at 2^64. Writing one request line is one step.
- `Recorder` and `Accounting`: the events attempts emit, the recorder that
  follows any interleaving of them, and the job result it rewrites after every
  terminal event, over any number of sessions that stop between two events.
- `PassAtK`: the unbiased pass@k estimator, with exact rationals.
- `Resume`: coordinates of a sweep, the names that record them, the prefix match
  that skips them, and which job is taken up again. The expansion order is the
  code's (trial, then task, then agent); line 624 of the repository's README
  describes another one.
- `Checksum`: Harbor's two content hashes. SHA-256 is any function into 64
  characters; theorems assume no collision among the strings that are actually
  hashed, since injectivity on all strings would be inconsistent.
- `Text`, `Dockerfile`, `Variables`, `BuildSources`, `CopyPaths`, `ImageBuild`,
  `DockerfileSuffix` and `BuildCache`: the Dockerfile subset - its parser, variable
  expansion, the stages and images COPY reads from and where its paths lead, the
  environment and directory of a built stage against those computed for a cached image,
  and the key it is cached under. The key's text holds the Dockerfile without its
  length or an end mark; it is read back all the same, NUL or not, because what could
  be taken for more of it would need as many stages and images as before.
- `VerifierScript`: recognising a pinned setup and rewriting the script.
- `RetryLineage`: which tasks a rerun retries.
- `Atif`: the projection of an agent's events into steps.
- `Egress`: merging egress leases.
- `Common` and `Sorting` hold what several of them share.

Code that loops or updates state is a method or a class whose contract ties it to
a function of its inputs; the lemmas are about those functions, or about state
machines whose steps they are.

Some promises hold only under a condition. Each is stated with the condition that
decides it, and with an input on the failing side.

- Resuming skips exactly what is recorded if and only if the sweep's keys are
  unambiguous (`Resume.ResumeExactCondition`), and so does planning over sessions
  (`Resume.PlanningExactCondition`) and counting a job as incomplete
  (`Resume.UnfinishedExactCondition`). `Resume.SharedShortName` and
  `Resume.ContinuedAgent` are ambiguous sweeps. That no coordinate gets two results
  holds for every sweep.
- Rebuilding the job from its baseline is adding its events one by one if and only
  if all results report one model and, when an attempt failed, that model is the
  constant every failure is stamped with (`Accounting.RebuildExactly`). One success
  and one failure of another model are enough to break it
  (`Accounting.OneSuccessOneFailure`).
- Text without `$` survives expansion if and only if it is ASCII
  (`Variables.UnchangedExactly`); the two bytes of an accented letter do not
  (`Variables.AccentChanges`).
- The copies of a built stage keep to their own disks if and only if no source of a
  COPY with `--from` has, at any point, more `..` than names
  (`ImageBuild.StageKeepsToDisks`). Such a source is refused without `--from` only.
  `ImageBuild.CopyLeavesDisk` is a recipe that builds and copies from outside. A
  source that climbs may also come back; exactly when it ends on its disk is
  `CopyPaths.MountSourceExact`.
- A prepared disk names the directory its build ended in if and only if the final
  stage has a WORKDIR, or its image's directory is `/` or not a valid one
  (`ImageBuild.FinalWorkdirExact`); `ImageBuild.WorkdirsDiffer` is a recipe where it
  does not. Reading an image's configuration puts `/` for a directory that is not valid
  (bin/nanoeval/src/vm_image.rs:1441-1444), so one that is not can come only from an
  edited cache record.
- The command list of a recognised verifier script splits at the marker if and only
  if no command shares the marker's line (`VerifierScript.ScriptCommands`);
  `VerifierScript.SharedLineDiffers` is a script where one does. This is about the
  command lists of this model, read line by line: a shell would take a marker after
  a space for a trailing comment, and the rewrite would be right.
- A reply is classified rightly if and only if the id counter has not wrapped since
  (`Session.ClassificationExact`, `Session.WrappedCounterRejects`).

## Model

| member | source | states |
|---|---|---|
| Admission.AdmissionController.constructor | crates/nanoeval/src/evaluator.rs:860-868 | a new controller has no slot or memory in use |
| Admission.AdmissionController.TryAcquire | crates/nanoeval/src/evaluator.rs:870-896 | the critical section of `acquire` admits exactly when a slot is free and the memory in use and requested, capped at the ceiling, stays within it, and then charges both |
| Admission.AdmissionController.DropPermit | crates/nanoeval/src/evaluator.rs:899-911 | dropping a permit gives back its slot and the memory it was charged |
| Admission.StepKeepsInv | crates/nanoeval/src/evaluator.rs:870-911 | every step of every attempt keeps the invariant: counters are those of the live permits, within limits, no lost wake-up, window and completion log exact |
| Admission.AdmissionSafety | crates/nanoeval/src/evaluator.rs:870-911 | in every reachable state `running` is the number of live permits and `memory_mb` the sum of their charges, both within the limits, no saturating subtraction saturates, and an unwoken waiter cannot run or is owed a notification |
| Admission.IdleFitsAll | crates/nanoeval/src/evaluator.rs:870-896 | with no live permit the counters are zero and any attempt fits |
| Admission.CeilingRunsAlone | crates/nanoeval/src/evaluator.rs:777-783 | a task declaring at least the memory ceiling never runs beside another, declared memory being positive |
| Admission.StepDecreases | crates/nanoeval/src/evaluator.rs:870-911 | every step lowers a measure of what the attempts can still do |
| Admission.RunsAreBounded | crates/nanoeval/src/evaluator.rs:355-389 | so the length of every run of a finite batch is bounded by its size |
| Admission.NoDeadlock | crates/nanoeval/src/evaluator.rs:870-911 | while an attempt is unsettled some step other than a cancellation is possible |
| Admission.MaximalRunSettles | crates/nanoeval/src/evaluator.rs:355-389 | a run that cannot go on has settled every attempt and returned all resources |
| Admission.EveryAttemptCompletes | crates/nanoeval/src/evaluator.rs:355-389 | without cancellation it has completed every attempt, each exactly once in the completion log |
| Admission.WindowHolds | crates/nanoeval/src/evaluator.rs:355-375 | a call never has more unfinished futures than inputs, nor more than four times max_concurrency, one at least being allowed |
| Executor.Collect | crates/nanoeval/src/evaluator.rs:376-388 | the collection loop returns the error that completed first, or else the results sorted by input index |
| Executor.ResultsInInputOrder | crates/nanoeval/src/evaluator.rs:355-389 | whatever the interleaving, a call whose attempts all succeed returns one result per input, in input order |
| Executor.FirstErrorReturned | crates/nanoeval/src/evaluator.rs:376-388 | and one with a failing attempt returns the error of the attempt that failed first in completion order |
| Session.SessionState.WriteRequest | crates/nanocodex-vm/src/session.rs:256-286 | a request takes the counter's id, advances it with wrap-around and appends one line carrying that id |
| Session.SessionState.ReadResponse | crates/nanocodex-vm/src/session.rs:457-490 | the loop discards stale lines up to the deciding one and leaves the rest in the pipe |
| Session.ServeGuest | crates/nanocodex-vm/src/session.rs:564-618 | the guest answers its requests in order, each under its id and from the state earlier ones left, until an acknowledged shutdown |
| Session.ReadDecided | crates/nanocodex-vm/src/session.rs:457-490 | a read is decided by the first line whose id is not below the expected one: its answer, or an error naming both ids |
| Session.ReadUndecided | crates/nanocodex-vm/src/session.rs:457-490 | and ends with end of file when there is no such line |
| Session.StepKeepsHostInv | crates/nanocodex-vm/src/session.rs:256-301 | sends, losses, guest replies, crashes, reads and cancellations keep pipes and ids in step |
| Session.ClassificationExact | crates/nanocodex-vm/src/session.rs:457-490 | a line is read as one's own or as stale correctly if and only if the counter did not wrap between them |
| Session.WrappedCounterRejects | crates/nanocodex-vm/src/session.rs:457-490 | after a wrap an abandoned reply raises the `ResponseId` error: the bound is needed |
| Session.ReadIsExact | crates/nanocodex-vm/src/session.rs:457-490 | a read takes the holder's own reply or discards an abandoned one |
| Session.ClosedIsExact | crates/nanocodex-vm/src/session.rs:441-490 | end of file is read only from a guest that is gone and never answered the request |
| Session.AnswersAreTheGuests | crates/nanocodex-vm/src/session.rs:256-301 | in every run with fewer than 2^64 ids each outcome is the guest's own answer to that request, or end of file when a dead guest never answered it, never an id error |
| Session.HolderCanProceed | crates/nanocodex-vm/src/session.rs:457-490 | whoever holds the lock is never stuck |
| Session.WaitingShrinks | crates/nanocodex-vm/src/session.rs:457-490 | every guest reply or read ends the wait or leaves fewer lines to come |
| Session.LoopAnswersHolder | crates/nanocodex-vm/src/session.rs:441-490 | after any history, the discard loop of a new request returns the guest's answer to it |
| Session.GuestAnswersNext | crates/nanocodex-vm/src/session.rs:564-618 | the guest answers the oldest unanswered request, from the state earlier ones left |
| Session.ReadStepsAreLoop | crates/nanocodex-vm/src/session.rs:457-490 | the steps of the state machine that read one line each have together the effect of the loop |
| Session.HolderGetsAnswer | crates/nanocodex-vm/src/session.rs:441-490 | in every reachable state, while the guest stays up, whoever holds the lock can get the guest's own answer by steps of guest and holder alone |
| Session.CancelledThenAnswered | crates/nanocodex-vm/src/session.rs:441-490 | whoever waits may give up at any time, and the next request can still get the guest's own answer, whatever replies are left behind |
| Recorder.AttemptEmitter.Emit | crates/nanoeval/src/evaluator.rs:982-992 | events of one attempt are numbered from 1 without gaps |
| Recorder.AttemptEmitter.RunInner | crates/nanoeval/src/evaluator.rs:486-558 | the phases emit their events in order up to the first one that fails |
| Recorder.AttemptEmitter.Run | crates/nanoeval/src/evaluator.rs:440-484 | an attempt emits exactly the stream of its outcome, numbered from 1, a failure ending in one failure event |
| Recorder.StreamShaped | crates/nanoeval/src/evaluator.rs:440-558 | every stream has exactly one terminal event, at its end, and starts with `AttemptStarted` unless setup failed |
| Recorder.PhasesInOrder | crates/nanoeval/src/evaluator.rs:486-558 | a stream's events come in the order of the phases, each once but the agent's, and stop with the phase that failed |
| Recorder.Record | crates/nanoeval-harbor/src/lib.rs:212-307 | the recorder's loop, with the finish request arriving at any point |
| Recorder.RefusesFirst | crates/nanoeval-harbor/src/lib.rs:225-303 | for any events at all, the recorder takes them exactly when no attempt starts while it is open and no agent or completion event comes while its attempt is not; otherwise it fails with the error of the first such event |
| Recorder.EventFollows | crates/nanoeval-harbor/src/lib.rs:240-303 | the next event of any attempt is accepted, and open, completed and recorded stay what the attempts' progress says |
| Recorder.RecorderNeverConfused | crates/nanoeval-harbor/src/lib.rs:212-307 | for every interleaving, complete or not, `MissingAttempt` and `DuplicateAttempt` never occur |
| Recorder.CountedMeansEnded | crates/nanoeval-harbor/src/lib.rs:195-210 | as many terminal events as attempts means that all have ended and none is open |
| Recorder.FinishAllCommits | crates/nanoeval-harbor/src/lib.rs:152-162 | `finish_all(n)` commits exactly when all n terminal events are recorded, and the job then counts them all |
| Recorder.CommittedBatchFinishes | crates/nanoeval-harbor/src/lib.rs:152-162 | a new job whose plan is its batch, or unknown, has after `finish_all` its batch as total, nothing pending, and is finished unless it is empty |
| Recorder.FinishListedCommits | crates/nanoeval-harbor/src/lib.rs:195-210 | `finish(results)` commits exactly when every listed attempt's terminal event is recorded |
| Recorder.StoppedAnywhere | crates/nanoeval-harbor/src/lib.rs:212-307 | after any part of any interleaving the job on disk is the one a session stopped there writes from its baseline |
| Recorder.RecordedJobConserved | crates/nanoeval-harbor/src/lib.rs:212-307 | so wherever a recorder stops, its job counts all terminal events of earlier sessions and its own exactly once |
| Recorder.RecordedRebuildExactly | crates/nanoeval/src/evaluator.rs:1005-1032 | for the events the emitters give, failures carrying their constant model, the rebuilt job is the one-by-one job exactly on the condition of `RebuildExactly` |
| Recorder.BatchRecorded | crates/nanoeval-harbor/src/lib.rs:212-307 | for any outcomes of a batch and any interleaving of the streams they emit: no confused event, both ways of finishing commit exactly when what they wait for has ended, and the job counts everything once |
| Recorder.BatchRebuildExactly | crates/nanoeval-harbor/src/lib.rs:1057-1110 | and the rebuilt job is the one-by-one job exactly on the condition of `RebuildExactly` |
| Accounting.NewDelta | crates/nanoeval-harbor/src/lib.rs:1038-1088 | the delta of a session: counts, buckets in order, token and cost totals, key of the first model |
| Accounting.MergeInto | crates/nanoeval-harbor/src/lib.rs:1264-1281 | counts are added and every bucket extended, whatever the order the maps are walked in |
| Accounting.JobStats.Apply | crates/nanoeval-harbor/src/lib.rs:1090-1110 | the whole new statistics after a delta |
| Accounting.JobStats.ReplacePassAtK | crates/nanoeval-harbor/src/lib.rs:586-591 | old estimates are cleared and new ones put in, with nothing else changed |
| Accounting.WriteJob | crates/nanoeval-harbor/src/lib.rs:574-614 | the job result written from baseline, plan, results and failures; what its parts are is said by the lemmas below |
| Accounting.WrittenConserves | crates/nanoeval-harbor/src/lib.rs:574-614 | a write keeps the counters equal to the sums over evaluations, and pending + completed = total |
| Accounting.AccountingConserved | crates/nanoeval-harbor/src/lib.rs:574-614 | over any sessions stopped between events: completed = trials + errors over evaluations = all terminal events, errored = failures, pending + completed = total, finished exactly when nothing is pending |
| Accounting.TotalCoversPlans | crates/nanoeval-harbor/src/lib.rs:592-600 | the total never falls below what any session planned |
| Accounting.TotalIsLargest | crates/nanoeval-harbor/src/lib.rs:592-600 | over any sessions, the total is the largest of all counts they were given, all their plans and the events counted: at least each and equal to one |
| Accounting.EstimatesAreLast | crates/nanoeval-harbor/src/lib.rs:586-591 | each evaluation has the estimates of the last session, or none |
| Accounting.UsageConserved | crates/nanoeval-harbor/src/lib.rs:1069-1110 | token counts are the sums over all results of all sessions, and a cost is the sum of those known, if any is |
| Accounting.MergedIsPushAll | crates/nanoeval-harbor/src/lib.rs:1264-1281 | merging buckets built apart is filing on top of the retained ones |
| Accounting.RebuildIsOneByOne | crates/nanoeval-harbor/src/lib.rs:1057-1110 | rebuilding from the baseline equals adding events one by one if and only if all terminal events carry one model |
| Accounting.RebuildExactly | crates/nanoeval/src/evaluator.rs:1005-1032 | with failures stamped with one constant model, that is: all results report one model, and it is that constant if an attempt failed |
| Accounting.OneSuccessOneFailure | crates/nanoeval/src/evaluator.rs:1005-1032 | one result of another model and one failure make the two ways differ |
| Accounting.SessionsAreOneByOne | crates/nanoeval-harbor/src/lib.rs:574-614 | so over all sessions, when the terminal events of each carry one model |
| Accounting.EvaluationExact | crates/nanoeval-harbor/src/lib.rs:1038-1110 | over any sessions, an evaluation holds exactly what was filed under its key: the whole sessions whose key it is, whatever models they ran |
| Accounting.EvaluationCounts | crates/nanoeval-harbor/src/lib.rs:1038-1110 | its trials and errors are the results and failures filed under its key |
| Accounting.EvaluationsExact | crates/nanoeval-harbor/src/lib.rs:1090-1110 | a job has exactly the evaluations that are a session's key, are named by its estimates, or stand in for a first session without events |
| Accounting.SessionKeyIsFirst | crates/nanoeval-harbor/src/lib.rs:1057-1068 | the key of a session names the model of its first result or, without any, of its first failure |
| Accounting.ExceptionsExact | crates/nanoeval-harbor/src/lib.rs:1050-1064 | an exception bucket lists, in order, the attempts filed under its key that failed with it |
| Accounting.BucketsExact | crates/nanoeval-harbor/src/lib.rs:1038-1050 | so a reward bucket of the job lists, in order, exactly the trials filed under its key whose metric got that reward |
| Accounting.EachResultFiledOnce | crates/nanoeval-harbor/src/lib.rs:1038-1050 | over any sessions with distinct trial names, each result sits exactly once among all evaluations' buckets of a metric, under its session's key and its own reward |
| PassAtK.EstimateForTask | crates/nanoeval-harbor/src/lib.rs:1254-1262 | the product form equals 1 - C(n-c,k)/C(n,k), with every subtraction and divisor valid |
| PassAtK.DrawsCounted | crates/nanoeval-harbor/src/lib.rs:1254-1262 | the number of k-subsets of n trials is the binomial coefficient |
| PassAtK.ShareOfDraws | crates/nanoeval-harbor/src/lib.rs:1254-1262 | the estimate is the exact share of k-subsets of the trials that hold a success |
| PassAtK.CertainSuccess | crates/nanoeval-harbor/src/lib.rs:1255-1257 | with fewer than k failures the estimate is one |
| PassAtK.GrowsWithSuccesses | crates/nanoeval-harbor/src/lib.rs:1254-1262 | more successes never lower it |
| PassAtK.GrowsWithK | crates/nanoeval-harbor/src/lib.rs:1254-1262 | a larger k never lowers it |
| PassAtK.Monotone | crates/nanoeval-harbor/src/lib.rs:1254-1262 | it lies between 0 and 1 and grows with both |
| PassAtK.EligibleKValues | crates/nanoeval-harbor/src/lib.rs:1239-1252 | exactly the powers of two and multiples of five up to the limit, from 2 on |
| PassAtK.EligibleExactly | crates/nanoeval-harbor/src/lib.rs:1239-1252 | those are the numbers that halve down to one, but not one itself, and the multiples of five |
| PassAtK.CorrectCounts | crates/nanoeval-harbor/src/lib.rs:1230-1231 | a task's count of successes is the number of its positions that hold one |
| PassAtK.TaskByDraws | crates/nanoeval-harbor/src/lib.rs:1226-1233 | so its estimate is the share of k-subsets of its positions that hold a success |
| PassAtK.SumEstimates | crates/nanoeval-harbor/src/lib.rs:1226-1233 | for every eligible k each task's estimate is defined, and the sum is that of the exact shares of k-subsets of each task's trial positions that hold a successful one |
| PassAtK.ForTasks | crates/nanoeval-harbor/src/lib.rs:1222-1237 | one mean of those shares per eligible k of the smallest trial count, or none |
| PassAtK.CertainRows | crates/nanoeval-harbor/src/lib.rs:1222-1237 | when every trial succeeds each row is one, when none does each is zero |
| Checksum.ComputeHash | crates/nanoeval-harbor/src/checksum.rs:53-87 | the recursion computes the digest of the sorted descriptor lines, none for a directory without files |
| Checksum.LineReadsBack | crates/nanoeval-harbor/src/checksum.rs:60-80 | a descriptor line determines kind, digest and name |
| Checksum.DirectoryHashExact | crates/nanoeval-harbor/src/checksum.rs:17-87 | without a collision, two trees have equal directory hashes if and only if the same names lead to files with the same data in both |
| Checksum.DirectoryHashText | crates/nanoeval-harbor/src/checksum.rs:53-87 | a directory with a file below it hashes to the digest of its entries' lines in ascending order with two NULs between them, and any other has no hash |
| Checksum.CollectPackageFiles | crates/nanoeval-harbor/src/checksum.rs:89-109 | the recursive collection of files that are not ignored; `ListingExact` says which they are |
| Checksum.AddPackageFiles | crates/nanoeval-harbor/src/checksum.rs:24-51 | the top-level files that are present are taken in order |
| Checksum.AddPackageDirectories | crates/nanoeval-harbor/src/checksum.rs:24-51 | the package's directories are collected after them |
| Checksum.ComputePackageHash | crates/nanoeval-harbor/src/checksum.rs:24-51 | the running digest over the files sorted by name; `ListingExact` says which they are |
| Checksum.ListingExact | crates/nanoeval-harbor/src/checksum.rs:24-109 | for every tree, a path is listed with its data if and only if following its names from the root reaches that file, it is one of the three top files or lies below one of the four directories, and no rule drops the file or a directory on the way |
| Checksum.PackageHashText | crates/nanoeval-harbor/src/checksum.rs:36-51 | the package hash is the digest of one line per file the package has, in ascending order of names |
| Checksum.EncodeReadsBack | crates/nanoeval-harbor/src/checksum.rs:38-48 | the digested encoding determines the list of names and contents |
| Checksum.PackageHashExact | crates/nanoeval-harbor/src/checksum.rs:24-109 | without a collision, two packages, each with its own ignore rules, have equal content hashes if and only if every path leads to the same data in both or to none, whatever the read order |
| Resume.PaddedReadsBack | crates/nanoeval/src/sweep.rs:321-329 | a padded trial number is read back, past 999 too |
| Resume.PaddedDigits | crates/nanoeval/src/sweep.rs:321-329 | it has at least three digits, and no zero in front of more |
| Resume.ShortNameExact | crates/nanoeval/src/sweep.rs:321-329 | a short name is what follows the last slash, or the whole name |
| Resume.CompletedAttempt | crates/nanoeval/src/job.rs:148-167 | true exactly when a directory with a result has the prefix followed by the separator |
| Resume.AttemptsExact | crates/nanoeval/src/sweep.rs:161-172 | the sweep expands to every coordinate exactly once, ordered by trial, task, agent |
| Resume.MatchShape | crates/nanoeval/src/job.rs:158-162 | exactly when the directory name of one attempt is taken for another's |
| Resume.ResumeExactCondition | crates/nanoeval/src/job.rs:148-167 | in every job directory exactly the recorded attempts are skipped, if and only if the sweep's keys are unambiguous |
| Resume.ClearNamesResumeExactly | crates/nanoeval/src/sweep.rs:321-329 | that holds when short task names and agent identities hold no `__` and are distinct |
| Resume.SharedShortName | crates/nanoeval/src/sweep.rs:321-329 | it fails whenever two tasks share a short name |
| Resume.ContinuedAgent | crates/nanoeval/src/evaluator.rs:1302-1314 | it fails whenever an agent's identity continues another's trial prefix |
| Resume.ContinuedAgentAccepted | crates/nanoeval/src/sweep.rs:94-108 | `AgentId::new` accepts such an identity |
| Resume.Build | crates/nanoeval/src/sweep.rs:265-301 | a sweep is built exactly from nonempty, distinct inputs of countable size; otherwise each error is reported exactly when its problem is the first in the source's order |
| Resume.SameRunExact | crates/nanoeval/src/sweep.rs:195-210 | two built sweeps are the same run if and only if they have the same task set, agents and trials |
| Resume.JobRun.Bind | crates/nanoeval/src/job.rs:128-146 | the first run to bind a job stays; another binds only if it is the same run |
| Resume.BoundRunsAgree | crates/nanoeval/src/job.rs:169-176 | so all that bind one job are one run with one attempt count |
| Resume.Plan | crates/nanoeval/src/evaluator.rs:303-353 | the inputs are exactly the attempts without a matching result, in order, and run + skipped = tasks * agents * trials |
| Resume.StepKeepsInv | crates/nanoeval/src/evaluator.rs:303-337 | for every sweep, planning, finishing and interrupting attempts keep directory and results in step |
| Resume.NoResultRepeated | crates/nanoeval/src/evaluator.rs:303-353 | for every sweep, over any number of interrupted sessions no coordinate gets two results and none that has one is planned again |
| Resume.PlanningExactCondition | crates/nanoeval/src/evaluator.rs:303-353 | every session of every run plans exactly the coordinates without a result, if and only if the sweep's keys are unambiguous |
| Resume.CompletedTrialCount | crates/nanoeval/src/job.rs:178-187 | the number of trial directories holding a result |
| Resume.ResultsCount | crates/nanoeval/src/job.rs:148-187 | one more entry completes an attempt or counts exactly when it is a directory with a result |
| Resume.CandidateExactly | crates/nanoeval/src/job.rs:61-83 | in every reachable state, the job a sweep leaves behind can be resumed exactly while some coordinate has no result |
| Resume.AmbiguousStaysUnfinished | crates/nanoeval/src/job.rs:61-83 | every ambiguous sweep reaches a job that would be resumed though no session finds anything to run |
| Resume.UnfinishedExactCondition | crates/nanoeval/src/job.rs:61-83 | in every reachable state a job would be resumed exactly when a session finds an attempt to run, if and only if the keys are unambiguous |
| Resume.ResumeOrCreate | crates/nanoeval/src/job.rs:61-101 | a newest job of the same run with fewer results than roots * agents * trials is taken up, refused if it is locked, and a new one made exactly when there is none |
| Dockerfile.LogicalLines | bin/nanoeval/src/vm_image.rs:484-513 | the line loop: comments, continuations, blank and unfinished lines |
| Dockerfile.Parse | bin/nanoeval/src/vm_image.rs:381-452 | the parser's loop over logical lines, with its errors |
| Text.TrimExact | bin/nanoeval/src/vm_image.rs:484-513 | trimming removes what is blank at both ends and nothing else |
| Text.ReturnDropped | bin/nanoeval/src/vm_image.rs:484-513 | a line may end in a carriage return and a line feed |
| Dockerfile.KeywordAnyCase | bin/nanoeval/src/vm_image.rs:381-452 | a line reads the same whatever the case of its keyword |
| Dockerfile.LaidReads | bin/nanoeval/src/vm_image.rs:484-513 | fields on one line or on continuation lines read as the same logical line |
| Dockerfile.CopyFieldsParse | bin/nanoeval/src/vm_image.rs:524-550 | COPY fields give back source stage, sources and destination |
| Dockerfile.ParseRoundTrip | bin/nanoeval/src/vm_image.rs:381-560 | every well-formed recipe, printed with any fields on continuation lines and any blank lines and comments in between, parses to itself |
| Dockerfile.ParsedIsAllowed | bin/nanoeval/src/vm_image.rs:381-576 | whatever text parses has a stage and only allowed instructions: RUN and CMD that say something, COPY with sources and a destination and no empty `--from`, absolute WORKDIRs that never climb, ENV and ARG with valid names |
| Dockerfile.ValidWorkdirExact | bin/nanoeval/src/vm_image.rs:570-576 | a guest directory is valid exactly when it is absolute and no `..` stands between slashes or at an end |
| Variables.PiecesShow | bin/nanoeval/src/vm_image.rs:1185-1236 | every text reads as a canonical sequence of plain characters, bare dollars and variables |
| Variables.PiecesUnique | bin/nanoeval/src/vm_image.rs:1185-1236 | in only one way |
| Variables.ExpandVariables | bin/nanoeval/src/vm_image.rs:1185-1236 | the index loop ends and puts together the meanings of those pieces, ARG over ENV over empty |
| Variables.ExpansionIsMeaning | bin/nanoeval/src/vm_image.rs:1185-1236 | any text put together from fitting pieces expands to their meanings, each variable once and no value again |
| Variables.VariableGives | bin/nanoeval/src/vm_image.rs:1198-1232 | `${NAME}` and `$NAME` give the argument of that name, or else the environment's value, or else nothing, and the rest of the text is expanded on its own |
| Variables.ByteGives | bin/nanoeval/src/vm_image.rs:1192-1196 | any other byte gives the character of its number in UTF-8: itself below 128, two bytes that encode it otherwise |
| Variables.UnchangedExactly | bin/nanoeval/src/vm_image.rs:1190-1196 | text without `$` is unchanged if and only if it is ASCII |
| Variables.AccentChanges | bin/nanoeval/src/vm_image.rs:1190-1196 | the two bytes of an accented letter come out changed |
| ImageBuild.FinalRecipeEnvironment | bin/nanoeval/src/vm_image.rs:1149-1183 | the environment of the final stage's assignments over the image's, with HOME and PATH defaults |
| BuildSources.RecipeImages | bin/nanoeval/src/vm_image.rs:578-619 | the images pulled are exactly the base images and the COPY references no stage answers to |
| BuildSources.MountSources | bin/nanoeval/src/vm_image.rs:789-830 | the loop that resolves a stage's COPY references to disks, with its errors |
| BuildSources.SourcesExact | bin/nanoeval/src/vm_image.rs:789-830 | it succeeds exactly when every reference is an earlier stage or a pulled image and there are at most 23 |
| BuildSources.FirstFailure | bin/nanoeval/src/vm_image.rs:789-830 | an unknown source is one the stage names and cannot use; the only other error is too many sources |
| BuildSources.MountsApart | bin/nanoeval/src/vm_image.rs:789-830 | each reference is mounted once, from its own disk, on the device of its place among the disks and at a path no other has |
| BuildSources.ResolvesToNamed | bin/nanoeval/src/vm_image.rs:1129-1136 | a reference resolves to a stage exactly when it is read as its number - digits, perhaps behind zeros and a plus sign, below 2^64 - or is no number and the stage is the first so named |
| BuildSources.DiskIsNamed | bin/nanoeval/src/vm_image.rs:789-830 | the disk mounted for a reference is that of the stage it names, built before, or of a pulled image when it names none; device and path are those of its place |
| CopyPaths.ContextSourceExact | bin/nanoeval/src/vm_image.rs:1025-1040 | a source from the context is refused exactly when it is absolute behind its leading `./` or has a `..`; otherwise its path leads where the source does and never leaves the context |
| CopyPaths.MountSourceExact | bin/nanoeval/src/vm_image.rs:1025-1040 | a source with `--from` leads where it does from its mount; its path never leaves the mount exactly when the source never has more `..` than names, and ends below it exactly when it goes down again what it climbed |
| ImageBuild.ExecuteCopy | bin/nanoeval/src/vm_image.rs:1015-1067 | the source loop with its errors, and the one command COPY sends |
| ImageBuild.ExecuteStageInner | bin/nanoeval/src/vm_image.rs:898-978 | mounting context and sources, then the instruction loop with what each instruction does to variables, directory and the commands sent, stopping at the first failure with its error |
| ImageBuild.BuiltStageCommands | bin/nanoeval/src/vm_image.rs:898-978 | for every built stage, the log is the mounts of context and sources and then exactly the commands of its RUNs, WORKDIRs and COPYs in order: each RUN with its own script, in the directory of the last WORKDIR before it or the stage's start, with the variables of that point; each WORKDIR with its own path |
| ImageBuild.FailedStep | bin/nanoeval/src/vm_image.rs:898-978 | a stage fails at a step only when the guest refuses a mount, or the command of an instruction after all those before it were done; the error names this stage and that mount or instruction, and in a built stage the guest took every command |
| ImageBuild.StartsWithImage | bin/nanoeval/src/vm_image.rs:918-927 | a stage starts with its image's variables, with defaults for HOME and PATH, and no arguments |
| ImageBuild.WorkdirIsLast | bin/nanoeval/src/vm_image.rs:930-942 | the directory is that of the last WORKDIR |
| ImageBuild.EnvIsLast | bin/nanoeval/src/vm_image.rs:943-946 | a variable has the value the last ENV of its name expands to, by the scope before it |
| ImageBuild.ArgIsLast | bin/nanoeval/src/vm_image.rs:947-953 | an argument the one its last ARG does, empty without a default |
| ImageBuild.UnassignedKept | bin/nanoeval/src/vm_image.rs:928-953 | and a name no instruction assigns keeps its value |
| ImageBuild.ExecuteStage | bin/nanoeval/src/vm_image.rs:773-846 | resolving the sources of a stage and running it; a stage that builds could use all its references and holds what its assignments give |
| ImageBuild.FreshBuildEnvironment | bin/nanoeval/src/vm_image.rs:645-701 | when the last stage builds, the environment it holds is the one computed without building, whatever the guest does |
| ImageBuild.RunSeesAssignments | bin/nanoeval/src/vm_image.rs:945-954 | a RUN command sees exactly the assignments before it, ARG over ENV |
| ImageBuild.BuiltStageCopies | bin/nanoeval/src/vm_image.rs:898-1067 | a built stage mounts its sources first, and the copies it sent are its COPYs in order with their texts expanded, each with one path per source that leads where the source does from the context or from its reference's mount, and an absolute destination that leads where its own does |
| ImageBuild.StageKeepsToDisks | bin/nanoeval/src/vm_image.rs:898-1067 | all these paths keep to the context or to their own disk if and only if no source with `--from` has, at any point, more `..` than names |
| ImageBuild.CopyLeavesDisk | bin/nanoeval/src/vm_image.rs:1025-1040 | a recipe that builds in every guest that accepts its commands, and whose copy leaves its mount |
| ImageBuild.UnknownSourceExact | bin/nanoeval/src/vm_image.rs:578-830 | with the pulled images, a stage fails for an unknown source only when a COPY names a stage not built before, and every such stage fails so or for too many sources |
| ImageBuild.ParsedAbsolute | bin/nanoeval/src/vm_image.rs:408-416 | every WORKDIR of a parsed recipe is absolute |
| ImageBuild.PrepareBuiltDisk | bin/nanoeval/src/vm_image.rs:645-701 | a cache hit and a fresh build return the same environment; a fresh build succeeds exactly when all stages do and otherwise fails with the error of the first stage to fail |
| ImageBuild.FinalWorkdirExact | bin/nanoeval/src/vm_image.rs:458-473 | for every recipe, the directory a prepared disk names is the one its build ended in if and only if the final stage has a WORKDIR, or the image's directory is the root or not a valid one |
| ImageBuild.WorkdirsDiffer | bin/nanoeval/src/vm_image.rs:919-926 | a recipe of one RUN on an image that starts in `/app` ends there, while the disk names the root |
| BuildCache.BuildCacheKey | bin/nanoeval/src/vm_image.rs:1238-1268 | the key is the digest of header, Dockerfile, stages and images, fed in that order |
| DockerfileSuffix.ParsingGrows | bin/nanoeval/src/vm_image.rs:381-513 | if a Dockerfile parses with and without a piece of text behind it that starts with NUL and has no whitespace, both recipes have the same stages with the same COPY references; a base or stage name that differs has a NUL |
| BuildCache.SuffixNeedsNoFewer | bin/nanoeval/src/vm_image.rs:578-619 | so the longer one has as many stages and needs no fewer images |
| BuildCache.KeyExact | bin/nanoeval/src/vm_image.rs:1238-1268 | without a collision, for every two Dockerfiles, two keys are equal if and only if disk size, context, Dockerfile and all references with their digests are |
| VerifierScript.CommandsSplit | bin/nanoeval/src/eval.rs:2532-2536 | a script's commands are split where its lines are |
| VerifierScript.RecognizedExactly | bin/nanoeval/src/eval.rs:2528-2558 | a setup is recognised exactly when it runs to the first marker, holds the pinned bootstrap as two commands in a row, starts behind the shebang line, and is to be skipped exactly for the canonical four commands |
| VerifierScript.SetupRange | bin/nanoeval/src/eval.rs:2528-2558 | a recognised setup is a range from past the shebang line to the marker holding the pinned bootstrap, and can be skipped exactly when its commands are the four canonical ones |
| VerifierScript.CachedCommands | bin/nanoeval/src/eval.rs:2560-2566 | the rewritten script's commands are the activation and then those after the marker |
| VerifierScript.ScriptCommands | bin/nanoeval/src/eval.rs:2528-2566 | the original's are the canonical four and then those, if and only if no command shares the marker's line |
| VerifierScript.SharedLineDiffers | bin/nanoeval/src/eval.rs:2528-2566 | a recognised and skippable script whose last setup command shares that line |
| VerifierScript.CachedMeaning | bin/nanoeval/src/eval.rs:2528-2566 | so in any line interpreter the rewritten script does what the original does with the four replaced by the activation |
| RetryLineage.Lineage | bin/nanoeval/src/eval.rs:944-970 | the loop ends on every finite job graph, reports a cycle if and only if the parent chain revisits a job, and otherwise lists the whole chain, oldest first; every outcome comes with the chain of jobs that shows it |
| RetryLineage.MergeIsMaximum | bin/nanoeval/src/eval.rs:1014-1023 | merging is the maximum of Passed > Failed > Refused > Errored: commutative, associative, idempotent |
| RetryLineage.TaskStatuses | bin/nanoeval/src/eval.rs:972-991 | a job's tasks are those its trials mention, each with the best status among its trials |
| RetryLineage.StatusesIgnoreOrder | bin/nanoeval/src/eval.rs:972-991 | whatever order the directory is read in |
| RetryLineage.EffectiveStatuses | bin/nanoeval/src/eval.rs:885-891 | each task's effective status is that of the newest job mentioning it |
| RetryLineage.EffectiveUnique | bin/nanoeval/src/eval.rs:885-891 | a task has at most one effective status, and only if some job mentions it |
| RetryLineage.RetriedByTrials | bin/nanoeval/src/eval.rs:879-1023 | a task is retried exactly when, in the newest job mentioning it, no trial passed and one failed, or refusals are asked for and one was refused, or errors are asked for and none was |
| RetryLineage.RetryTaskNames | bin/nanoeval/src/eval.rs:879-914 | the queue is exactly the matching tasks whose effective status is retried, and `unresolved` is the number of all tasks that are |
| Atif.AtifBuilder.Apply | crates/nanoeval/src/atif.rs:208-287 | one event changes the turn it belongs to and nothing else, and the builder goes on following the stream |
| Atif.AtifBuilder.Finish | crates/nanoeval/src/atif.rs:290-339 | the trajectory of a completed attempt, its last agent step closed |
| Atif.AtifBuilder.FinishFailure | crates/nanoeval/src/atif.rs:343-413 | the trajectory of a failed attempt with its totals |
| Atif.Project | crates/nanoeval-harbor/src/lib.rs:244-285 | an attempt's events applied one by one to a new builder, and its ending, give the trajectory of the stream |
| Atif.TrajectoryShape | crates/nanoeval/src/atif.rs:290-413 | both have a user step and one agent step per model call |
| Atif.StepsFollowStream | crates/nanoeval/src/atif.rs:208-413 | for every stream and ending, steps are numbered from 1 in ascending call index, each with exactly its call's tools and results in order |
| Atif.IndexesExact | crates/nanoeval/src/atif.rs:208-287 | there is a step for exactly the model calls some event speaks of |
| Atif.CallInPlace | crates/nanoeval/src/atif.rs:250-266 | the call an event makes comes, in its model call's step, after those made before, with the event's identifier, tool and arguments, these wrapped in an object unless they are one |
| Atif.ResultInPlace | crates/nanoeval/src/atif.rs:267-284 | a result comes, in the step of the last call with its identifier, after those returned before, with the event's content, status and duration |
| Atif.StepsSay | crates/nanoeval/src/atif.rs:208-413 | for every stream and ending, the first step is the prompt and each other one has the messages, reasoning, model, effort and usage its call's events gave, the last one closed by the final message |
| Atif.ObservationsHaveCalls | crates/nanoeval/src/atif.rs:259-283 | for every stream and ending, every observation lies in a step with a tool call of the same identifier |
| Atif.CountsConserved | crates/nanoeval/src/atif.rs:19-37 | for every stream and ending, over all steps tool calls are the stream's, observations the results whose call came earlier |
| Atif.FailureTotals | crates/nanoeval/src/atif.rs:349-380 | a failed attempt's totals are the sums over its steps |
| Atif.CompletedTotals | crates/nanoeval/src/atif.rs:290-339 | a completed attempt's totals, model and session are those reported for it |
| Atif.FailedModel | crates/nanoeval/src/atif.rs:343-413 | a failed attempt is named after the first call that named a model |
| Egress.EgressLease.InsertEnvironment | crates/nanovm/src/egress.rs:56-76 | a valid name joins exactly when free or already of that value |
| Egress.EgressLease.InsertMount | crates/nanovm/src/egress.rs:83-103 | a mount joins exactly when its tag is nonempty and tag and guest path are free or its own |
| Egress.EgressLease.Retain | crates/nanovm/src/egress.rs:107-112 | retaining a guard is merging a lease that holds nothing else |
| Egress.EgressLease.Merge | crates/nanovm/src/egress.rs:123-138 | merging succeeds exactly on compatible leases, is then their union with guards appended, and changes nothing otherwise |
| Egress.UnionValid | crates/nanovm/src/egress.rs:83-103 | guest paths stay unique across tags |
| Egress.MergeCommutes | crates/nanovm/src/egress.rs:115-138 | merging is commutative on configuration, also in when it fails |
| Egress.MergeAssociates | crates/nanovm/src/egress.rs:115-138 | and associative, guards included |
| Egress.MergeIdempotent | crates/nanovm/src/egress.rs:115-138 | and idempotent on configuration |
| Egress.MergeAllExact | crates/nanovm/src/egress.rs:115-138 | a chain of merges succeeds if and only if every two leases are compatible |
| Egress.GuardsKept | crates/nanovm/src/egress.rs:115-138 | it keeps the guards of all leases, in order |
| Egress.MergeAllIgnoresOrder | crates/nanovm/src/egress.rs:115-138 | in any order it fails or gives one configuration |

## Left out

- Session.AnswersAreTheGuests: assumes fewer than 2^64 ids taken, since the counter wraps; what happens beyond is `Session.WrappedCounterRejects`. A request line is written in one step, though the source makes two writes and a cancellation between them would join two requests.
- Accounting.AccountingConserved: sessions stop between events only; a crash between writing a trial and writing the job leaves the job's totals behind. Token counts and costs do not overflow, and costs are reals.
- Accounting.RebuildExactly: compares everything but the pass@k estimates, which every write replaces, and takes an absent evaluation for an empty one.
- Accounting.JobStats.ReplacePassAtK: the estimates are an input; grouping the trial files they come from is not modelled.
- Accounting.NewDelta: nested reward maps are one map keyed by metric and reward, so a retained metric without any reward is not told from an absent one; rewards are the keys the float formatting gives.
- PassAtK.EstimateForTask: real arithmetic instead of 64-bit floats.
- Checksum.DirectoryHashExact: trees are finite, so the set of ancestors that catches symlink cycles, and read errors, are not part of it; names are nonempty, NUL-free and UTF-8: the code replaces what is not, so two other names could become one.
- Checksum.PackageHashExact: the ignore rules are any predicate on relative paths, one for each package; how they are read from a `.gitignore` is not modelled.
- Resume.NoResultRepeated: one sweep in one task order over all sessions; a session whose tasks are listed in another order finds the same names.
- Resume.ResumeOrCreate: sorting by start and popping the last candidate is modelled as taking a newest one.
- Recorder.RecorderNeverConfused: attempt identifiers are distinct, no event is lost to a lagging subscription, and agent payloads decode.
- Dockerfile.ParseRoundTrip: the printer writes keywords in upper case (`Dockerfile.KeywordAnyCase` says that it does not matter); tokens that end a line do not end in a backslash, since the reader takes it for a continuation.
- Variables.ExpandVariables: works on the UTF-8 bytes of a text, one character a byte, while `Dockerfile` works on its characters; on ASCII they agree.
- ImageBuild.ExecuteStage: the guest is any function from the commands so far to success; what its commands do to the disk, starting it and shutting it down are not modelled.
- CopyPaths.MountSourceExact: paths are walked by their components, none of which is a symbolic link.
- ImageBuild.PrepareBuiltDisk: whether the disk is there is an input; `BuildCache.KeyExact` says what its key tells.
- BuildCache.KeyExact: references and digests of pulled images hold no NUL and no whitespace; the grammar that sees to it for references is in a crate that is not part of this model.
- BuildCache.BuildCacheKey: how a build context is archived and digested is not modelled.
- BuildSources.MountSources: the disks of stages and images are names, and flattening an image does not fail.
- VerifierScript.CachedMeaning: interpreters that read line by line; one with here-documents, continued lines or trailing comments that reach the marker is not one.
- RetryLineage.Lineage: invocation files decode; a job's path is its canonical one.
- Atif.AtifBuilder.Apply: payloads decode, and of the metrics only token counts and durations are kept; the model named when no call names one comes from a crate that is not part of this model.
- Egress.EgressLease.Merge: entries are merged in any order, so of several conflicts any may be the one reported; guards are identities.
- Time, randomness, file locks and process plumbing: inputs where they matter, absent elsewhere.
- Command-line parsing, progress output, image pulls, disk formatting and the VMM itself.
