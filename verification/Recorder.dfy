/** The events each attempt emits and the recorder that follows them, whatever the
    order in which concurrent attempts' events interleave. */
module Recorder {
  import opened Common
  import opened Accounting

  // ------------------------------------------------------------------
  // What one attempt emits
  // ------------------------------------------------------------------

  datatype Kind =
    | Started
    | Agent
    | VerifierStarted
    | VerifierOutput
    | VerifierCompleted
    | Ended(terminal: Terminal)

  datatype Event = Event(attempt: nat, sequence: nat, kind: Kind)

  /** How the phases of an attempt went: the first one to fail ends it. The agent
      phase emits `agentEvents` events first, also when it fails. */
  datatype Outcome =
    | SetupFails(failure: EvalFailure)
    | AgentFails(agentEvents: nat, failure: EvalFailure)
    | VerifierFails(agentEvents: nat, failure: EvalFailure)
    | Succeeds(agentEvents: nat, result: EvalResult)

  function AgentStream(n: nat): seq<Kind> {
    seq(n, _ => Agent)
  }

  function Stream(stamp: string, attempt: nat, o: Outcome): seq<Kind> {
    match o
    case SetupFails(failure) => [EndedBy(stamp, attempt, Failed(failure))]
    case AgentFails(n, failure) => [Started] + AgentStream(n) + [EndedBy(stamp, attempt, Failed(failure))]
    case VerifierFails(n, failure) =>
      [Started] + AgentStream(n) + [VerifierStarted, EndedBy(stamp, attempt, Failed(failure))]
    case Succeeds(n, result) =>
      [Started] + AgentStream(n) + [VerifierStarted, VerifierOutput, VerifierCompleted]
      + [EndedBy(stamp, attempt, Completed(result))]
  }

  /** A terminal event carries the attempt's own identifier; a failure carries one
      model for all attempts, `stamp`, whatever model ran. */
  function EndedBy(stamp: string, attempt: nat, t: Terminal): Kind {
    match t
    case Completed(result) => Ended(Completed(result.(attempt := attempt)))
    case Failed(failure) => Ended(Failed(failure.(attempt := attempt, model := stamp)))
  }

  function AttemptOf(t: Terminal): nat {
    if t.Completed? then t.result.attempt else t.failure.attempt
  }

  /** Events are numbered from 1. */
  function Numbered(attempt: nat, kinds: seq<Kind>): seq<Event> {
    seq(|kinds|, i requires 0 <= i < |kinds| => Event(attempt, i + 1, kinds[i]))
  }

  class AttemptEmitter {
    const stamp: string
    const attempt: nat
    var sequence: nat
    var sent: seq<Event>
    ghost var kinds: seq<Kind>

    ghost predicate Valid()
      reads this
    {
      sequence == |kinds| && sent == Numbered(attempt, kinds)
    }

    constructor (stamp: string, attempt: nat)
      ensures Valid() && this.stamp == stamp && this.attempt == attempt && kinds == []
    {
      this.stamp, this.attempt, sequence, sent, kinds := stamp, attempt, 0, [], [];
    }

    method Emit(kind: Kind)
      requires Valid()
      modifies this
      ensures Valid() && kinds == old(kinds) + [kind]
    {
      sequence := sequence + 1;
      sent := sent + [Event(attempt, sequence, kind)];
      kinds := kinds + [kind];
    }

    method EmitAgentEvents(n: nat)
      requires Valid()
      modifies this
      ensures Valid() && kinds == old(kinds) + AgentStream(n)
    {
      for i := 0 to n
        invariant Valid() && kinds == old(kinds) + AgentStream(i)
      {
        Emit(Agent);
      }
    }

    /** `run_task_inner`; an error is the failure `run_task` reports. */
    method RunInner(o: Outcome) returns (r: Result<EvalResult, EvalFailure>)
      requires Valid() && kinds == []
      modifies this
      ensures Valid() && kinds == EmittedInside(stamp, attempt, o)
      ensures r == if o.Succeeds? then Ok(o.result.(attempt := attempt)) else Err(o.failure)
    {
      hide Valid();
      if o.SetupFails? {
        return Err(o.failure);
      }
      Emit(Started);
      EmitAgentEvents(o.agentEvents);
      if o.AgentFails? {
        return Err(o.failure);
      }
      Emit(VerifierStarted);
      if o.VerifierFails? {
        return Err(o.failure);
      }
      Emit(VerifierOutput);
      Emit(VerifierCompleted);
      var result := o.result.(attempt := attempt);
      Emit(Ended(Completed(result)));
      return Ok(result);
    }

    /** `run_task` */
    method Run(o: Outcome) returns (r: Result<EvalResult, EvalFailure>)
      requires Valid() && kinds == []
      modifies this
      ensures Valid() && kinds == Stream(stamp, attempt, o) && sent == Numbered(attempt, Stream(stamp, attempt, o))
      ensures |sent| == |kinds| && forall i :: 0 <= i < |sent| ==> sent[i] == Event(attempt, i + 1, kinds[i])
      ensures r.Ok? <==> o.Succeeds?
    {
      r := RunInner(o);
      if r.Err? {
        Emit(Ended(Failed(r.error.(attempt := attempt, model := stamp))));
      }
    }
  }

  function EmittedInside(stamp: string, attempt: nat, o: Outcome): seq<Kind> {
    match o
    case SetupFails(_) => []
    case AgentFails(n, _) => [Started] + AgentStream(n)
    case VerifierFails(n, _) => [Started] + AgentStream(n) + [VerifierStarted]
    case Succeeds(n, result) => Stream(stamp, attempt, o)
  }

  /** One terminal event, at the end; `Started` first unless the attempt is only a failure. */
  ghost predicate Shaped(attempt: nat, s: seq<Kind>) {
    && s != [] && s[|s| - 1].Ended? && AttemptOf(s[|s| - 1].terminal) == attempt
    && (forall i :: 0 <= i < |s| - 1 ==> !s[i].Ended?)
    && (forall i :: 0 < i < |s| ==> !s[i].Started?)
    && (if |s| == 1 then s[0].terminal.Failed? else s[0].Started?)
  }

  /** Every failure in a stream carries the stamp. */
  ghost predicate FailuresStamped(stamp: string, s: seq<Kind>) {
    forall i :: 0 <= i < |s| && s[i].Ended? && s[i].terminal.Failed? ==> s[i].terminal.Model() == stamp
  }

  lemma StreamShaped(stamp: string, attempt: nat, o: Outcome)
    ensures Shaped(attempt, Stream(stamp, attempt, o)) && FailuresStamped(stamp, Stream(stamp, attempt, o))
  {
  }

  /** The place of an event among the phases of an attempt. */
  function Phase(kind: Kind): nat {
    match kind
    case Started => 0
    case Agent => 1
    case VerifierStarted => 2
    case VerifierOutput => 3
    case VerifierCompleted => 4
    case Ended(_) => 5
  }

  /** The events of an attempt come in the order of the phases, each once but the agent's,
      and stop with the phase that failed. */
  lemma PhasesInOrder(stamp: string, attempt: nat, o: Outcome)
    ensures var s := Stream(stamp, attempt, o);
      && (forall i, j :: 0 <= i < j < |s| ==> Phase(s[i]) < Phase(s[j]) || (s[i].Agent? && s[j].Agent?))
      && (Started in s <==> !o.SetupFails?)
      && |s| == (match o
                 case SetupFails(_) => 1
                 case AgentFails(n, _) => n + 2
                 case VerifierFails(n, _) => n + 3
                 case Succeeds(n, _) => n + 5)
      && (VerifierStarted in s <==> o.VerifierFails? || o.Succeeds?)
      && (VerifierOutput in s <==> o.Succeeds?) && (VerifierCompleted in s <==> o.Succeeds?)
  {
    var s := Stream(stamp, attempt, o);
    if !o.SetupFails? {
      var n := o.agentEvents;
      assert s[0] == Started && forall i :: 0 < i <= n ==> s[i] == Agent;
      assert o.VerifierFails? || o.Succeeds? ==> s[n + 1] == VerifierStarted;
      assert o.Succeeds? ==> s[n + 2] == VerifierOutput && s[n + 3] == VerifierCompleted;
    }
  }

  // ------------------------------------------------------------------
  // The recorder
  // ------------------------------------------------------------------

  datatype RecorderError =
    | DuplicateAttempt(attempt: nat)
    | MissingAttempt(attempt: nat)
    | EventStreamClosed

  /** `disk` gives the estimates the trial directories hold once those results and
      failures are written. */
  datatype Artifacts = Artifacts(baseline: Option<JobResult>, planned: Option<nat>,
                                 disk: (seq<EvalResult>, seq<EvalFailure>) -> map<string, map<nat, real>>)
  {
    function Job(results: seq<EvalResult>, failures: seq<EvalFailure>, n: nat): JobResult {
      Written(baseline, planned, disk(results, failures), results, failures, n)
    }

    function Attached(): Book {
      Book({}, {}, [], [], Job([], [], OrZero(planned)))
    }
  }

  /** What the recorder holds, and the job result on disk. */
  datatype Book = Book(open: set<nat>, completed: set<nat>, results: seq<EvalResult>, failures: seq<EvalFailure>,
                       job: JobResult)

  datatype FinishRequest = Listed(results: seq<EvalResult>) | TerminalCount(expected: nat)

  /** `finished_attempt_count` */
  function FinishedCount(request: Option<FinishRequest>, completed: set<nat>): Option<nat> {
    match request
    case None => None
    case Some(Listed(results)) =>
      if forall i :: 0 <= i < |results| ==> results[i].attempt in completed then Some(|results|) else None
    case Some(TerminalCount(expected)) =>
      if |completed| == expected then Some(expected) else None
  }

  function Recorded(a: Artifacts, b: Book, e: Event): Result<Book, RecorderError> {
    match e.kind
    case Started =>
      if e.attempt in b.open then Err(DuplicateAttempt(e.attempt)) else Ok(b.(open := b.open + {e.attempt}))
    case Agent =>
      if e.attempt in b.open then Ok(b) else Err(MissingAttempt(e.attempt))
    case Ended(Completed(result)) =>
      if e.attempt !in b.open then Err(MissingAttempt(e.attempt))
      else
        var results := b.results + [result];
        Ok(Book(b.open - {e.attempt}, b.completed + {result.attempt}, results, b.failures,
                a.Job(results, b.failures, |results| + |b.failures|)))
    case Ended(Failed(failure)) =>
      var failures := b.failures + [failure];
      Ok(Book(b.open - {e.attempt}, b.completed + {failure.attempt}, b.results, failures,
              a.Job(b.results, failures, |b.results| + |failures|)))
    case _ => Ok(b)
  }

  /** The recorder's run: the finish request arrives once `wait` more events have. */
  function Recording(a: Artifacts, b: Book, events: seq<Event>, request: FinishRequest, wait: nat):
    Result<JobResult, RecorderError>
    decreases |events|
  {
    var count := FinishedCount(if wait == 0 then Some(request) else None, b.completed);
    if count.Some? then Ok(a.Job(b.results, b.failures, count.value))
    else if events == [] then Err(EventStreamClosed)
    else
      match Recorded(a, b, events[0])
      case Err(error) => Err(error)
      case Ok(next) => Recording(a, next, events[1..], request, if wait == 0 then 0 else wait - 1)
  }

  /** One event of the loop below. */
  method RecordEvent(a: Artifacts, b: Book, e: Event) returns (r: Result<Book, RecorderError>)
    ensures r == Recorded(a, b, e)
  {
    hide Written;
    var open, completed, results, failures := b.open, b.completed, b.results, b.failures;
    match e.kind
    case Started =>
      if e.attempt in open {
        return Err(DuplicateAttempt(e.attempt));
      }
      return Ok(b.(open := open + {e.attempt}));
    case Agent =>
      if e.attempt !in open {
        return Err(MissingAttempt(e.attempt));
      }
      return Ok(b);
    case Ended(Completed(result)) =>
      if e.attempt !in open {
        return Err(MissingAttempt(e.attempt));
      }
      open, completed, results := open - {e.attempt}, completed + {result.attempt}, results + [result];
      var job := WriteJob(a.baseline, a.planned, a.disk(results, failures), results, failures,
                          |results| + |failures|);
      return Ok(Book(open, completed, results, failures, job));
    case Ended(Failed(failure)) =>
      open, completed, failures := open - {e.attempt}, completed + {failure.attempt}, failures + [failure];
      var job := WriteJob(a.baseline, a.planned, a.disk(results, failures), results, failures,
                          |results| + |failures|);
      return Ok(Book(open, completed, results, failures, job));
    case _ =>
      return Ok(b);
  }

  /** The loop of `record`. */
  method Record(a: Artifacts, events: seq<Event>, request: FinishRequest, wait: nat)
    returns (r: Result<JobResult, RecorderError>)
    ensures r == Recording(a, a.Attached(), events, request, wait)
  {
    hide Written, Recorded, FinishedCount;
    var job := WriteJob(a.baseline, a.planned, a.disk([], []), [], [], OrZero(a.planned));
    var b := Book({}, {}, [], [], job);
    var received, asked := 0, None;
    while true
      invariant received <= |events|
      invariant asked == if received > wait then Some(request) else None
      invariant Recording(a, b, events[received..], request, if received <= wait then wait - received else 0)
             == Recording(a, a.Attached(), events, request, wait)
      decreases |events| - received
    {
      if asked == None && received == wait {
        asked := Some(request);
      }
      var count := FinishedCount(asked, b.completed);
      if count.Some? {
        job := WriteJob(a.baseline, a.planned, a.disk(b.results, b.failures), b.results, b.failures, count.value);
        return Ok(job);
      }
      if received == |events| {
        return Err(EventStreamClosed);
      }
      var next := RecordEvent(a, b, events[received]);
      if next.Err? {
        return Err(next.error);
      }
      b := next.value;
      received := received + 1;
    }
  }

  // ------------------------------------------------------------------
  // Every interleaving
  // ------------------------------------------------------------------

  ghost predicate WellShaped(streams: seq<seq<Kind>>) {
    forall i :: 0 <= i < |streams| ==> Shaped(i, streams[i])
  }

  /** A schedule names, event by event, the attempt that emits next; `progress`
      counts what each has emitted. */
  predicate Schedules(streams: seq<seq<Kind>>, progress: seq<nat>, schedule: seq<nat>)
    decreases |schedule|
  {
    |progress| == |streams|
    && (schedule != [] ==>
      var i := schedule[0];
      i < |streams| && progress[i] < |streams[i]| && Schedules(streams, progress[i := progress[i] + 1], schedule[1..]))
  }

  function Emitted(streams: seq<seq<Kind>>, progress: seq<nat>, schedule: seq<nat>): seq<Event>
    requires Schedules(streams, progress, schedule)
    decreases |schedule|
  {
    if schedule == [] then []
    else
      var i := schedule[0];
      [Event(i, progress[i] + 1, streams[i][progress[i]])]
      + Emitted(streams, progress[i := progress[i] + 1], schedule[1..])
  }

  function ProgressAfter(streams: seq<seq<Kind>>, progress: seq<nat>, schedule: seq<nat>): seq<nat>
    requires Schedules(streams, progress, schedule)
    decreases |schedule|
  {
    if schedule == [] then progress
    else
      var i := schedule[0];
      ProgressAfter(streams, progress[i := progress[i] + 1], schedule[1..])
  }

  function NotStarted(n: nat): seq<nat> {
    seq(n, _ => 0)
  }

  ghost predicate OpenExactly(streams: seq<seq<Kind>>, progress: seq<nat>, open: set<nat>) {
    forall i: nat :: i in open <==> i < |streams| && i < |progress| && 0 < progress[i] < |streams[i]|
  }

  ghost predicate CompletedExactly(streams: seq<seq<Kind>>, progress: seq<nat>, completed: set<nat>) {
    forall i: nat :: i in completed <==> i < |streams| && i < |progress| && progress[i] == |streams[i]|
  }

  /** The recorder's book matches how far each attempt has got. */
  ghost predicate Follows(streams: seq<seq<Kind>>, progress: seq<nat>, b: Book) {
    && |progress| == |streams|
    && OpenExactly(streams, progress, b.open)
    && CompletedExactly(streams, progress, b.completed)
    && |b.results| + |b.failures| == |b.completed|
  }

  lemma OpenStep(streams: seq<seq<Kind>>, progress: seq<nat>, open: set<nat>, i: nat)
    requires i < |streams| == |progress| && progress[i] < |streams[i]| && OpenExactly(streams, progress, open)
    ensures OpenExactly(streams, progress[i := progress[i] + 1],
              if progress[i] + 1 < |streams[i]| then open + {i} else open - {i})
  {
  }

  lemma CompletedStep(streams: seq<seq<Kind>>, progress: seq<nat>, completed: set<nat>, i: nat)
    requires i < |streams| == |progress| && progress[i] < |streams[i]|
    requires CompletedExactly(streams, progress, completed)
    ensures CompletedExactly(streams, progress[i := progress[i] + 1],
              if progress[i] + 1 == |streams[i]| then completed + {i} else completed)
    ensures i !in completed
  {
  }

  /** What an attempt emits next tells whether the recorder knows it. */
  lemma NextKind(streams: seq<seq<Kind>>, progress: seq<nat>, open: set<nat>, i: nat)
    requires WellShaped(streams) && i < |streams| == |progress| && progress[i] < |streams[i]|
    requires OpenExactly(streams, progress, open)
    ensures var kind := streams[i][progress[i]];
      && (kind.Ended? <==> progress[i] + 1 == |streams[i]|)
      && (kind.Ended? ==> AttemptOf(kind.terminal) == i && (kind.terminal.Completed? ==> i in open))
      && (kind.Started? ==> i !in open)
      && (!kind.Ended? && !kind.Started? ==> i in open)
  {
    assert Shaped(i, streams[i]);
  }

  lemma EventFollows(a: Artifacts, streams: seq<seq<Kind>>, progress: seq<nat>, b: Book, i: nat)
    requires WellShaped(streams) && Follows(streams, progress, b)
    requires i < |streams| && progress[i] < |streams[i]|
    ensures var r := Recorded(a, b, Event(i, progress[i] + 1, streams[i][progress[i]]));
      r.Ok? && Follows(streams, progress[i := progress[i] + 1], r.value)
  {
    hide Written, OpenExactly, CompletedExactly, WellShaped;
    OpenStep(streams, progress, b.open, i);
    CompletedStep(streams, progress, b.completed, i);
    NextKind(streams, progress, b.open, i);
    if !streams[i][progress[i]].Ended? {
      assert streams[i][progress[i]].Started? || b.open + {i} == b.open;
    }
  }

  lemma StartFollows(a: Artifacts, streams: seq<seq<Kind>>)
    requires WellShaped(streams)
    ensures Follows(streams, NotStarted(|streams|), a.Attached())
  {
    hide Written;
    assert forall i :: 0 <= i < |streams| ==> Shaped(i, streams[i]);
  }

  /** Recording follows any interleaving, up to where it finishes. */
  lemma {:induction false} NeverLost(a: Artifacts, streams: seq<seq<Kind>>, progress: seq<nat>, b: Book,
      schedule: seq<nat>, request: FinishRequest, wait: nat)
    requires WellShaped(streams) && Follows(streams, progress, b) && Schedules(streams, progress, schedule)
    ensures var r := Recording(a, b, Emitted(streams, progress, schedule), request, wait);
      r.Err? ==> r.error == EventStreamClosed
    decreases |schedule|
  {
    hide Follows, WellShaped, Recorded, Written, FinishedCount;
    if schedule != [] {
      var i := schedule[0];
      var e := Event(i, progress[i] + 1, streams[i][progress[i]]);
      ScheduleLength(streams, progress, b);
      EventFollows(a, streams, progress, b, i);
      var events := Emitted(streams, progress, schedule);
      assert events[0] == e && events[1..] == Emitted(streams, progress[i := progress[i] + 1], schedule[1..]);
      NeverLost(a, streams, progress[i := progress[i] + 1], Recorded(a, b, e).value, schedule[1..], request,
                if wait == 0 then 0 else wait - 1);
    }
  }

  lemma ScheduleLength(streams: seq<seq<Kind>>, progress: seq<nat>, b: Book)
    requires Follows(streams, progress, b)
    ensures |progress| == |streams|
  {
  }

  /** Main result: whatever the interleaving and however far it got, the recorder
      never finds an event without its attempt nor an attempt twice. */
  lemma RecorderNeverConfused(a: Artifacts, streams: seq<seq<Kind>>, schedule: seq<nat>, request: FinishRequest,
      wait: nat)
    requires WellShaped(streams) && Schedules(streams, NotStarted(|streams|), schedule)
    ensures var r := Recording(a, a.Attached(), Emitted(streams, NotStarted(|streams|), schedule), request, wait);
      r.Err? ==> r.error == EventStreamClosed
  {
    StartFollows(a, streams);
    NeverLost(a, streams, NotStarted(|streams|), a.Attached(), schedule, request, wait);
  }

  // ------------------------------------------------------------------
  // When finish_all commits
  // ------------------------------------------------------------------

  predicate AllEnded(streams: seq<seq<Kind>>, progress: seq<nat>) {
    |progress| == |streams| && forall i :: 0 <= i < |streams| ==> progress[i] == |streams[i]|
  }

  function Below(n: nat): set<nat> {
    if n == 0 then {} else Below(n - 1) + {n - 1}
  }

  lemma {:induction false} BelowExact(n: nat)
    ensures |Below(n)| == n
    ensures forall i: nat :: i in Below(n) <==> i < n
  {
    if n > 0 {
      BelowExact(n - 1);
    }
  }

  lemma SubsetFull(s: set<nat>, n: nat)
    requires s <= Below(n)
    ensures |s| == n <==> s == Below(n)
  {
    BelowExact(n);
    SubsetSize(s, Below(n));
  }

  /** Counting to the number of attempts is having them all ended, none left open. */
  lemma CountedMeansEnded(streams: seq<seq<Kind>>, progress: seq<nat>, b: Book)
    requires Follows(streams, progress, b)
    ensures |b.completed| == |streams| <==> AllEnded(streams, progress)
    ensures AllEnded(streams, progress) ==> b.open == {} && |b.results| + |b.failures| == |streams|
  {
    BelowExact(|streams|);
    SubsetFull(b.completed, |streams|);
    if AllEnded(streams, progress) {
      assert b.completed == Below(|streams|);
    } else {
      var i :| 0 <= i < |streams| && progress[i] != |streams[i]|;
      assert i in Below(|streams|) && i !in b.completed;
    }
  }

  lemma EndedSchedulesNothing(streams: seq<seq<Kind>>, progress: seq<nat>, schedule: seq<nat>)
    requires AllEnded(streams, progress) && Schedules(streams, progress, schedule)
    ensures schedule == []
  {
  }

  /** The terminal events among `events`, in order. */
  function Terminals(events: seq<Event>): seq<Terminal> {
    if events == [] then []
    else (if events[0].kind.Ended? then [events[0].kind.terminal] else []) + Terminals(events[1..])
  }

  lemma {:induction false} FinishAllExact(a: Artifacts, streams: seq<seq<Kind>>, progress: seq<nat>, b: Book,
      schedule: seq<nat>, wait: nat, before: seq<Terminal>)
    requires WellShaped(streams) && Follows(streams, progress, b) && Schedules(streams, progress, schedule)
    requires b.results == Results(before) && b.failures == Failures(before) && wait <= |schedule|
    ensures var events := Emitted(streams, progress, schedule);
      var r := Recording(a, b, events, TerminalCount(|streams|), wait);
      var ts := before + Terminals(events);
      if AllEnded(streams, ProgressAfter(streams, progress, schedule))
      then r == Ok(a.Job(Results(ts), Failures(ts), |streams|))
      else r == Err(EventStreamClosed)
    decreases |schedule|
  {
    hide Follows, WellShaped, Written, AllEnded, Results, Failures, Recorded;
    CountedMeansEnded(streams, progress, b);
    ScheduleLength(streams, progress, b);
    var events := Emitted(streams, progress, schedule);
    if schedule == [] {
      assert before + Terminals(events) == before;
    } else {
      var i := schedule[0];
      var e := Event(i, progress[i] + 1, streams[i][progress[i]]);
      if AllEnded(streams, progress) {
        EndedSchedulesNothing(streams, progress, schedule);
      }
      EventFollows(a, streams, progress, b, i);
      assert events[0] == e && events[1..] == Emitted(streams, progress[i := progress[i] + 1], schedule[1..]);
      var more := if e.kind.Ended? then [e.kind.terminal] else [];
      RecordedTerminal(a, b, e, before);
      FinishAllExact(a, streams, progress[i := progress[i] + 1], Recorded(a, b, e).value, schedule[1..],
                     if wait == 0 then 0 else wait - 1, before + more);
      assert before + Terminals(events) == (before + more) + Terminals(events[1..]);
    }
  }

  lemma RecordedTerminal(a: Artifacts, b: Book, e: Event, before: seq<Terminal>)
    requires b.results == Results(before) && b.failures == Failures(before) && Recorded(a, b, e).Ok?
    ensures var next := Recorded(a, b, e).value;
      var ts := before + (if e.kind.Ended? then [e.kind.terminal] else []);
      next.results == Results(ts) && next.failures == Failures(ts)
  {
    hide Written;
    if e.kind.Ended? {
      assert (before + [e.kind.terminal])[..|before|] == before;
    } else {
      assert before + [] == before;
    }
  }

  /** Main result: `finish_all` with the number of attempts commits exactly when
      every attempt has ended, with every terminal event counted and none open. */
  lemma FinishAllCommits(a: Artifacts, streams: seq<seq<Kind>>, schedule: seq<nat>, wait: nat)
    requires WellShaped(streams) && Schedules(streams, NotStarted(|streams|), schedule) && wait <= |schedule|
    ensures var events := Emitted(streams, NotStarted(|streams|), schedule);
      var r := Recording(a, a.Attached(), events, TerminalCount(|streams|), wait);
      var ts := Terminals(events);
      if AllEnded(streams, ProgressAfter(streams, NotStarted(|streams|), schedule))
      then r == Ok(AfterSession(a.baseline, Session(a.planned, ts, Some(|streams|), a.disk(Results(ts), Failures(ts)))))
      else r == Err(EventStreamClosed)
  {
    hide Written, AllEnded;
    StartFollows(a, streams);
    FinishAllExact(a, streams, NotStarted(|streams|), a.Attached(), schedule, wait, []);
    var events := Emitted(streams, NotStarted(|streams|), schedule);
    assert [] + Terminals(events) == Terminals(events);
  }

  /** One for each stream that has ended. */
  function EndMarks(streams: seq<seq<Kind>>, progress: seq<nat>): seq<nat>
    requires |progress| == |streams|
  {
    seq(|streams|, i requires 0 <= i < |streams| => if progress[i] == |streams[i]| then 1 else 0)
  }

  lemma MarksNext(streams: seq<seq<Kind>>, progress: seq<nat>, i: nat)
    requires WellShaped(streams) && |progress| == |streams| && i < |streams| && progress[i] < |streams[i]|
    ensures Sum(EndMarks(streams, progress[i := progress[i] + 1]))
         == Sum(EndMarks(streams, progress)) + if streams[i][progress[i]].Ended? then 1 else 0
  {
    assert Shaped(i, streams[i]);
    var marks, next := EndMarks(streams, progress), EndMarks(streams, progress[i := progress[i] + 1]);
    assert next == marks[i := next[i]];
    SumUpdate(marks, i, next[i]);
  }

  /** Every stream that ends is one terminal event. */
  lemma {:induction false} TerminalsCounted(streams: seq<seq<Kind>>, progress: seq<nat>, schedule: seq<nat>)
    requires WellShaped(streams) && Schedules(streams, progress, schedule)
    ensures |ProgressAfter(streams, progress, schedule)| == |streams|
    ensures Sum(EndMarks(streams, ProgressAfter(streams, progress, schedule)))
         == Sum(EndMarks(streams, progress)) + |Terminals(Emitted(streams, progress, schedule))|
    decreases |schedule|
  {
    hide WellShaped, EndMarks, Sum;
    if schedule != [] {
      var i := schedule[0];
      var next := progress[i := progress[i] + 1];
      var events := Emitted(streams, progress, schedule);
      MarksNext(streams, progress, i);
      TerminalsCounted(streams, next, schedule[1..]);
      assert events[1..] == Emitted(streams, next, schedule[1..]);
    }
  }

  lemma {:induction false} SumOfOnes(w: seq<nat>)
    requires forall i :: 0 <= i < |w| ==> w[i] == 1
    ensures Sum(w) == |w|
  {
    if w != [] {
      SumOfOnes(w[..|w| - 1]);
    }
  }

  lemma AllEndedCounted(streams: seq<seq<Kind>>, schedule: seq<nat>)
    requires WellShaped(streams) && Schedules(streams, NotStarted(|streams|), schedule)
    requires AllEnded(streams, ProgressAfter(streams, NotStarted(|streams|), schedule))
    ensures |Terminals(Emitted(streams, NotStarted(|streams|), schedule))| == |streams|
  {
    hide Terminals, Emitted, Schedules, ProgressAfter;
    var start := NotStarted(|streams|);
    TerminalsCounted(streams, start, schedule);
    forall i | 0 <= i < |streams|
      ensures EndMarks(streams, start)[i] == 0
    {
      assert Shaped(i, streams[i]);
    }
    SumZero(EndMarks(streams, start));
    SumOfOnes(EndMarks(streams, ProgressAfter(streams, start, schedule)));
  }

  /** Main result: a new job whose plan is its batch, or unknown, is done once the batch is
      committed: every attempt counted, none pending. */
  lemma CommittedBatchFinishes(a: Artifacts, streams: seq<seq<Kind>>, schedule: seq<nat>, wait: nat)
    requires WellShaped(streams) && Schedules(streams, NotStarted(|streams|), schedule) && wait <= |schedule|
    requires a.baseline == None && (a.planned == None || a.planned == Some(|streams|))
    ensures var events := Emitted(streams, NotStarted(|streams|), schedule);
      var r := Recording(a, a.Attached(), events, TerminalCount(|streams|), wait);
      r.Ok? ==> r.value.total == |streams| && r.value.stats.completed == |streams| && r.value.stats.pending == 0
                && (r.value.finished <==> |streams| > 0)
  {
    hide *;
    var ts := Terminals(Emitted(streams, NotStarted(|streams|), schedule));
    FinishAllCommits(a, streams, schedule, wait);
    if AllEnded(streams, ProgressAfter(streams, NotStarted(|streams|), schedule)) {
      AllEndedCounted(streams, schedule);
      OneSessionFinishes(Session(a.planned, ts, Some(|streams|), a.disk(Results(ts), Failures(ts))));
    }
  }

  // ------------------------------------------------------------------
  // When finish commits
  // ------------------------------------------------------------------

  ghost predicate ListedEnded(streams: seq<seq<Kind>>, progress: seq<nat>, results: seq<EvalResult>) {
    |progress| == |streams|
    && forall i :: 0 <= i < |results| ==>
         results[i].attempt < |streams| && progress[results[i].attempt] == |streams[results[i].attempt]|
  }

  lemma ListedMeansEnded(streams: seq<seq<Kind>>, progress: seq<nat>, b: Book, results: seq<EvalResult>)
    requires Follows(streams, progress, b)
    ensures FinishedCount(Some(Listed(results)), b.completed).Some? <==> ListedEnded(streams, progress, results)
  {
  }

  lemma {:induction false} EndedStays(streams: seq<seq<Kind>>, progress: seq<nat>, schedule: seq<nat>,
      results: seq<EvalResult>)
    requires Schedules(streams, progress, schedule) && ListedEnded(streams, progress, results)
    ensures ListedEnded(streams, ProgressAfter(streams, progress, schedule), results)
    decreases |schedule|
  {
    if schedule != [] {
      var i := schedule[0];
      EndedStays(streams, progress[i := progress[i] + 1], schedule[1..], results);
    }
  }

  lemma {:induction false} FinishListedExact(a: Artifacts, streams: seq<seq<Kind>>, progress: seq<nat>, b: Book,
      schedule: seq<nat>, wait: nat, results: seq<EvalResult>)
    requires WellShaped(streams) && Follows(streams, progress, b) && Schedules(streams, progress, schedule)
    requires wait <= |schedule|
    ensures var r := Recording(a, b, Emitted(streams, progress, schedule), Listed(results), wait);
      && (r.Ok? <==> ListedEnded(streams, ProgressAfter(streams, progress, schedule), results))
      && (r.Err? ==> r.error == EventStreamClosed)
    decreases |schedule|
  {
    hide Follows, WellShaped, Written, Recorded, ListedEnded, FinishedCount;
    ListedMeansEnded(streams, progress, b, results);
    NotAsked(b.completed);
    ScheduleLength(streams, progress, b);
    if ListedEnded(streams, progress, results) {
      EndedStays(streams, progress, schedule, results);
    }
    if schedule != [] {
      var i := schedule[0];
      var e := Event(i, progress[i] + 1, streams[i][progress[i]]);
      EventFollows(a, streams, progress, b, i);
      var events := Emitted(streams, progress, schedule);
      assert events[0] == e && events[1..] == Emitted(streams, progress[i := progress[i] + 1], schedule[1..]);
      FinishListedExact(a, streams, progress[i := progress[i] + 1], Recorded(a, b, e).value, schedule[1..],
                        if wait == 0 then 0 else wait - 1, results);
    }
  }

  lemma NotAsked(completed: set<nat>)
    ensures FinishedCount(None, completed) == None
  {
  }

  /** `finish` with a list of results commits exactly when the terminal event of
      every listed attempt has been recorded, whatever else is still open. */
  lemma FinishListedCommits(a: Artifacts, streams: seq<seq<Kind>>, schedule: seq<nat>, wait: nat,
      results: seq<EvalResult>)
    requires WellShaped(streams) && Schedules(streams, NotStarted(|streams|), schedule) && wait <= |schedule|
    ensures var events := Emitted(streams, NotStarted(|streams|), schedule);
      var r := Recording(a, a.Attached(), events, Listed(results), wait);
      && (r.Ok? <==> ListedEnded(streams, ProgressAfter(streams, NotStarted(|streams|), schedule), results))
      && (r.Err? ==> r.error == EventStreamClosed)
  {
    hide Written, ListedEnded;
    StartFollows(a, streams);
    FinishListedExact(a, streams, NotStarted(|streams|), a.Attached(), schedule, wait, results);
  }

  // ------------------------------------------------------------------
  // A recorder stopped between events
  // ------------------------------------------------------------------

  /** The session of a recorder that is stopped after the terminal events `ts`. */
  function Stopped(a: Artifacts, ts: seq<Terminal>): Session {
    Session(a.planned, ts, None, a.disk(Results(ts), Failures(ts)))
  }

  lemma StoppedTerminals(a: Artifacts, ts: seq<Terminal>)
    ensures Stopped(a, ts).terminals == ts
  {
  }

  /** What the recorder holds, and the job on disk, are those of the events so far. */
  ghost predicate Writes(a: Artifacts, b: Book, ts: seq<Terminal>) {
    && b.results == Results(ts) && b.failures == Failures(ts)
    && b.job == AfterSession(a.baseline, Stopped(a, ts))
  }

  lemma AttachedWrites(a: Artifacts)
    ensures Writes(a, a.Attached(), [])
  {
    hide Written;
  }

  lemma EventWrites(a: Artifacts, b: Book, e: Event, ts: seq<Terminal>)
    requires Writes(a, b, ts) && Recorded(a, b, e).Ok?
    ensures Writes(a, Recorded(a, b, e).value, ts + (if e.kind.Ended? then [e.kind.terminal] else []))
  {
    hide Written, Results, Failures;
    RecordedTerminal(a, b, e, ts);
    if !e.kind.Ended? {
      assert ts + [] == ts;
    }
  }

  function BookAfter(a: Artifacts, b: Book, events: seq<Event>): Result<Book, RecorderError>
    decreases |events|
  {
    if events == [] then Ok(b)
    else
      match Recorded(a, b, events[0])
      case Err(error) => Err(error)
      case Ok(next) => BookAfter(a, next, events[1..])
  }

  lemma {:induction false} BookNext(a: Artifacts, b: Book, events: seq<Event>)
    requires events != []
    ensures BookAfter(a, b, events)
         == match BookAfter(a, b, events[..|events| - 1])
            case Err(error) => Err(error)
            case Ok(next) => Recorded(a, next, events[|events| - 1])
    decreases |events|
  {
    hide Recorded;
    if |events| > 1 && Recorded(a, b, events[0]).Ok? {
      BookNext(a, Recorded(a, b, events[0]).value, events[1..]);
      assert events[1..][..|events| - 2] == events[..|events| - 1][1..];
    }
  }

  /** An attempt is open from its start to its terminal event. */
  ghost predicate OpenAfter(events: seq<Event>, attempt: nat) {
    exists j :: 0 <= j < |events| && events[j].attempt == attempt && events[j].kind.Started?
      && forall k :: j < k < |events| && events[k].attempt == attempt ==> !events[k].kind.Ended?
  }

  lemma OpenNext(events: seq<Event>, e: Event, attempt: nat)
    ensures OpenAfter(events + [e], attempt) <==>
      if e.attempt == attempt && e.kind.Started? then true
      else OpenAfter(events, attempt) && !(e.attempt == attempt && e.kind.Ended?)
  {
    var longer := events + [e];
    assert longer[|events|] == e && forall k :: 0 <= k < |events| ==> longer[k] == events[k];
    if e.attempt == attempt && e.kind.Started? {
      assert OpenAfter(longer, attempt);
    } else if OpenAfter(events, attempt) && !(e.attempt == attempt && e.kind.Ended?) {
      var j :| 0 <= j < |events| && events[j].attempt == attempt && events[j].kind.Started?
        && forall k :: j < k < |events| && events[k].attempt == attempt ==> !events[k].kind.Ended?;
      assert longer[j] == events[j];
    }
  }

  /** The event at `i` may come after those before it. */
  ghost predicate InPlace(events: seq<Event>, i: nat)
    requires i < |events|
  {
    var open := OpenAfter(events[..i], events[i].attempt);
    match events[i].kind
    case Started => !open
    case Agent => open
    case Ended(Completed(_)) => open
    case _ => true
  }

  function ErrorAt(e: Event): RecorderError {
    if e.kind.Started? then DuplicateAttempt(e.attempt) else MissingAttempt(e.attempt)
  }

  lemma {:induction false} OpenIsOpen(a: Artifacts, events: seq<Event>, attempt: nat)
    requires BookAfter(a, a.Attached(), events).Ok?
    ensures attempt in BookAfter(a, a.Attached(), events).value.open <==> OpenAfter(events, attempt)
  {
    hide Written, OpenAfter;
    if events == [] {
      assert !OpenAfter([], attempt) by {
        NothingOpen(attempt);
      }
    } else {
      var init, last := events[..|events| - 1], events[|events| - 1];
      BookNext(a, a.Attached(), events);
      OpenIsOpen(a, init, attempt);
      OpenNext(init, last, attempt);
      assert init + [last] == events;
    }
  }

  lemma NothingOpen(attempt: nat)
    ensures !OpenAfter([], attempt)
  {
  }

  lemma LastInPlace(a: Artifacts, events: seq<Event>, b: Book)
    requires events != [] && BookAfter(a, a.Attached(), events[..|events| - 1]) == Ok(b)
    ensures var e := events[|events| - 1];
      && (Recorded(a, b, e).Ok? <==> InPlace(events, |events| - 1))
      && (Recorded(a, b, e).Err? ==> Recorded(a, b, e).error == ErrorAt(e))
  {
    hide Written, OpenAfter, BookAfter;
    OpenIsOpen(a, events[..|events| - 1], events[|events| - 1].attempt);
  }

  lemma PlacesKept(events: seq<Event>, i: nat, n: nat)
    requires i < n <= |events|
    ensures InPlace(events[..n], i) <==> InPlace(events, i)
  {
    assert events[..n][..i] == events[..i];
  }

  /** Main result: whatever events arrive, the recorder takes them all exactly when each is
      in place, and otherwise fails with the error of the first that is not. */
  lemma {:induction false} RefusesFirst(a: Artifacts, events: seq<Event>)
    ensures var after := BookAfter(a, a.Attached(), events);
      && (after.Ok? <==> forall i :: 0 <= i < |events| ==> InPlace(events, i))
      && (after.Err? ==> exists i :: 0 <= i < |events| && !InPlace(events, i) && after.error == ErrorAt(events[i])
                                     && forall j :: 0 <= j < i ==> InPlace(events, j))
  {
    hide Written, Recorded, InPlace, ErrorAt;
    if events != [] {
      var n := |events| - 1;
      var before := BookAfter(a, a.Attached(), events[..n]);
      RefusesFirst(a, events[..n]);
      BookNext(a, a.Attached(), events);
      forall i | 0 <= i < n
        ensures InPlace(events[..n], i) <==> InPlace(events, i)
      {
        PlacesKept(events, i, n);
      }
      if before.Ok? {
        LastInPlace(a, events, before.value);
      } else {
        var i :| 0 <= i < n && !InPlace(events[..n], i) && before.error == ErrorAt(events[..n][i])
          && forall j :: 0 <= j < i ==> InPlace(events[..n], j);
        assert !InPlace(events, i) && events[..n][i] == events[i];
      }
    }
  }

  lemma {:induction false} ScheduleWrites(a: Artifacts, streams: seq<seq<Kind>>, progress: seq<nat>, b: Book,
      schedule: seq<nat>, before: seq<Terminal>)
    requires WellShaped(streams) && Follows(streams, progress, b) && Schedules(streams, progress, schedule)
    requires Writes(a, b, before)
    ensures var events := Emitted(streams, progress, schedule);
      && BookAfter(a, b, events).Ok?
      && Writes(a, BookAfter(a, b, events).value, before + Terminals(events))
    decreases |schedule|
  {
    hide Follows, WellShaped, Writes, Recorded, Written;
    var events := Emitted(streams, progress, schedule);
    if schedule == [] {
      assert before + Terminals(events) == before;
    } else {
      var i := schedule[0];
      var e := Event(i, progress[i] + 1, streams[i][progress[i]]);
      ScheduleLength(streams, progress, b);
      EventFollows(a, streams, progress, b, i);
      EventWrites(a, b, e, before);
      assert events[0] == e && events[1..] == Emitted(streams, progress[i := progress[i] + 1], schedule[1..]);
      var more := if e.kind.Ended? then [e.kind.terminal] else [];
      ScheduleWrites(a, streams, progress[i := progress[i] + 1], Recorded(a, b, e).value, schedule[1..], before + more);
      assert before + Terminals(events) == (before + more) + Terminals(events[1..]);
    }
  }

  /** After any part of any interleaving the job on disk is that of a session stopped there. */
  lemma StoppedAnywhere(a: Artifacts, streams: seq<seq<Kind>>, schedule: seq<nat>)
    requires WellShaped(streams) && Schedules(streams, NotStarted(|streams|), schedule)
    ensures var events := Emitted(streams, NotStarted(|streams|), schedule);
      var after := BookAfter(a, a.Attached(), events);
      after.Ok? && after.value.job == AfterSession(a.baseline, Stopped(a, Terminals(events)))
  {
    hide Written, WellShaped;
    StartFollows(a, streams);
    AttachedWrites(a);
    ScheduleWrites(a, streams, NotStarted(|streams|), a.Attached(), schedule, []);
    var events := Emitted(streams, NotStarted(|streams|), schedule);
    assert [] + Terminals(events) == Terminals(events);
  }

  /** Main result: wherever between events a recorder stops, after any earlier
      sessions, the job it leaves on disk counts all their terminal events and its
      own exactly once. */
  lemma RecordedJobConserved(sessions: seq<Session>, a: Artifacts, streams: seq<seq<Kind>>, schedule: seq<nat>)
    requires a.baseline == AfterSessions(sessions)
    requires WellShaped(streams) && Schedules(streams, NotStarted(|streams|), schedule)
    ensures var events := Emitted(streams, NotStarted(|streams|), schedule);
      var after := BookAfter(a, a.Attached(), events);
      after.Ok? && Books(after.value.job, AllTerminals(sessions) + Terminals(events))
  {
    hide *;
    var ts := Terminals(Emitted(streams, NotStarted(|streams|), schedule));
    StoppedAnywhere(a, streams, schedule);
    OneMoreSession(sessions, Stopped(a, ts));
    assert Stopped(a, ts).terminals == ts by {
      StoppedTerminals(a, ts);
    }
  }

  // ------------------------------------------------------------------
  // The models recorded
  // ------------------------------------------------------------------

  lemma {:induction false} EmittedStamped(stamp: string, streams: seq<seq<Kind>>, progress: seq<nat>,
      schedule: seq<nat>)
    requires forall i :: 0 <= i < |streams| ==> FailuresStamped(stamp, streams[i])
    requires Schedules(streams, progress, schedule)
    ensures Stamped(Terminals(Emitted(streams, progress, schedule)), stamp)
    decreases |schedule|
  {
    if schedule != [] {
      var i := schedule[0];
      EmittedStamped(stamp, streams, progress[i := progress[i] + 1], schedule[1..]);
      var events := Emitted(streams, progress, schedule);
      assert events[1..] == Emitted(streams, progress[i := progress[i] + 1], schedule[1..]);
      assert FailuresStamped(stamp, streams[i]);
    }
  }

  /** Main result: for every interleaving, rebuilding the job is adding its events
      one by one exactly when the recorded results report one model and, if an
      attempt failed, that model is the one failures are stamped with. */
  lemma RecordedRebuildExactly(stamp: string, s: Stats, streams: seq<seq<Kind>>, schedule: seq<nat>)
    requires forall i :: 0 <= i < |streams| ==> FailuresStamped(stamp, streams[i])
    requires Schedules(streams, NotStarted(|streams|), schedule)
    ensures var ts := Terminals(Emitted(streams, NotStarted(|streams|), schedule));
      SameBooks(Applied(DeltaOfAll(ts), s), OneByOne(s, ts)) <==> ResultsAgree(ts, stamp)
  {
    hide FailuresStamped, SameBooks, Applied, DeltaOfAll, OneByOne, ResultsAgree;
    EmittedStamped(stamp, streams, NotStarted(|streams|), schedule);
    RebuildExactly(s, Terminals(Emitted(streams, NotStarted(|streams|), schedule)), stamp);
  }

  // ------------------------------------------------------------------
  // Attempts and the recorder together
  // ------------------------------------------------------------------

  /** What a batch emits: the stream of each attempt's outcome, by attempt. */
  function Streams(stamp: string, outcomes: seq<Outcome>): seq<seq<Kind>> {
    seq(|outcomes|, i requires 0 <= i < |outcomes| => Stream(stamp, i, outcomes[i]))
  }

  lemma StreamsShaped(stamp: string, outcomes: seq<Outcome>)
    ensures WellShaped(Streams(stamp, outcomes))
    ensures forall i :: 0 <= i < |outcomes| ==> FailuresStamped(stamp, Streams(stamp, outcomes)[i])
  {
    hide Shaped, FailuresStamped, Stream;
    forall i | 0 <= i < |outcomes|
      ensures Shaped(i, Stream(stamp, i, outcomes[i])) && FailuresStamped(stamp, Stream(stamp, i, outcomes[i]))
    {
      StreamShaped(stamp, i, outcomes[i]);
    }
  }

  /** Main result: however the attempts of a batch go and however their events
      interleave, the recorder meets no unknown or repeated attempt; `finish_all` and
      `finish` commit exactly when the attempts they wait for have ended; and wherever it
      stops, its job counts the terminal events of earlier sessions and its own exactly
      once. */
  lemma BatchRecorded(stamp: string, sessions: seq<Session>, a: Artifacts, outcomes: seq<Outcome>,
      schedule: seq<nat>, request: FinishRequest, wait: nat)
    requires a.baseline == AfterSessions(sessions)
    requires Schedules(Streams(stamp, outcomes), NotStarted(|outcomes|), schedule) && wait <= |schedule|
    ensures var streams := Streams(stamp, outcomes);
      var events := Emitted(streams, NotStarted(|outcomes|), schedule);
      var ended := ProgressAfter(streams, NotStarted(|outcomes|), schedule);
      var r := Recording(a, a.Attached(), events, request, wait);
      && (r.Err? ==> r.error == EventStreamClosed)
      && (request == TerminalCount(|outcomes|) ==> (r.Ok? <==> AllEnded(streams, ended)))
      && (request.Listed? ==> (r.Ok? <==> ListedEnded(streams, ended, request.results)))
      && BookAfter(a, a.Attached(), events).Ok?
      && Books(BookAfter(a, a.Attached(), events).value.job, AllTerminals(sessions) + Terminals(events))
  {
    hide *;
    var streams := Streams(stamp, outcomes);
    assert |streams| == |outcomes| by {
      StreamPerOutcome(stamp, outcomes);
    }
    StreamsShaped(stamp, outcomes);
    RecorderNeverConfused(a, streams, schedule, request, wait);
    RecordedJobConserved(sessions, a, streams, schedule);
    if request == TerminalCount(|outcomes|) {
      FinishAllCommits(a, streams, schedule, wait);
    }
    if request.Listed? {
      FinishListedCommits(a, streams, schedule, wait, request.results);
    }
  }

  lemma StreamPerOutcome(stamp: string, outcomes: seq<Outcome>)
    ensures |Streams(stamp, outcomes)| == |outcomes|
  {
  }

  /** And rebuilding its job is adding the batch's events one by one exactly when the
      recorded results report one model, the stamp if an attempt failed. */
  lemma BatchRebuildExactly(stamp: string, s: Stats, outcomes: seq<Outcome>, schedule: seq<nat>)
    requires Schedules(Streams(stamp, outcomes), NotStarted(|outcomes|), schedule)
    ensures var ts := Terminals(Emitted(Streams(stamp, outcomes), NotStarted(|outcomes|), schedule));
      SameBooks(Applied(DeltaOfAll(ts), s), OneByOne(s, ts)) <==> ResultsAgree(ts, stamp)
  {
    hide *;
    StreamPerOutcome(stamp, outcomes);
    StreamsShaped(stamp, outcomes);
    RecordedRebuildExactly(stamp, s, Streams(stamp, outcomes), schedule);
  }
}
