/** The two-resource admission controller and the bounded-window executor that
    runs attempts through it, as a protocol over interleaved steps.
    The wake-up contract is Tokio's: `notify_waiters` fires every `Notified`
    handle created before the call, whether or not it was polled. */
module Admission {
  import opened Common

  datatype Limits = Limits(maxConcurrency: nat, maxMemoryMb: Option<nat>) {
    /** What `NanoevalBuilder::build` accepts. */
    predicate Valid() {
      && 0 < maxConcurrency < U64
      && (maxMemoryMb.Some? ==> 0 < maxMemoryMb.value < U64)
    }
  }

  datatype Counters = Counters(running: nat, memoryMb: nat)

  /** The memory charged for a request: capped at the ceiling, nothing without one. */
  function Charge(limits: Limits, requestedMb: nat): nat {
    match limits.maxMemoryMb
    case None => 0
    case Some(limit) => Min(requestedMb, limit)
  }

  /** The two conditions tested under the lock; the sum is a `checked_add`. */
  predicate Fits(limits: Limits, c: Counters, memoryMb: nat) {
    && c.running < limits.maxConcurrency
    && (limits.maxMemoryMb.Some? ==>
          c.memoryMb + memoryMb < U64 && c.memoryMb + memoryMb <= limits.maxMemoryMb.value)
  }

  function Admitted(c: Counters, memoryMb: nat): Counters {
    Counters(c.running + 1, c.memoryMb + memoryMb)
  }

  function SaturatingSub(a: nat, b: nat): nat {
    if a < b then 0 else a - b
  }

  function Released(c: Counters, memoryMb: nat): Counters {
    Counters(SaturatingSub(c.running, 1), SaturatingSub(c.memoryMb, memoryMb))
  }

  /** The state behind the mutex, with its two critical sections. */
  class AdmissionController {
    const limits: Limits
    var running: nat
    var memoryMb: nat

    function Counts(): Counters
      reads this
    {
      Counters(running, memoryMb)
    }

    constructor (limits: Limits)
      ensures this.limits == limits && Counts() == Counters(0, 0)
    {
      this.limits := limits;
      running, memoryMb := 0, 0;
    }

    /** One pass of the loop in `acquire`, from taking the lock to dropping it. */
    method TryAcquire(requestedMb: nat) returns (admitted: bool)
      modifies this
      ensures admitted == old(Fits(limits, Counts(), Charge(limits, requestedMb)))
      ensures Counts() == if admitted then Admitted(old(Counts()), Charge(limits, requestedMb))
                          else old(Counts())
      ensures limits.Valid() ==>
        (admitted <==> old(running) < limits.maxConcurrency
                       && (limits.maxMemoryMb.Some? ==>
                             old(memoryMb) + Min(requestedMb, limits.maxMemoryMb.value) <= limits.maxMemoryMb.value))
      ensures running == old(running) + if admitted then 1 else 0
      ensures memoryMb == old(memoryMb) + if admitted && limits.maxMemoryMb.Some?
                                          then Min(requestedMb, limits.maxMemoryMb.value) else 0
    {
      var memory := if limits.maxMemoryMb.None? then 0 else Min(requestedMb, limits.maxMemoryMb.value);
      var concurrencyAvailable := running < limits.maxConcurrency;
      var memoryAvailable := true;
      if limits.maxMemoryMb.Some? {
        memoryAvailable := memoryMb + memory < U64 && memoryMb + memory <= limits.maxMemoryMb.value;
      }
      admitted := concurrencyAvailable && memoryAvailable;
      if admitted {
        running := running + 1;
        memoryMb := memoryMb + memory;
      }
    }

    /** The critical section of dropping a permit. */
    method DropPermit(memory: nat)
      modifies this
      ensures Counts() == Released(old(Counts()), memory)
    {
      running := if running < 1 then 0 else running - 1;
      memoryMb := if memoryMb < memory then 0 else memoryMb - memory;
    }
  }

  // ------------------------------------------------------------------
  // The protocol
  // ------------------------------------------------------------------

  /** Where one attempt stands.
      Queued: its future has not been polled, it is outside the window.
      Ready: about to create a `Notified` handle.
      Armed: handle created, lock not yet taken.
      Waiting: the check failed; the handle is being awaited.
      Running: holds a permit.
      Releasing: the permit's drop has updated the counters but not yet notified. */
  datatype Phase =
    | Queued
    | Ready
    | Armed(fired: bool)
    | Waiting(fired: bool)
    | Running
    | Releasing(completed: bool)
    | Done
    | Abandoned

  /** The attempts of any number of `run_tasks` calls sharing one evaluator:
      `requests[i]` is the memory attempt `i` declares, `batch[i]` the call it is from. */
  datatype Config = Config(limits: Limits, requests: seq<nat>, batch: seq<nat>) {
    predicate Valid() {
      limits.Valid() && |requests| == |batch| < U64
    }

    function Size(): nat {
      |requests|
    }

    function Cost(i: nat): nat
      requires i < |requests|
    {
      Charge(limits, requests[i])
    }

    function Members(b: nat): set<nat> {
      set i: nat | i < |batch| && batch[i] == b
    }

    /** The scheduling window of one call, with the saturating product. */
    function Window(b: nat): nat {
      Max(1, Min(|Members(b)|, Min(limits.maxConcurrency * 4, U64 - 1)))
    }
  }

  datatype System = System(phases: seq<Phase>, counters: Counters, finished: seq<nat>)

  datatype Step =
    | Start(i: nat)
    | Arm(i: nat)
    | Check(i: nat)
    | Wake(i: nat)
    | Release(i: nat)
    | Notify(i: nat)
    | Abandon(i: nat)

  predicate InFlight(p: Phase) {
    !p.Queued? && !p.Done? && !p.Abandoned?
  }

  predicate Settled(p: Phase) {
    p.Done? || p.Abandoned?
  }

  function FlightSet(c: Config, phases: seq<Phase>, b: nat): set<nat>
    requires |phases| == |c.batch|
  {
    set i: nat | i < |phases| && c.batch[i] == b && InFlight(phases[i])
  }

  /** `buffer_unordered` polls the next input of a call only while fewer than
      `Window` of its futures are unfinished, and takes inputs in order. */
  predicate CanStart(c: Config, s: System, i: nat)
    requires c.Valid() && |s.phases| == c.Size()
  {
    && i < c.Size()
    && s.phases[i].Queued?
    && |FlightSet(c, s.phases, c.batch[i])| < c.Window(c.batch[i])
    && forall j: nat :: j < i && c.batch[j] == c.batch[i] ==> !s.phases[j].Queued?
  }

  predicate Enabled(c: Config, s: System, step: Step)
    requires c.Valid() && |s.phases| == c.Size()
  {
    && step.i < c.Size()
    && var p := s.phases[step.i];
       match step
       case Start(i) => CanStart(c, s, i)
       case Arm(_) => p.Ready?
       case Check(_) => p.Armed?
       case Wake(_) => p == Waiting(true)
       case Release(_) => p.Running?
       case Notify(_) => p.Releasing?
       case Abandon(_) => !Settled(p) && !p.Releasing?
  }

  function Fire(p: Phase): Phase {
    match p
    case Armed(_) => Armed(true)
    case Waiting(_) => Waiting(true)
    case _ => p
  }

  function FireAll(phases: seq<Phase>): (r: seq<Phase>)
    ensures |r| == |phases|
    ensures forall i :: 0 <= i < |r| ==> r[i] == Fire(phases[i])
  {
    seq(|phases|, i requires 0 <= i < |phases| => Fire(phases[i]))
  }

  function To(s: System, i: nat, p: Phase): System
    requires i < |s.phases|
  {
    s.(phases := s.phases[i := p])
  }

  function Apply(c: Config, s: System, step: Step): (s': System)
    requires c.Valid() && |s.phases| == c.Size() && Enabled(c, s, step)
    ensures |s'.phases| == |s.phases|
  {
    var i := step.i;
    match step
    case Start(_) => To(s, i, Ready)
    case Arm(_) => To(s, i, Armed(false))
    case Check(_) =>
      if Fits(c.limits, s.counters, c.Cost(i))
      then To(s, i, Running).(counters := Admitted(s.counters, c.Cost(i)))
      else To(s, i, Waiting(s.phases[i].fired))
    case Wake(_) => To(s, i, Ready)
    case Release(_) => To(s, i, Releasing(true)).(counters := Released(s.counters, c.Cost(i)))
    case Notify(_) =>
      var completed := s.phases[i].completed;
      System(FireAll(s.phases)[i := if completed then Done else Abandoned],
             s.counters,
             if completed then s.finished + [i] else s.finished)
    case Abandon(_) =>
      if s.phases[i].Running?
      then To(s, i, Releasing(false)).(counters := Released(s.counters, c.Cost(i)))
      else To(s, i, Abandoned)
  }

  function Initial(c: Config): System {
    System(seq(c.Size(), _ => Queued), Counters(0, 0), [])
  }

  // ------------------------------------------------------------------
  // Invariant
  // ------------------------------------------------------------------

  function PermitMarks(phases: seq<Phase>): (r: seq<nat>)
    ensures |r| == |phases|
  {
    seq(|phases|, i requires 0 <= i < |phases| => if phases[i].Running? then 1 else 0)
  }

  function PermitCosts(c: Config, phases: seq<Phase>): (r: seq<nat>)
    requires |phases| == c.Size()
    ensures |r| == |phases|
  {
    seq(|phases|, i requires 0 <= i < |phases| => if phases[i].Running? then c.Cost(i) else 0)
  }

  /** What the live permits hold, counted from the attempts themselves. */
  function Held(c: Config, phases: seq<Phase>): Counters
    requires |phases| == c.Size()
  {
    Counters(Sum(PermitMarks(phases)), Sum(PermitCosts(c, phases)))
  }

  predicate WithinLimits(limits: Limits, c: Counters) {
    && c.running <= limits.maxConcurrency
    && (limits.maxMemoryMb.Some? ==> c.memoryMb <= limits.maxMemoryMb.value)
  }

  /** A waiter nobody has woken either cannot run now, or some permit already
      dropped still owes its notification. */
  predicate NoLostWakeup(c: Config, s: System)
    requires |s.phases| == c.Size()
  {
    forall i: nat :: i < c.Size() && s.phases[i] == Waiting(false) ==>
      !Fits(c.limits, s.counters, c.Cost(i)) || exists j: nat :: j < c.Size() && s.phases[j].Releasing?
  }

  ghost predicate Windowed(c: Config, s: System)
    requires |s.phases| == c.Size() == |c.batch|
  {
    forall b: nat :: |FlightSet(c, s.phases, b)| <= c.Window(b)
  }

  /** The completion log lists each finished attempt once and nothing else. */
  ghost predicate LogExact(s: System) {
    && (forall x, y :: 0 <= x < y < |s.finished| ==> s.finished[x] != s.finished[y])
    && (forall i: nat :: i in s.finished <==> i < |s.phases| && s.phases[i].Done?)
  }

  ghost predicate Inv(c: Config, s: System)
    requires c.Valid()
  {
    && |s.phases| == c.Size()
    && s.counters == Held(c, s.phases)
    && WithinLimits(c.limits, s.counters)
    && NoLostWakeup(c, s)
    && Windowed(c, s)
    && LogExact(s)
  }

  lemma HeldAfter(c: Config, phases: seq<Phase>, i: nat, p: Phase)
    requires |phases| == c.Size() && i < |phases|
    ensures var a, b := Held(c, phases), Held(c, phases[i := p]);
            && b.running + (if phases[i].Running? then 1 else 0) == a.running + (if p.Running? then 1 else 0)
            && b.memoryMb + (if phases[i].Running? then c.Cost(i) else 0)
               == a.memoryMb + (if p.Running? then c.Cost(i) else 0)
            && (phases[i].Running? ==> a.running >= 1 && a.memoryMb >= c.Cost(i))
  {
    var one, cost := if p.Running? then 1 else 0, if p.Running? then c.Cost(i) else 0;
    assert PermitMarks(phases[i := p]) == PermitMarks(phases)[i := one];
    assert PermitCosts(c, phases[i := p]) == PermitCosts(c, phases)[i := cost];
    SumUpdate(PermitMarks(phases), i, one);
    SumUpdate(PermitCosts(c, phases), i, cost);
  }

  lemma HeldFireAll(c: Config, phases: seq<Phase>)
    requires |phases| == c.Size()
    ensures Held(c, FireAll(phases)) == Held(c, phases)
  {
    assert PermitMarks(FireAll(phases)) == PermitMarks(phases);
    assert PermitCosts(c, FireAll(phases)) == PermitCosts(c, phases);
  }

  lemma FlightAfter(c: Config, phases: seq<Phase>, i: nat, p: Phase)
    requires |phases| == |c.batch| && i < |phases|
    ensures forall b: nat ::
      FlightSet(c, phases[i := p], b) ==
      if b != c.batch[i] then FlightSet(c, phases, b)
      else if InFlight(p) then FlightSet(c, phases, b) + {i} else FlightSet(c, phases, b) - {i}
  {
  }

  lemma FlightFireAll(c: Config, phases: seq<Phase>)
    requires |phases| == |c.batch|
    ensures forall b: nat :: FlightSet(c, FireAll(phases), b) == FlightSet(c, phases, b)
  {
  }

  lemma InitialInv(c: Config)
    requires c.Valid()
    ensures Inv(c, Initial(c))
  {
    var s := Initial(c);
    SumZero(PermitMarks(s.phases));
    SumZero(PermitCosts(c, s.phases));
    assert forall b: nat :: FlightSet(c, s.phases, b) == {};
  }

  lemma CardinalityAfter(c: Config, s: System, i: nat, p: Phase)
    requires c.Valid() && |s.phases| == c.Size() && i < c.Size()
    requires Windowed(c, s)
    requires InFlight(p) && !InFlight(s.phases[i]) ==>
      |FlightSet(c, s.phases, c.batch[i])| < c.Window(c.batch[i])
    ensures Windowed(c, To(s, i, p))
  {
    FlightAfter(c, s.phases, i, p);
    forall b: nat
      ensures |FlightSet(c, s.phases[i := p], b)| <= c.Window(b)
    {
      var before := FlightSet(c, s.phases, b);
      assert |before| <= c.Window(b);
      if b == c.batch[i] {
        if InFlight(p) && InFlight(s.phases[i]) {
          assert before + {i} == before;
        } else if !InFlight(p) {
          SubsetSize(before - {i}, before);
        }
      }
    }
  }

  /** The steps that neither notify nor finish an attempt. */
  lemma LocalStepKeepsInv(c: Config, s: System, step: Step)
    requires c.Valid() && Inv(c, s) && Enabled(c, s, step)
    requires !step.Notify?
    ensures Inv(c, Apply(c, s, step))
  {
    var i := step.i;
    var s' := Apply(c, s, step);
    var p := s'.phases[i];
    assert s'.phases == s.phases[i := p];
    HeldAfter(c, s.phases, i, p);
    CardinalityAfter(c, s, i, p);
    assert Windowed(c, s') by {
      assert Windowed(c, To(s, i, p));
    }
    forall k: nat | k < c.Size() && s'.phases[k] == Waiting(false)
      ensures !Fits(c.limits, s'.counters, c.Cost(k)) || exists j: nat :: j < c.Size() && s'.phases[j].Releasing?
    {
      if s'.counters.running < s.counters.running {
        assert s'.phases[i].Releasing?;
      } else if k != i {
        if j: nat :| j < c.Size() && s.phases[j].Releasing? {
          assert s'.phases[j].Releasing?;
        }
      }
    }
  }

  lemma NotifyKeepsInv(c: Config, s: System, i: nat)
    requires c.Valid() && Inv(c, s) && Enabled(c, s, Notify(i))
    ensures Inv(c, Apply(c, s, Notify(i)))
  {
    var s' := Apply(c, s, Notify(i));
    var p := s'.phases[i];
    var fired := s.(phases := FireAll(s.phases));
    HeldFireAll(c, s.phases);
    HeldAfter(c, fired.phases, i, p);
    FlightFireAll(c, s.phases);
    assert Windowed(c, fired);
    CardinalityAfter(c, fired, i, p);
    assert Windowed(c, s') by {
      assert Windowed(c, To(fired, i, p));
    }
  }

  /** One step of any attempt keeps the counters exact and within the limits,
      loses no wake-up, and stays inside every call's window. */
  lemma StepKeepsInv(c: Config, s: System, step: Step)
    requires c.Valid() && Inv(c, s) && Enabled(c, s, step)
    ensures Inv(c, Apply(c, s, step))
  {
    if step.Notify? {
      NotifyKeepsInv(c, s, step.i);
    } else {
      LocalStepKeepsInv(c, s, step);
    }
  }

  // ------------------------------------------------------------------
  // Runs
  // ------------------------------------------------------------------

  /** `steps` is an interleaving that leads from `s` to `s'`. */
  ghost predicate IsRun(c: Config, s: System, steps: seq<Step>, s': System)
    requires c.Valid() && |s.phases| == c.Size()
    decreases |steps|
  {
    if steps == [] then s' == s
    else Enabled(c, s, steps[0]) && IsRun(c, Apply(c, s, steps[0]), steps[1..], s')
  }

  lemma {:induction false} RunKeepsInv(c: Config, s: System, steps: seq<Step>, s': System)
    requires c.Valid() && Inv(c, s) && IsRun(c, s, steps, s')
    ensures Inv(c, s')
    decreases |steps|
  {
    if steps != [] {
      StepKeepsInv(c, s, steps[0]);
      RunKeepsInv(c, Apply(c, s, steps[0]), steps[1..], s');
    }
  }

  /** Admission safety, in every state any interleaving reaches: the counters are those
      of the live permits, within both limits, and no drop saturates; and a waiter
      nobody has woken cannot run or is owed a notification. */
  lemma AdmissionSafety(c: Config, steps: seq<Step>, s: System)
    requires c.Valid() && IsRun(c, Initial(c), steps, s)
    ensures |s.phases| == c.Size() && NoLostWakeup(c, s)
    ensures s.counters == Held(c, s.phases) && WithinLimits(c.limits, s.counters)
    ensures forall i: nat :: i < c.Size() && s.phases[i].Running? ==>
      Admitted(Released(s.counters, c.Cost(i)), c.Cost(i)) == s.counters
  {
    InitialInv(c);
    RunKeepsInv(c, Initial(c), steps, s);
    forall i: nat | i < c.Size() && s.phases[i].Running?
      ensures s.counters.running >= 1 && s.counters.memoryMb >= c.Cost(i)
    {
      HeldAfter(c, s.phases, i, Done);
    }
  }

  /** With no live permit every attempt fits, whatever it declared. */
  lemma IdleFitsAll(c: Config, s: System, i: nat)
    requires c.Valid() && Inv(c, s) && i < c.Size()
    requires forall j :: 0 <= j < c.Size() ==> !s.phases[j].Running?
    ensures s.counters == Counters(0, 0) && Fits(c.limits, s.counters, c.Cost(i))
  {
    SumZero(PermitMarks(s.phases));
    SumZero(PermitCosts(c, s.phases));
  }

  /** Two attempts running at once: each leaves room for the other. */
  lemma PairWithinLimit(c: Config, phases: seq<Phase>, i: nat, j: nat)
    requires |phases| == c.Size() && i < j < c.Size()
    requires phases[i].Running? && phases[j].Running?
    ensures c.Cost(i) + c.Cost(j) <= Held(c, phases).memoryMb
  {
    HeldAfter(c, phases, j, Done);
    HeldAfter(c, phases[j := Done], i, Done);
  }

  /** A task declaring at least the ceiling runs alone, since declared memory is positive. */
  lemma CeilingRunsAlone(c: Config, steps: seq<Step>, s: System, i: nat, j: nat)
    requires c.Valid() && IsRun(c, Initial(c), steps, s)
    requires c.limits.maxMemoryMb.Some? && forall k :: 0 <= k < c.Size() ==> c.requests[k] > 0
    requires i < c.Size() && j < c.Size() && |s.phases| == c.Size()
    requires c.requests[i] >= c.limits.maxMemoryMb.value
    requires s.phases[i].Running? && s.phases[j].Running?
    ensures i == j
  {
    AdmissionSafety(c, steps, s);
    if i < j {
      PairWithinLimit(c, s.phases, i, j);
    } else if j < i {
      PairWithinLimit(c, s.phases, j, i);
    }
  }

  // ------------------------------------------------------------------
  // Termination and deadlock freedom
  // ------------------------------------------------------------------

  /** What an attempt can still do before some permit notifies. */
  function Weight(p: Phase): nat {
    match p
    case Queued => 8
    case Armed(true) => 7
    case Waiting(true) => 6
    case Ready => 5
    case Armed(false) => 4
    case Waiting(false) => 3
    case Running => 2
    case Releasing(_) => 1
    case Done => 0
    case Abandoned => 0
  }

  function Weights(phases: seq<Phase>): (r: seq<nat>)
    ensures |r| == |phases|
  {
    seq(|phases|, i requires 0 <= i < |phases| => Weight(phases[i]))
  }

  function OpenMarks(phases: seq<Phase>): (r: seq<nat>)
    ensures |r| == |phases|
  {
    seq(|phases|, i requires 0 <= i < |phases| => if Settled(phases[i]) then 0 else 1)
  }

  /** Settling an attempt outweighs every wake-up its notification can cause. */
  function Measure(phases: seq<Phase>): nat {
    (8 * |phases| + 1) * Sum(OpenMarks(phases)) + Sum(Weights(phases))
  }

  lemma MeasureLocal(phases: seq<Phase>, i: nat, p: Phase)
    requires i < |phases|
    requires Settled(phases[i]) == Settled(p) && Weight(p) < Weight(phases[i])
    ensures Measure(phases[i := p]) < Measure(phases)
  {
    assert Weights(phases[i := p]) == Weights(phases)[i := Weight(p)];
    assert OpenMarks(phases[i := p]) == OpenMarks(phases);
    SumUpdate(Weights(phases), i, Weight(p));
  }

  lemma MeasureSettle(phases: seq<Phase>, after: seq<Phase>, i: nat)
    requires i < |phases| == |after|
    requires !Settled(phases[i]) && Settled(after[i])
    requires forall j :: 0 <= j < |phases| && j != i ==> Settled(after[j]) == Settled(phases[j])
    ensures Measure(after) < Measure(phases)
  {
    assert OpenMarks(after) == OpenMarks(phases)[i := 0];
    SumUpdate(OpenMarks(phases), i, 0);
    SumBound(Weights(after), 8);
    var n, open := |phases|, Sum(OpenMarks(after));
    assert (8 * n + 1) * (open + 1) == (8 * n + 1) * open + (8 * n + 1);
  }

  lemma StepDecreases(c: Config, s: System, step: Step)
    requires c.Valid() && |s.phases| == c.Size() && Enabled(c, s, step)
    ensures Measure(Apply(c, s, step).phases) < Measure(s.phases)
  {
    var i := step.i;
    var s' := Apply(c, s, step);
    if Settled(s'.phases[i]) {
      MeasureSettle(s.phases, s'.phases, i);
    } else {
      assert s'.phases == s.phases[i := s'.phases[i]];
      MeasureLocal(s.phases, i, s'.phases[i]);
    }
  }

  lemma {:induction false} RunShorterThanMeasure(c: Config, s: System, steps: seq<Step>, s': System)
    requires c.Valid() && |s.phases| == c.Size() && IsRun(c, s, steps, s')
    ensures |s'.phases| == c.Size()
    ensures |steps| + Measure(s'.phases) <= Measure(s.phases)
    decreases |steps|
  {
    if steps != [] {
      StepDecreases(c, s, steps[0]);
      RunShorterThanMeasure(c, Apply(c, s, steps[0]), steps[1..], s');
    }
  }

  /** No interleaving is infinite: wake-ups cannot be traded back and forth. */
  lemma RunsAreBounded(c: Config, steps: seq<Step>, s: System)
    requires c.Valid() && IsRun(c, Initial(c), steps, s)
    ensures |steps| <= (8 * c.Size() + 1) * c.Size() + 8 * c.Size()
  {
    var start := Initial(c).phases;
    RunShorterThanMeasure(c, Initial(c), steps, s);
    SumBound(Weights(start), 8);
    SumBound(OpenMarks(start), 1);
    ScaleMonotone(8 * c.Size() + 1, Sum(OpenMarks(start)), c.Size());
  }

  lemma ScaleMonotone(k: nat, a: nat, b: nat)
    requires a <= b
    ensures k * a <= k * b
  {
  }

  /** Some queued attempt of a call with nothing in flight is the next to start. */
  lemma {:induction false} FirstQueuedStarts(c: Config, s: System, i: nat)
    requires c.Valid() && |s.phases| == c.Size() && i < c.Size() && s.phases[i].Queued?
    requires FlightSet(c, s.phases, c.batch[i]) == {}
    ensures exists j: nat :: j <= i && CanStart(c, s, j)
    decreases i
  {
    if j: nat :| j < i && c.batch[j] == c.batch[i] && s.phases[j].Queued? {
      FirstQueuedStarts(c, s, j);
    } else {
      assert CanStart(c, s, i);
    }
  }

  /** Deadlock freedom: while an attempt is unsettled, one can move without being cancelled. */
  lemma NoDeadlock(c: Config, s: System, i: nat) returns (step: Step)
    requires c.Valid() && Inv(c, s)
    requires i < c.Size() && !Settled(s.phases[i])
    ensures !step.Abandon? && Enabled(c, s, step)
  {
    if j: nat :| j < c.Size() && s.phases[j].Ready? {
      return Arm(j);
    } else if j: nat :| j < c.Size() && s.phases[j].Armed? {
      return Check(j);
    } else if j: nat :| j < c.Size() && s.phases[j].Running? {
      return Release(j);
    } else if j: nat :| j < c.Size() && s.phases[j].Releasing? {
      return Notify(j);
    } else if j: nat :| j < c.Size() && s.phases[j] == Waiting(true) {
      return Wake(j);
    }
    forall j: nat | j < c.Size()
      ensures s.phases[j] != Waiting(false)
    {
      IdleFitsAll(c, s, j);
    }
    assert forall j: nat :: j < c.Size() ==> !InFlight(s.phases[j]);
    assert s.phases[i].Queued?;
    assert FlightSet(c, s.phases, c.batch[i]) == {};
    FirstQueuedStarts(c, s, i);
    var j: nat :| j <= i && CanStart(c, s, j);
    return Start(j);
  }

  /** A run that can only be continued by cancelling has settled every attempt. */
  lemma MaximalRunSettles(c: Config, steps: seq<Step>, s: System)
    requires c.Valid() && IsRun(c, Initial(c), steps, s)
    requires |s.phases| == c.Size()
    requires forall step :: Enabled(c, s, step) ==> step.Abandon?
    ensures forall i :: 0 <= i < c.Size() ==> Settled(s.phases[i])
    ensures s.counters == Counters(0, 0)
  {
    InitialInv(c);
    RunKeepsInv(c, Initial(c), steps, s);
    forall i: nat | i < c.Size()
      ensures Settled(s.phases[i])
    {
      if !Settled(s.phases[i]) {
        var step := NoDeadlock(c, s, i);
      }
    }
    SumZero(PermitMarks(s.phases));
    SumZero(PermitCosts(c, s.phases));
  }

  lemma {:induction false} UncancelledRunKeeps(c: Config, s: System, steps: seq<Step>, s': System)
    requires c.Valid() && |s.phases| == c.Size() && IsRun(c, s, steps, s')
    requires forall k :: 0 <= k < |steps| ==> !steps[k].Abandon?
    requires forall i :: 0 <= i < |s.phases| ==> !s.phases[i].Abandoned? && s.phases[i] != Releasing(false)
    ensures |s'.phases| == c.Size()
    ensures forall i :: 0 <= i < |s'.phases| ==> !s'.phases[i].Abandoned?
    decreases |steps|
  {
    if steps != [] {
      assert !steps[0].Abandon?;
      UncancelledRunKeeps(c, Apply(c, s, steps[0]), steps[1..], s');
    }
  }

  /** Liveness of a finite batch: a maximal run without cancellation completes
      every attempt, and its log names each attempt exactly once. */
  lemma {:induction false} EveryAttemptCompletes(c: Config, steps: seq<Step>, s: System)
    requires c.Valid() && IsRun(c, Initial(c), steps, s)
    requires forall k :: 0 <= k < |steps| ==> !steps[k].Abandon?
    requires |s.phases| == c.Size()
    requires forall step :: Enabled(c, s, step) ==> step.Abandon?
    ensures forall i :: 0 <= i < c.Size() ==> s.phases[i].Done?
    ensures LogExact(s) && forall i: nat :: i in s.finished <==> i < c.Size()
  {
    InitialInv(c);
    RunKeepsInv(c, Initial(c), steps, s);
    UncancelledRunKeeps(c, Initial(c), steps, s);
    MaximalRunSettles(c, steps, s);
  }

  /** In every reachable state a call has at most min(len, 4 * max_concurrency)
      unfinished futures, at least one being allowed. */
  lemma WindowHolds(c: Config, steps: seq<Step>, s: System, b: nat)
    requires c.Valid() && IsRun(c, Initial(c), steps, s)
    ensures |s.phases| == c.Size() && |FlightSet(c, s.phases, b)| <= c.Window(b)
    ensures var unfinished := |FlightSet(c, s.phases, b)|;
      unfinished <= 1 || (unfinished <= |c.Members(b)| && unfinished <= 4 * c.limits.maxConcurrency)
    ensures c.Window(b) == |c.Members(b)| || c.Window(b) == 1 || c.Window(b) == U64 - 1
         || c.Window(b) == 4 * c.limits.maxConcurrency
    ensures forall i: nat :: i in c.Members(b) <==> i < |c.batch| && c.batch[i] == b
    ensures forall i: nat :: i in FlightSet(c, s.phases, b) <==>
      i < c.Size() && c.batch[i] == b && !s.phases[i].Queued? && !s.phases[i].Done? && !s.phases[i].Abandoned?
  {
    InitialInv(c);
    RunKeepsInv(c, Initial(c), steps, s);
  }
}
