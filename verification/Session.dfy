/** The console RPC between the host's `VmToolSession` and the guest: two FIFO
    pipes, ids from a wrapping 64-bit counter, a sequential guest, and callers
    that may stop waiting at any time. Writing one request line is one step. */
module Session {
  import opened Common

  /** The wire id of the `n`-th id taken, and how often the counter had wrapped by then. */
  function WireId(n: nat): (id: nat)
    ensures id < U64
  {
    if n < U64 then n else WireId(n - U64)
  }

  function Epoch(n: nat): nat {
    if n < U64 then 0 else 1 + Epoch(n - U64)
  }

  /** `wrapping_add(1)` */
  function NextId(id: nat): nat {
    if id + 1 == U64 then 0 else id + 1
  }

  lemma {:induction false} WireIdSplits(n: nat)
    ensures n == Epoch(n) * U64 + WireId(n)
  {
    if n >= U64 {
      WireIdSplits(n - U64);
    }
  }

  lemma {:induction false} NextIdExact(n: nat)
    ensures NextId(WireId(n)) == WireId(n + 1)
  {
    if n >= U64 {
      NextIdExact(n - U64);
    }
  }

  datatype Frame = Frame(id: nat, body: string)

  datatype Reply = Reply(id: nat, body: string)

  /** What handling one request does: the guest's next state, its answer, and
      whether it was an acknowledged shutdown. */
  datatype Turn<+G> = Turn(state: G, answer: string, stop: bool)

  type Handler<!G> = (G, string) -> Turn<G>

  datatype Outcome = Answered(answer: string) | Closed | ResponseId(expected: nat, actual: nat)

  // ------------------------------------------------------------------
  // The guest
  // ------------------------------------------------------------------

  datatype GuestState<+G> = GuestState(state: G, stopped: bool)

  /** The guest after handling `frames` in order, up to a shutdown. */
  function GuestAfter<G>(h: Handler<G>, g: G, frames: seq<Frame>): GuestState<G> {
    if frames == [] then GuestState(g, false)
    else
      var before := GuestAfter(h, g, frames[..|frames| - 1]);
      if before.stopped then before
      else
        var turn := h(before.state, frames[|frames| - 1].body);
        GuestState(turn.state, turn.stop)
  }

  /** The replies a guest with nobody interfering writes for `frames`. */
  function Replies<G>(h: Handler<G>, g: G, frames: seq<Frame>): seq<Reply> {
    if frames == [] then []
    else
      var init, last := frames[..|frames| - 1], frames[|frames| - 1];
      var before := GuestAfter(h, g, init);
      Replies(h, g, init)
      + (if before.stopped then [] else [Reply(last.id, h(before.state, last.body).answer)])
  }

  /** The request loop of `serve_guest`. */
  method ServeGuest<G>(h: Handler<G>, g: G, lines: seq<Frame>) returns (output: seq<Reply>)
    ensures output == Replies(h, g, lines)
  {
    var state := g;
    output := [];
    var n := 0;
    while n < |lines|
      invariant 0 <= n <= |lines|
      invariant GuestAfter(h, g, lines[..n]) == GuestState(state, false)
      invariant output == Replies(h, g, lines[..n])
    {
      assert lines[..n + 1][..n] == lines[..n];
      var turn := h(state, lines[n].body);
      output := output + [Reply(lines[n].id, turn.answer)];
      n := n + 1;
      if turn.stop {
        StoppedIsFinal(h, g, lines, n);
        return;
      }
      state := turn.state;
    }
    assert lines[..n] == lines;
  }

  lemma {:induction false} StoppedIsFinal<G>(h: Handler<G>, g: G, frames: seq<Frame>, n: nat)
    requires n <= |frames| && GuestAfter(h, g, frames[..n]).stopped
    ensures Replies(h, g, frames) == Replies(h, g, frames[..n])
    ensures GuestAfter(h, g, frames) == GuestAfter(h, g, frames[..n])
  {
    if n == |frames| {
      assert frames[..n] == frames;
    } else {
      var init := frames[..|frames| - 1];
      assert init[..n] == frames[..n];
      StoppedIsFinal(h, g, init, n);
    }
  }

  lemma {:induction false} RunningGuestAnswersAll<G>(h: Handler<G>, g: G, frames: seq<Frame>)
    requires !GuestAfter(h, g, frames).stopped
    ensures |Replies(h, g, frames)| == |frames|
    ensures forall j :: 0 <= j < |frames| ==> Replies(h, g, frames)[j].id == frames[j].id
  {
    if frames != [] {
      RunningGuestAnswersAll(h, g, frames[..|frames| - 1]);
    }
  }

  // ------------------------------------------------------------------
  // The host
  // ------------------------------------------------------------------

  datatype Verdict = Mine | Stale | Unexpected

  /** How `read_response` classifies a line by its id. */
  function Classify(actual: nat, expected: nat): Verdict {
    if actual == expected then Mine
    else if actual < expected then Stale
    else Unexpected
  }

  /** The lines `read_response` takes off the pipe, ending with the deciding one. */
  function Discarded(lines: seq<Reply>, expected: nat): (n: nat)
    ensures n <= |lines|
  {
    if lines != [] && Classify(lines[0].id, expected).Stale?
    then 1 + Discarded(lines[1..], expected)
    else 0
  }

  function ReadOutcome(lines: seq<Reply>, expected: nat): Outcome {
    var n := Discarded(lines, expected);
    if n == |lines| then Closed
    else if lines[n].id == expected then Answered(lines[n].body)
    else ResponseId(expected, lines[n].id)
  }

  /** Line `n` is the first whose id is not below the expected one. */
  ghost predicate Decides(lines: seq<Reply>, expected: nat, n: nat) {
    n < |lines| && lines[n].id >= expected && forall i :: 0 <= i < n ==> lines[i].id < expected
  }

  /** A read ends with the first line whose id is not below the expected one: with its
      answer or with an error naming both ids. */
  lemma {:induction false} ReadDecided(lines: seq<Reply>, expected: nat, n: nat)
    requires Decides(lines, expected, n)
    ensures Discarded(lines, expected) == n
    ensures ReadOutcome(lines, expected)
         == if lines[n].id == expected then Answered(lines[n].body) else ResponseId(expected, lines[n].id)
  {
    if n > 0 {
      ReadDecided(lines[1..], expected, n - 1);
    }
  }

  /** And with end of file when there is no such line. */
  lemma {:induction false} ReadUndecided(lines: seq<Reply>, expected: nat)
    requires forall i :: 0 <= i < |lines| ==> lines[i].id < expected
    ensures Discarded(lines, expected) == |lines| && ReadOutcome(lines, expected) == Closed
  {
    if lines != [] {
      ReadUndecided(lines[1..], expected);
    }
  }

  /** The locked session state: the id counter and the two pipe ends. `output`
      holds every line the host will ever see, up to end of file. */
  class SessionState {
    var nextId: nat
    var input: seq<Frame>
    var output: seq<Reply>

    constructor ()
      ensures nextId == 0 && input == [] && output == []
    {
      nextId, input, output := 0, [], [];
    }

    /** Takes an id and writes one request line. */
    method WriteRequest(body: string) returns (id: nat)
      modifies this`nextId, this`input
      ensures id == old(nextId) && nextId == NextId(id)
      ensures input == old(input) + [Frame(id, body)]
    {
      id := nextId;
      nextId := NextId(nextId);
      input := input + [Frame(id, body)];
    }

    /** The discard loop of `read_response`. */
    method ReadResponse(expected: nat) returns (r: Outcome)
      modifies this`output
      ensures r == ReadOutcome(old(output), expected)
      ensures var n := Discarded(old(output), expected);
              output == old(output)[Min(n + 1, |old(output)|)..]
    {
      ghost var all := output;
      ghost var taken := 0;
      while output != []
        invariant 0 <= taken <= |all| && output == all[taken..]
        invariant Discarded(all, expected) == taken + Discarded(output, expected)
        decreases |output|
      {
        var line := output[0];
        output := output[1..];
        if line.id == expected {
          return Answered(line.body);
        }
        if line.id < expected {
          taken := taken + 1;
          continue;
        }
        return ResponseId(expected, line.id);
      }
      return Closed;
    }
  }

  // ------------------------------------------------------------------
  // The protocol
  // ------------------------------------------------------------------

  /** A request line written so far: `number` counts the ids ever taken, so the
      line carries `WireId(number)`. */
  datatype Issue = Issue(number: nat, body: string)

  /** `nextId`, the pipes, the guest and `holder` (the id awaited under the lock)
      are the program's state; the rest is history. */
  datatype System<+G> = System(
    nextId: nat,
    toGuest: seq<Frame>,
    fromGuest: seq<Reply>,
    guest: G,
    alive: bool,
    holder: Option<nat>,
    issued: nat,
    sent: seq<Issue>,
    written: seq<Reply>,
    read: nat,
    results: seq<(nat, Outcome)>)

  /** Send: the lock is free, an id is taken, a line is written.
      Lose: an id is taken but encoding or writing fails, so no line is written.
      Guest: the guest answers its next line. Crash: the guest process is gone.
      Read: the holder takes one line, or sees end of file.
      Cancel: the holder's future is dropped. (A caller dropped while it waits
      for the lock changes nothing.) */
  datatype Step = Send(body: string) | Lose | Guest | Crash | Read | Cancel

  function Lines(sent: seq<Issue>): (r: seq<Frame>)
    ensures |r| == |sent|
    ensures forall j :: 0 <= j < |r| ==> r[j] == Frame(WireId(sent[j].number), sent[j].body)
  {
    seq(|sent|, j requires 0 <= j < |sent| => Frame(WireId(sent[j].number), sent[j].body))
  }

  function Initial<G>(g: G): System<G> {
    System(0, [], [], g, true, None, 0, [], [], 0, [])
  }

  predicate Enabled<G>(s: System<G>, step: Step) {
    match step
    case Send(_) => s.holder.None?
    case Lose => s.holder.None?
    case Guest => s.alive && s.toGuest != []
    case Crash => s.alive
    case Read => s.holder.Some? && s.sent != [] && (s.fromGuest != [] || !s.alive)
    case Cancel => s.holder.Some?
  }

  function Finish<G>(s: System<G>, outcome: Outcome): System<G>
    requires s.sent != []
  {
    s.(holder := None, results := s.results + [(|s.sent| - 1, outcome)])
  }

  function TakeLine<G>(s: System<G>): System<G>
    requires s.fromGuest != []
  {
    s.(fromGuest := s.fromGuest[1..], read := s.read + 1)
  }

  /** One turn of the discard loop, on the lines that have arrived so far. */
  function ReadLine<G>(s: System<G>): System<G>
    requires s.holder.Some? && s.sent != []
  {
    if s.fromGuest == [] then Finish(s, Closed)
    else
      var line, expected := s.fromGuest[0], s.holder.value;
      match Classify(line.id, expected)
      case Stale => TakeLine(s)
      case Mine => Finish(TakeLine(s), Answered(line.body))
      case Unexpected => Finish(TakeLine(s), ResponseId(expected, line.id))
  }

  function Apply<G>(h: Handler<G>, s: System<G>, step: Step): System<G>
    requires Enabled(s, step)
  {
    match step
    case Send(body) =>
      s.(nextId := NextId(s.nextId), toGuest := s.toGuest + [Frame(s.nextId, body)],
         holder := Some(s.nextId), issued := s.issued + 1, sent := s.sent + [Issue(s.issued, body)])
    case Lose => s.(nextId := NextId(s.nextId), issued := s.issued + 1)
    case Guest =>
      var turn := h(s.guest, s.toGuest[0].body);
      var reply := Reply(s.toGuest[0].id, turn.answer);
      s.(toGuest := s.toGuest[1..], guest := turn.state, alive := !turn.stop,
         fromGuest := s.fromGuest + [reply], written := s.written + [reply])
    case Crash => s.(alive := false)
    case Cancel => s.(holder := None)
    case Read => ReadLine(s)
  }

  /** The pipes hold exactly what has been written and not yet taken off them. */
  ghost predicate PipesExact<G>(s: System<G>) {
    && s.read <= |s.written| <= |s.sent|
    && s.toGuest == Lines(s.sent)[|s.written|..]
    && s.fromGuest == s.written[s.read..]
    && (forall j :: 0 <= j < |s.written| ==> s.written[j].id == WireId(s.sent[j].number))
  }

  ghost predicate NumbersExact<G>(s: System<G>) {
    && s.nextId == WireId(s.issued)
    && (forall i, j :: 0 <= i < j < |s.sent| ==> s.sent[i].number < s.sent[j].number)
    && (forall i :: 0 <= i < |s.sent| ==> s.sent[i].number < s.issued)
  }

  /** Whoever holds the lock sent the newest line and has not seen its reply. */
  ghost predicate HolderIsNewest<G>(s: System<G>) {
    s.holder.Some? ==>
      && s.read < |s.sent|
      && s.holder.value == WireId(s.sent[|s.sent| - 1].number)
  }

  /** No request gets a second outcome. */
  ghost predicate OneOutcomeEach<G>(s: System<G>) {
    && (forall i, j :: 0 <= i < j < |s.results| ==> s.results[i].0 < s.results[j].0)
    && (forall i :: 0 <= i < |s.results| ==>
          s.results[i].0 < if s.holder.Some? then |s.sent| - 1 else |s.sent|)
  }

  ghost predicate HostInv<G>(s: System<G>) {
    PipesExact(s) && NumbersExact(s) && HolderIsNewest(s) && OneOutcomeEach(s)
  }

  /** What the guest has written is what it writes when nobody interferes. */
  ghost predicate GuestExact<G>(h: Handler<G>, g: G, s: System<G>) {
    && |s.written| <= |s.sent|
    && s.written == Replies(h, g, Lines(s.sent)[..|s.written|])
    && (s.alive ==> GuestAfter(h, g, Lines(s.sent)[..|s.written|]) == GuestState(s.guest, false))
  }

  /** The line at the head of the pipe answers the oldest unread request. */
  lemma HeadOfPipe<G>(s: System<G>)
    requires PipesExact(s) && s.fromGuest != []
    ensures s.read < |s.written|
    ensures s.fromGuest[0] == s.written[s.read]
    ensures s.fromGuest[0].id == WireId(s.sent[s.read].number)
    ensures s.fromGuest[1..] == s.written[s.read + 1..]
  {
  }

  lemma SendKeepsHostInv<G>(h: Handler<G>, s: System<G>, body: string)
    requires HostInv(s) && Enabled(s, Send(body))
    ensures HostInv(Apply(h, s, Send(body)))
  {
    NextIdExact(s.issued);
    assert Lines(Apply(h, s, Send(body)).sent) == Lines(s.sent) + [Frame(s.nextId, body)];
  }

  lemma GuestKeepsPipes<G>(h: Handler<G>, s: System<G>)
    requires PipesExact(s) && Enabled(s, Guest)
    ensures PipesExact(Apply(h, s, Guest))
  {
    assert s.toGuest[0] == Lines(s.sent)[|s.written|];
    hide WireId, Lines;
  }

  lemma GuestKeepsHostInv<G>(h: Handler<G>, s: System<G>)
    requires HostInv(s) && Enabled(s, Guest)
    ensures HostInv(Apply(h, s, Guest))
  {
    GuestKeepsPipes(h, s);
    hide PipesExact;
  }

  lemma TakeLineKeepsPipes<G>(s: System<G>)
    requires PipesExact(s) && s.fromGuest != []
    ensures PipesExact(TakeLine(s))
  {
    HeadOfPipe(s);
  }

  lemma FinishKeepsHostInv<G>(s: System<G>, outcome: Outcome)
    requires PipesExact(s) && NumbersExact(s) && OneOutcomeEach(s) && s.holder.Some? && s.sent != []
    ensures HostInv(Finish(s, outcome))
  {
  }

  lemma StaleLineKeepsHostInv<G>(s: System<G>)
    requires HostInv(s) && s.holder.Some? && s.fromGuest != []
    requires s.fromGuest[0].id != s.holder.value
    ensures HostInv(TakeLine(s))
  {
    HeadOfPipe(s);
    TakeLineKeepsPipes(s);
  }

  lemma ReadKeepsHostInv<G>(s: System<G>)
    requires HostInv(s) && s.holder.Some?
    ensures s.sent != [] && HostInv(ReadLine(s))
  {
    if s.fromGuest == [] {
      FinishKeepsHostInv(s, Closed);
    } else {
      var line, expected := s.fromGuest[0], s.holder.value;
      match Classify(line.id, expected)
      case Stale => StaleLineKeepsHostInv(s);
      case Mine =>
        TakeLineKeepsPipes(s);
        FinishKeepsHostInv(TakeLine(s), Answered(line.body));
      case Unexpected =>
        TakeLineKeepsPipes(s);
        FinishKeepsHostInv(TakeLine(s), ResponseId(expected, line.id));
    }
  }

  lemma OtherStepKeepsHostInv<G>(h: Handler<G>, s: System<G>, step: Step)
    requires HostInv(s) && Enabled(s, step) && (step.Lose? || step.Crash? || step.Cancel?)
    ensures HostInv(Apply(h, s, step))
  {
    NextIdExact(s.issued);
  }

  /** One step of the host, the guest or a caller keeps the pipes and ids in order. */
  lemma StepKeepsHostInv<G>(h: Handler<G>, s: System<G>, step: Step)
    requires HostInv(s) && Enabled(s, step)
    ensures HostInv(Apply(h, s, step))
  {
    match step
    case Send(body) => SendKeepsHostInv(h, s, body);
    case Guest => GuestKeepsHostInv(h, s);
    case Read => ReadKeepsHostInv(s);
    case _ => OtherStepKeepsHostInv(h, s, step);
  }

  lemma AnswersNext<G>(h: Handler<G>, g: G, before: seq<Frame>, next: Frame, state: G)
    requires GuestAfter(h, g, before) == GuestState(state, false)
    ensures var turn := h(state, next.body);
      && Replies(h, g, before + [next]) == Replies(h, g, before) + [Reply(next.id, turn.answer)]
      && GuestAfter(h, g, before + [next]) == GuestState(turn.state, turn.stop)
  {
    assert (before + [next])[..|before|] == before;
  }

  lemma GuestStepKeepsGuestExact<G>(h: Handler<G>, g: G, s: System<G>)
    requires PipesExact(s) && GuestExact(h, g, s) && Enabled(s, Guest)
    ensures GuestExact(h, g, Apply(h, s, Guest))
  {
    hide Replies, GuestAfter, WireId, Lines;
    var lines := Lines(s.sent);
    var before := lines[..|s.written|];
    assert lines[..|s.written| + 1] == before + [s.toGuest[0]];
    AnswersNext(h, g, before, s.toGuest[0], s.guest);
  }

  lemma IdleGuestStaysExact<G>(h: Handler<G>, g: G, s: System<G>, s': System<G>)
    requires GuestExact(h, g, s)
    requires s'.written == s.written && s'.guest == s.guest && (s'.alive ==> s.alive)
    requires s.sent <= s'.sent
    ensures GuestExact(h, g, s')
  {
    assert Lines(s'.sent)[..|s.written|] == Lines(s.sent)[..|s.written|];
  }

  lemma StepKeepsGuestExact<G>(h: Handler<G>, g: G, s: System<G>, step: Step)
    requires PipesExact(s) && GuestExact(h, g, s) && Enabled(s, step)
    ensures GuestExact(h, g, Apply(h, s, step))
  {
    if step.Guest? {
      GuestStepKeepsGuestExact(h, g, s);
    } else {
      IdleGuestStaysExact(h, g, s, Apply(h, s, step));
    }
  }

  // ------------------------------------------------------------------
  // Which reply a caller gets
  // ------------------------------------------------------------------

  /** With fewer than 2^64 ids taken since the line at the head of the pipe was
      written, a wire id is classified as the unwrapped numbers would be exactly
      when the counter has not wrapped in between. */
  lemma ClassificationExact(head: nat, own: nat)
    requires head <= own < head + U64
    ensures Epoch(head) <= Epoch(own)
    ensures Classify(WireId(head), WireId(own)) == Classify(head, own) <==> Epoch(head) == Epoch(own)
  {
    WireIdSplits(head);
    WireIdSplits(own);
  }

  /** The counter does wrap: with reply 2^64 - 1 abandoned in the pipe, the next
      request, which gets id 0, fails with `ResponseId`. */
  lemma WrappedCounterRejects(abandoned: string, own: string)
    ensures ReadOutcome([Reply(WireId(U64 - 1), abandoned), Reply(WireId(U64), own)], WireId(U64))
            == ResponseId(0, U64 - 1)
  {
    assert WireId(U64) == WireId(0) == 0;
    assert Discarded([Reply(WireId(U64 - 1), abandoned), Reply(WireId(U64), own)], 0) == 0;
  }

  /** An outcome is the guest's own answer to that request or, when the guest is gone
      without having answered it, end of file. */
  predicate OutcomeExact<G>(s: System<G>, n: nat, outcome: Outcome) {
    if outcome.Closed? then !s.alive && n >= |s.written|
    else n < |s.written| && outcome == Answered(s.written[n].body)
  }

  ghost predicate OutcomesExact<G>(s: System<G>) {
    forall i :: 0 <= i < |s.results| ==> OutcomeExact(s, s.results[i].0, s.results[i].1)
  }

  lemma SmallId(n: nat)
    ensures n < U64 ==> WireId(n) == n
  {
  }

  /** A read takes the holder's own reply or discards an abandoned one; its own
      reply is the last line in either pipe. */
  lemma ReadIsExact<G>(h: Handler<G>, s: System<G>)
    requires HostInv(s) && s.issued <= U64 && s.holder.Some? && s.fromGuest != []
    ensures s.read < |s.written| && s.sent != []
    ensures var s' := Apply(h, s, Read);
            if s.read < |s.sent| - 1
            then s'.holder == s.holder && s'.results == s.results
            else s'.holder.None? && s'.toGuest == [] && s'.fromGuest == []
                 && s'.results == s.results + [(|s.sent| - 1, Answered(s.written[|s.sent| - 1].body))]
  {
    HeadOfPipe(s);
    HeadClassified(s);
    hide WireId, Lines, NumbersExact, OneOutcomeEach, Classify;
  }

  /** The line at the head of the pipe is stale until it is the holder's own. */
  lemma HeadClassified<G>(s: System<G>)
    requires HostInv(s) && s.issued <= U64 && s.holder.Some? && s.fromGuest != []
    ensures Classify(s.fromGuest[0].id, s.holder.value) == if s.read < |s.sent| - 1 then Stale else Mine
  {
    var last := |s.sent| - 1;
    HeadOfPipe(s);
    SmallId(s.sent[s.read].number);
    SmallId(s.sent[last].number);
    hide WireId, Lines, OneOutcomeEach;
    assert s.read < last ==> s.sent[s.read].number < s.sent[last].number;
  }

  /** With nothing in the pipe and the guest gone, the holder's request was never answered. */
  lemma ClosedIsExact<G>(h: Handler<G>, s: System<G>)
    requires HostInv(s) && Enabled(s, Read) && s.fromGuest == []
    ensures !s.alive && |s.sent| - 1 >= |s.written|
    ensures Apply(h, s, Read).results == s.results + [(|s.sent| - 1, Closed)]
  {
  }

  /** An outcome once exact stays so: a guest that is gone writes nothing more. */
  lemma OutcomeStaysExact<G>(h: Handler<G>, s: System<G>, step: Step, n: nat, outcome: Outcome)
    requires Enabled(s, step) && OutcomeExact(s, n, outcome)
    ensures OutcomeExact(Apply(h, s, step), n, outcome)
  {
  }

  lemma StepKeepsOutcomes<G>(h: Handler<G>, s: System<G>, step: Step)
    requires HostInv(s) && Enabled(s, step)
    requires OutcomesExact(s) && s.issued <= U64
    ensures OutcomesExact(Apply(h, s, step))
  {
    forall i | 0 <= i < |s.results|
      ensures OutcomeExact(Apply(h, s, step), s.results[i].0, s.results[i].1)
    {
      OutcomeStaysExact(h, s, step, s.results[i].0, s.results[i].1);
    }
    if step.Read? {
      if s.fromGuest != [] {
        ReadIsExact(h, s);
      } else {
        ClosedIsExact(h, s);
      }
    }
  }

  ghost predicate IsRun<G>(h: Handler<G>, s: System<G>, steps: seq<Step>, s': System<G>)
    decreases |steps|
  {
    if steps == [] then s' == s
    else Enabled(s, steps[0]) && IsRun(h, Apply(h, s, steps[0]), steps[1..], s')
  }

  lemma {:induction false} RunKeepsInv<G>(h: Handler<G>, g: G, s: System<G>, steps: seq<Step>, s': System<G>)
    requires HostInv(s) && GuestExact(h, g, s) && OutcomesExact(s)
    requires IsRun(h, s, steps, s') && s'.issued <= U64
    ensures HostInv(s') && GuestExact(h, g, s') && OutcomesExact(s')
    decreases |steps|
  {
    if steps != [] {
      IssuedGrows(h, s, steps, s');
      StepKeepsHostInv(h, s, steps[0]);
      StepKeepsGuestExact(h, g, s, steps[0]);
      StepKeepsOutcomes(h, s, steps[0]);
      RunKeepsInv(h, g, Apply(h, s, steps[0]), steps[1..], s');
    }
  }

  lemma {:induction false} IssuedGrows<G>(h: Handler<G>, s: System<G>, steps: seq<Step>, s': System<G>)
    requires IsRun(h, s, steps, s')
    ensures s.issued <= s'.issued
    decreases |steps|
  {
    if steps != [] {
      IssuedGrows(h, Apply(h, s, steps[0]), steps[1..], s');
    }
  }

  lemma {:induction false} RepliesOfPrefix<G>(h: Handler<G>, g: G, frames: seq<Frame>, n: nat)
    requires n <= |frames|
    ensures Replies(h, g, frames[..n]) <= Replies(h, g, frames)
  {
    if n == |frames| {
      assert frames[..n] == frames;
    } else {
      assert frames[..|frames| - 1][..n] == frames[..n];
      RepliesOfPrefix(h, g, frames[..|frames| - 1], n);
    }
  }

  /** Main result: whatever was cancelled, lost or still in flight, a request is
      answered with what a guest executing every written line in order answers
      to it, or with end of file if the guest is gone and never answered it; each
      request gets at most one outcome, and `ResponseId` never occurs. */
  lemma AnswersAreTheGuests<G>(h: Handler<G>, g: G, steps: seq<Step>, s: System<G>)
    requires IsRun(h, Initial(g), steps, s) && s.issued <= U64
    ensures OneOutcomeEach(s)
    ensures forall i :: 0 <= i < |s.results| ==>
      var (n, outcome) := s.results[i];
      var answers := Replies(h, g, Lines(s.sent));
      if outcome.Closed? then !s.alive && n >= |s.written|
      else n < |answers| && outcome == Answered(answers[n].body)
  {
    RunKeepsInv(h, g, Initial(g), steps, s);
    RepliesOfPrefix(h, g, Lines(s.sent), |s.written|);
  }

  // ------------------------------------------------------------------
  // The discard loop ends
  // ------------------------------------------------------------------

  /** Lines that can still pass before the holder's wait is over. */
  function Pending<G>(s: System<G>): nat {
    2 * |s.toGuest| + |s.fromGuest| + (if s.alive then 1 else 0)
  }

  /** The holder of the lock is never stuck: the guest can answer or it can read. */
  lemma HolderCanProceed<G>(s: System<G>)
    requires HostInv(s) && s.holder.Some?
    ensures Enabled(s, Guest) || Enabled(s, Read)
  {
  }

  /** Every such step ends the wait or leaves less to come. */
  lemma WaitingShrinks<G>(h: Handler<G>, s: System<G>, step: Step)
    requires s.holder.Some? && Enabled(s, step)
    ensures Apply(h, s, step).holder.None? || Pending(Apply(h, s, step)) < Pending(s)
  {
  }

  /** The discard loop on the lines a request sees when the guest answers
      everything: it skips the abandoned replies and returns the request's own. */
  lemma {:induction false} LoopFindsOwnReply(lines: seq<Reply>, sent: seq<Issue>, r: nat)
    requires r < |lines| == |sent|
    requires forall j :: 0 <= j < |lines| ==> lines[j].id == WireId(sent[j].number)
    requires forall i, j :: 0 <= i < j < |sent| ==> sent[i].number < sent[j].number
    requires sent[|sent| - 1].number < sent[r].number + U64
    requires Epoch(sent[r].number) == Epoch(sent[|sent| - 1].number)
    ensures var own := WireId(sent[|sent| - 1].number);
            Discarded(lines[r..], own) == |lines| - 1 - r
            && ReadOutcome(lines[r..], own) == Answered(lines[|lines| - 1].body)
    decreases |lines| - r
  {
    var last := |sent| - 1;
    ClassificationExact(sent[r].number, sent[last].number);
    if r < last {
      ClassificationExact(sent[r].number, sent[r + 1].number);
      ClassificationExact(sent[r + 1].number, sent[last].number);
      LoopFindsOwnReply(lines, sent, r + 1);
      assert lines[r..][1..] == lines[r + 1..];
    }
  }

  /** So a request written after any history, to a guest that stays up, gets its
      own answer from the loop and leaves nothing behind in the pipe. */
  lemma LoopAnswersHolder<G>(h: Handler<G>, g: G, s: System<G>)
    requires NumbersExact(s) && HolderIsNewest(s) && s.issued <= U64 && s.holder.Some?
    requires !GuestAfter(h, g, Lines(s.sent)).stopped
    ensures var answers := Replies(h, g, Lines(s.sent));
            && |answers| == |s.sent|
            && Discarded(answers[s.read..], s.holder.value) == |s.sent| - 1 - s.read
            && ReadOutcome(answers[s.read..], s.holder.value) == Answered(answers[|s.sent| - 1].body)
  {
    RunningGuestAnswersAll(h, g, Lines(s.sent));
    assert forall j :: 0 <= j < |s.sent| ==> s.sent[j].number < U64;
    LoopFindsOwnReply(Replies(h, g, Lines(s.sent)), s.sent, s.read);
  }

  /** The guest answers the oldest request without an answer, from the state earlier ones left. */
  lemma GuestAnswersNext<G>(h: Handler<G>, g: G, s: System<G>)
    requires PipesExact(s) && GuestExact(h, g, s) && s.alive && |s.written| < |s.sent|
    ensures Enabled(s, Guest)
    ensures var n, s' := |s.written|, Apply(h, s, Guest);
      var turn := h(GuestAfter(h, g, Lines(s.sent)[..n]).state, s.sent[n].body);
      var reply := Reply(WireId(s.sent[n].number), turn.answer);
      && s'.written == s.written + [reply] && s'.fromGuest == s.fromGuest + [reply]
      && s'.alive == !turn.stop && s'.holder == s.holder && s'.sent == s.sent && s'.results == s.results
  {
    hide WireId, Replies;
    assert s.toGuest[0] == Lines(s.sent)[|s.written|];
  }

  lemma StaysUp<G>(h: Handler<G>, g: G, s: System<G>)
    requires PipesExact(s) && GuestExact(h, g, s) && s.alive && |s.written| < |s.sent|
    requires !GuestAfter(h, g, Lines(s.sent)).stopped
    ensures Enabled(s, Guest) && Apply(h, s, Guest).alive
  {
    hide WireId, Replies;
    var lines, n := Lines(s.sent), |s.written|;
    GuestAnswersNext(h, g, s);
    assert lines[..n + 1][..n] == lines[..n] && lines[n].body == s.sent[n].body;
    if GuestAfter(h, g, lines[..n + 1]).stopped {
      StoppedIsFinal(h, g, lines, n + 1);
    }
  }

  /** Reading line by line what has arrived, until the wait is over. */
  function ReadAll<G>(s: System<G>): System<G>
    requires s.holder.Some? && s.sent != []
    decreases |s.fromGuest|
  {
    var next := ReadLine(s);
    if next.holder.Some? then ReadAll(next) else next
  }

  /** Main result: the steps that read one line each are the loop: together they give its
      outcome to the newest request, leave the lines it leaves and free the lock. */
  lemma {:induction false} ReadStepsAreLoop<G>(s: System<G>)
    requires s.holder.Some? && s.sent != []
    ensures var end := ReadAll(s);
      && end.holder == None
      && end.results == s.results + [(|s.sent| - 1, ReadOutcome(s.fromGuest, s.holder.value))]
      && end.fromGuest == s.fromGuest[Min(Discarded(s.fromGuest, s.holder.value) + 1, |s.fromGuest|)..]
      && end.sent == s.sent && end.toGuest == s.toGuest && end.written == s.written && end.alive == s.alive
    decreases |s.fromGuest|
  {
    if s.fromGuest != [] && Classify(s.fromGuest[0].id, s.holder.value).Stale? {
      ReadStepsAreLoop(TakeLine(s));
    }
  }

  /** `events` of guest and holder alone end the wait with `outcome`. */
  ghost predicate Ends<G>(h: Handler<G>, s: System<G>, steps: seq<Step>, s': System<G>, outcome: Outcome) {
    && IsRun(h, s, steps, s')
    && (forall i :: 0 <= i < |steps| ==> steps[i].Guest? || steps[i].Read?)
    && s'.holder == None && s'.results == s.results + [(|s.sent| - 1, outcome)]
  }

  lemma EndsSooner<G>(h: Handler<G>, s: System<G>, step: Step, steps: seq<Step>, s': System<G>, outcome: Outcome)
    requires Enabled(s, step) && (step.Guest? || step.Read?)
    requires Apply(h, s, step).results == s.results && Apply(h, s, step).sent == s.sent
    requires Ends(h, Apply(h, s, step), steps, s', outcome)
    ensures Ends(h, s, [step] + steps, s', outcome)
  {
    assert ([step] + steps)[1..] == steps;
  }

  /** What the guest answers to the newest request. */
  ghost function OwnAnswer<G>(h: Handler<G>, g: G, sent: seq<Issue>): Outcome {
    var answers := Replies(h, g, Lines(sent));
    if answers == [] then Closed else Answered(answers[|answers| - 1].body)
  }

  /** The guest answers what it has not answered yet; then the holder reads. */
  function NextTurn<G>(s: System<G>): Step {
    if |s.written| < |s.sent| then Guest else Read
  }

  /** Waiting on a guest that stays up. */
  ghost predicate Waits<G>(h: Handler<G>, g: G, s: System<G>) {
    && HostInv(s) && GuestExact(h, g, s) && s.issued <= U64 && s.holder.Some? && s.alive
    && !GuestAfter(h, g, Lines(s.sent)).stopped
  }

  lemma GuestTurn<G>(h: Handler<G>, g: G, s: System<G>)
    requires Waits(h, g, s) && |s.written| < |s.sent|
    ensures Enabled(s, Guest)
    ensures var s' := Apply(h, s, Guest);
      s'.results == s.results && s'.sent == s.sent && s'.holder.Some? && Waits(h, g, s')
  {
    StaysUp(h, g, s);
    GuestAnswersNext(h, g, s);
    StepKeepsHostInv(h, s, Guest);
    StepKeepsGuestExact(h, g, s, Guest);
    hide HostInv, GuestExact, Lines, GuestAfter, PipesExact;
  }

  lemma ReadTurn<G>(h: Handler<G>, g: G, s: System<G>)
    requires Waits(h, g, s) && |s.written| >= |s.sent|
    ensures Enabled(s, Read)
    ensures var s' := Apply(h, s, Read);
      && s'.sent == s.sent
      && if s'.holder.Some? then s'.results == s.results && Waits(h, g, s')
         else s'.results == s.results + [(|s.sent| - 1, OwnAnswer(h, g, s.sent))]
  {
    hide WireId, Replies, Lines, OneOutcomeEach, NumbersExact, GuestAfter;
    ReadIsExact(h, s);
    StepKeepsHostInv(h, s, Read);
    StepKeepsGuestExact(h, g, s, Read);
    assert Lines(s.sent)[..|s.sent|] == Lines(s.sent) && |Lines(s.sent)| == |s.sent|;
  }

  /** Main result: while the guest stays up, whoever holds the lock can still get the
      guest's own answer to its request, by steps of guest and holder alone. */
  lemma {:induction false} HolderGetsAnswer<G>(h: Handler<G>, g: G, s: System<G>)
    requires Waits(h, g, s)
    ensures OwnAnswer(h, g, s.sent).Answered?
    ensures exists steps, s' :: Ends(h, s, steps, s', OwnAnswer(h, g, s.sent))
    decreases Pending(s)
  {
    hide Apply, Ends, HostInv, GuestExact, GuestAfter, Replies, Lines;
    var step := NextTurn(s);
    if step.Guest? {
      GuestTurn(h, g, s);
    } else {
      ReadTurn(h, g, s);
    }
    var next := Apply(h, s, step);
    if next.holder.Some? {
      WaitingShrinks(h, s, step);
      HolderGetsAnswer(h, g, next);
      var steps, s' :| Ends(h, next, steps, s', OwnAnswer(h, g, s.sent));
      EndsSooner(h, s, step, steps, s', OwnAnswer(h, g, s.sent));
    } else {
      SomeAnswer(h, g, s);
      EndsAt(h, s, step, OwnAnswer(h, g, s.sent));
    }
  }

  /** Main result: whoever waits may give up at any time, and the next request can still get
      the guest's own answer, whatever replies the one given up leaves behind. */
  lemma CancelledThenAnswered<G>(h: Handler<G>, g: G, s: System<G>, body: string)
    requires HostInv(s) && GuestExact(h, g, s) && s.holder.Some? && s.alive && s.issued < U64
    ensures Enabled(s, Cancel) && Enabled(Apply(h, s, Cancel), Send(body))
    ensures var next := Apply(h, Apply(h, s, Cancel), Send(body));
      && |next.sent| == |s.sent| + 1 && next.sent[|s.sent|].body == body && next.results == s.results
      && (!GuestAfter(h, g, Lines(next.sent)).stopped ==>
            OwnAnswer(h, g, next.sent).Answered?
            && exists steps, s' :: Ends(h, next, steps, s', OwnAnswer(h, g, next.sent)))
  {
    var free := Apply(h, s, Cancel);
    var next := Apply(h, free, Send(body));
    StepKeepsHostInv(h, s, Cancel);
    StepKeepsGuestExact(h, g, s, Cancel);
    StepKeepsHostInv(h, free, Send(body));
    StepKeepsGuestExact(h, g, free, Send(body));
    hide HostInv, GuestExact, GuestAfter, Lines, OwnAnswer, Ends;
    if !GuestAfter(h, g, Lines(next.sent)).stopped {
      HolderGetsAnswer(h, g, next);
    }
  }

  lemma SomeAnswer<G>(h: Handler<G>, g: G, s: System<G>)
    requires Waits(h, g, s)
    ensures OwnAnswer(h, g, s.sent).Answered?
  {
    hide WireId, Replies, GuestAfter;
    RunningGuestAnswersAll(h, g, Lines(s.sent));
  }

  lemma EndsAt<G>(h: Handler<G>, s: System<G>, step: Step, outcome: Outcome)
    requires Enabled(s, step) && (step.Guest? || step.Read?)
    requires Apply(h, s, step).holder == None
    requires Apply(h, s, step).results == s.results + [(|s.sent| - 1, outcome)]
    ensures Ends(h, s, [step], Apply(h, s, step), outcome)
  {
    assert [step][1..] == [];
  }
}
