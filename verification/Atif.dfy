/** The ATIF projection of an agent's event stream: one step per model call, with the
    call's tools and their results. Payloads are already decoded. */
module Atif {
  import opened Common
  import Text

  datatype Metrics = Metrics(prompt: nat, completion: nat, cached: nat, durationNs: nat)

  datatype ToolCall = ToolCall(id: string, name: string, arguments: string, callIndex: nat)

  datatype Observation = Observation(callId: string, content: string, status: string, durationNs: nat)

  datatype AgentEvent =
    | ModelCallStarted(callIndex: nat, model: string, effort: string)
    | AssistantMessage(callIndex: nat, text: string)
    | ReasoningDelta(callIndex: nat, text: string)
    | ModelCallCompleted(callIndex: nat, model: string, usage: Option<Metrics>)
    | ToolCalled(callId: string, callIndex: nat, tool: string, rawArguments: string)
    | ToolReturned(callId: string, status: string, durationNs: nat, content: string)
    | Other

  datatype Turn = Turn(model: Option<string>, effort: Option<string>, message: string, reasoning: string,
                       calls: seq<ToolCall>, observations: seq<Observation>, metrics: Option<Metrics>)

  const NO_TURN := Turn(None, None, "", "", [], [], None)

  /** `append_message` */
  function AppendMessage(message: string, next: string): string {
    (if message != "" && next != "" then message + "\n\n" else message) + next
  }

  /** `object_arguments` */
  function ObjectArguments(raw: string): string {
    var trimmed := Text.TrimStart(raw);
    if trimmed != "" && trimmed[0] == '{' then raw else "{\"raw\":" + raw + "}"
  }

  function CallOf(e: AgentEvent): ToolCall
    requires e.ToolCalled?
  {
    ToolCall(e.callId, e.tool, ObjectArguments(e.rawArguments), e.callIndex)
  }

  function ObservationOf(e: AgentEvent): Observation
    requires e.ToolReturned?
  {
    Observation(e.callId, e.content, e.status, e.durationNs)
  }

  // ------------------------------------------------------------------
  // What a stream says of one model call
  // ------------------------------------------------------------------

  /** The model call that last called the tool `id`. */
  function CallerOf(events: seq<AgentEvent>, id: string): Option<nat> {
    if events == [] then None
    else
      var last := events[|events| - 1];
      if last.ToolCalled? && last.callId == id then Some(last.callIndex)
      else CallerOf(events[..|events| - 1], id)
  }

  /** The model call an event belongs to, after the events before it. */
  function Belongs(before: seq<AgentEvent>, e: AgentEvent): Option<nat> {
    match e
    case ToolReturned(callId, _, _, _) => CallerOf(before, callId)
    case Other => None
    case _ => Some(e.callIndex)
  }

  function Updated(t: Turn, e: AgentEvent): Turn {
    match e
    case ModelCallStarted(_, model, effort) => t.(model := Some(model), effort := Some(effort))
    case AssistantMessage(_, text) => t.(message := AppendMessage(t.message, text))
    case ReasoningDelta(_, text) => t.(reasoning := t.reasoning + text)
    case ModelCallCompleted(_, model, usage) => t.(model := Some(model), metrics := usage)
    case ToolCalled(_, _, _, _) => t.(calls := t.calls + [CallOf(e)])
    case ToolReturned(_, _, _, _) => t.(observations := t.observations + [ObservationOf(e)])
    case Other => t
  }

  /** What the events that belong to model call `k` make of its turn. */
  function TurnOf(events: seq<AgentEvent>, k: nat): Turn {
    if events == [] then NO_TURN
    else
      var init, last := events[..|events| - 1], events[|events| - 1];
      if Belongs(init, last) == Some(k) then Updated(TurnOf(init, k), last) else TurnOf(init, k)
  }

  function Indexes(events: seq<AgentEvent>): set<nat> {
    if events == [] then {}
    else
      var init, last := events[..|events| - 1], events[|events| - 1];
      Indexes(init) + if Belongs(init, last).Some? then {Belongs(init, last).value} else {}
  }

  /** The tool calls and results of the stream that belong to model call `k`. */
  function CallsOf(events: seq<AgentEvent>, k: nat): seq<ToolCall> {
    if events == [] then []
    else
      var last := events[|events| - 1];
      CallsOf(events[..|events| - 1], k)
      + if last.ToolCalled? && last.callIndex == k then [CallOf(last)] else []
  }

  function ObservationsOf(events: seq<AgentEvent>, k: nat): seq<Observation> {
    if events == [] then []
    else
      var init, last := events[..|events| - 1], events[|events| - 1];
      ObservationsOf(init, k)
      + if last.ToolReturned? && CallerOf(init, last.callId) == Some(k) then [ObservationOf(last)] else []
  }

  lemma {:induction false} TurnHolds(events: seq<AgentEvent>, k: nat)
    ensures TurnOf(events, k).calls == CallsOf(events, k)
    ensures TurnOf(events, k).observations == ObservationsOf(events, k)
  {
    if events != [] {
      TurnHolds(events[..|events| - 1], k);
    }
  }

  // ------------------------------------------------------------------
  // The builder
  // ------------------------------------------------------------------

  type Turns = map<nat, Turn>

  function Entry(turns: Turns, k: nat): Turn {
    if k in turns then turns[k] else NO_TURN
  }

  /** The turn an event goes to. */
  function Target(toolTurns: map<string, nat>, e: AgentEvent): Option<nat> {
    match e
    case ToolReturned(callId, _, _, _) => if callId in toolTurns then Some(toolTurns[callId]) else None
    case Other => None
    case _ => Some(e.callIndex)
  }

  function AppliedTurns(turns: Turns, toolTurns: map<string, nat>, e: AgentEvent): Turns {
    match Target(toolTurns, e)
    case None => turns
    case Some(k) => turns[k := Updated(Entry(turns, k), e)]
  }

  function AppliedTools(toolTurns: map<string, nat>, e: AgentEvent): map<string, nat> {
    if e.ToolCalled? then toolTurns[e.callId := e.callIndex] else toolTurns
  }

  /** What the builder holds after following `events`. */
  ghost predicate Follows(turns: Turns, toolTurns: map<string, nat>, events: seq<AgentEvent>) {
    && turns.Keys == Indexes(events)
    && (forall k: nat :: Entry(turns, k) == TurnOf(events, k))
    && (forall id :: id in toolTurns <==> CallerOf(events, id).Some?)
    && (forall id :: id in toolTurns ==> CallerOf(events, id) == Some(toolTurns[id]))
  }

  // ------------------------------------------------------------------
  // Trajectories
  // ------------------------------------------------------------------

  datatype AgentResult = AgentResult(model: string, effort: string, finalMessage: string, prompt: nat,
                                     completion: nat, cached: nat, durationNs: nat, modelCalls: nat, toolCalls: nat)

  datatype Source = User | Agent

  datatype Step = Step(id: nat, source: Source, model: Option<string>, effort: Option<string>, message: string,
                       reasoning: Option<string>, calls: Option<seq<ToolCall>>,
                       observation: Option<seq<Observation>>, metrics: Option<Metrics>, terminal: bool)

  datatype Totals = Totals(prompt: nat, completion: nat, cached: nat, durationNs: nat, steps: nat,
                           modelCalls: nat, toolCalls: nat)

  datatype Trajectory = Trajectory(sessionId: string, model: string, steps: seq<Step>, totals: Totals)

  const U32_MAX: nat := 0xffff_ffff

  /** `u32::try_from(n).unwrap_or(u32::MAX)` */
  function U32(n: nat): nat {
    Min(n, U32_MAX)
  }

  function OrElse(own: Option<string>, other: string): Option<string> {
    if own.Some? then own else Some(other)
  }

  function NonEmpty<T>(s: seq<T>): Option<seq<T>> {
    if |s| == 0 then None else Some(s)
  }

  function Listed<T>(s: Option<seq<T>>): seq<T> {
    if s.None? then [] else s.value
  }

  /** `into_step` with the attempt's result, `into_failure_step` without. */
  function TurnStep(t: Turn, id: nat, result: Option<AgentResult>): Step {
    Step(id, Agent, if result.Some? then OrElse(t.model, result.value.model) else t.model,
         if result.Some? then OrElse(t.effort, result.value.effort) else t.effort,
         t.message, NonEmpty(t.reasoning), NonEmpty(t.calls), NonEmpty(t.observations), t.metrics, false)
  }

  function UserStep(prompt: string): Step {
    Step(1, User, None, None, prompt, None, None, None, None, false)
  }

  predicate IsLeast(keys: set<nat>, k: nat) {
    k in keys && forall j :: j in keys ==> k <= j
  }

  lemma {:induction false} LeastExists(keys: set<nat>) returns (k: nat)
    requires keys != {}
    ensures IsLeast(keys, k)
  {
    k :| k in keys;
    var rest := keys - {k};
    if rest != {} {
      var m := LeastExists(rest);
      forall j | j in keys
        ensures Min(k, m) <= j
      {
        assert j == k || j in rest;
      }
      k := Min(k, m);
    } else {
      forall j | j in keys
        ensures j == k
      {
        assert j !in rest;
      }
    }
  }

  ghost function Least(keys: set<nat>): (k: nat)
    requires keys != {}
    ensures IsLeast(keys, k)
  {
    assert exists k :: IsLeast(keys, k) by {
      var k := LeastExists(keys);
    }
    var k :| IsLeast(keys, k);
    k
  }

  /** The keys in the order a sorted map yields them. */
  ghost function Order(keys: set<nat>): seq<nat> {
    if keys == {} then [] else [Least(keys)] + Order(keys - {Least(keys)})
  }

  lemma {:induction false} InOrder(keys: set<nat>, k: nat)
    ensures k in Order(keys) <==> k in keys
  {
    hide IsLeast;
    if keys != {} {
      LeastIn(keys);
      InOrder(keys - {Least(keys)}, k);
    }
  }

  lemma LeastIn(keys: set<nat>)
    requires keys != {}
    ensures Least(keys) in keys
  {
  }

  ghost predicate Ascending(order: seq<nat>) {
    forall i, j :: 0 <= i < j < |order| ==> order[i] < order[j]
  }

  lemma {:induction false} OrderAscends(keys: set<nat>)
    ensures Ascending(Order(keys)) && |Order(keys)| == |keys|
  {
    if keys != {} {
      var least := Least(keys);
      var rest := Order(keys - {least});
      OrderAscends(keys - {least});
      forall i | 0 <= i < |rest|
        ensures least < rest[i]
      {
        InOrder(keys - {least}, rest[i]);
      }
      assert Order(keys) == [least] + rest;
    }
  }

  method OrderedKeys(turns: Turns) returns (order: seq<nat>)
    ensures order == Order(turns.Keys)
    ensures forall i :: 0 <= i < |order| ==> order[i] in turns
  {
    order := [];
    var keys := turns.Keys;
    while keys != {}
      invariant order + Order(keys) == Order(turns.Keys)
      decreases |keys|
    {
      ghost var least := LeastExists(keys);
      var k :| k in keys && forall j :: j in keys ==> k <= j;
      assert k == Least(keys);
      order := order + [k];
      keys := keys - {k};
    }
    forall i | 0 <= i < |order|
      ensures order[i] in turns
    {
      InOrder(turns.Keys, order[i]);
    }
  }

  function TurnSteps(turns: Turns, order: seq<nat>, result: Option<AgentResult>): seq<Step> {
    seq(|order|, i requires 0 <= i < |order| => TurnStep(Entry(turns, order[i]), U32(i + 2), result))
  }

  ghost function Steps(prompt: string, turns: Turns, result: Option<AgentResult>): seq<Step> {
    [UserStep(prompt)] + TurnSteps(turns, Order(turns.Keys), result)
  }

  method PushSteps(turns: Turns, prompt: string, result: Option<AgentResult>) returns (steps: seq<Step>)
    ensures steps == Steps(prompt, turns, result)
    ensures forall k :: 0 <= k < |steps| ==> (steps[k].source == User <==> k == 0)
  {
    var order := OrderedKeys(turns);
    steps := [UserStep(prompt)];
    for offset := 0 to |order|
      invariant steps == [UserStep(prompt)] + TurnSteps(turns, order, result)[..offset]
    {
      steps := steps + [TurnStep(turns[order[offset]], U32(offset + 2), result)];
    }
    assert TurnSteps(turns, order, result)[..|order|] == TurnSteps(turns, order, result);
  }

  /** The last model call's step closes the run, and says the final message if it says nothing. */
  function Closed(steps: seq<Step>, result: AgentResult): seq<Step> {
    if |steps| <= 1 then steps
    else
      var last := steps[|steps| - 1];
      steps[|steps| - 1 := last.(message := if last.message == "" then result.finalMessage else last.message,
                                 terminal := true)]
  }

  ghost function Completed(sessionId: Option<string>, prompt: string, turns: Turns, result: AgentResult): Trajectory {
    var steps := Closed(Steps(prompt, turns, Some(result)), result);
    Trajectory(if sessionId.Some? then sessionId.value else "", result.model, steps,
               Totals(result.prompt, result.completion, result.cached, result.durationNs, U32(|steps|),
                      result.modelCalls, result.toolCalls))
  }

  function FirstModel(turns: Turns, order: seq<nat>): Option<string> {
    if order == [] then None
    else
      var earlier := FirstModel(turns, order[..|order| - 1]);
      if earlier.Some? then earlier else Entry(turns, order[|order| - 1]).model
  }

  function MetricsOr(m: Option<Metrics>): Metrics {
    if m.Some? then m.value else Metrics(0, 0, 0, 0)
  }

  function Prompts(turns: Turns, order: seq<nat>): seq<nat> {
    seq(|order|, i requires 0 <= i < |order| => MetricsOr(Entry(turns, order[i]).metrics).prompt)
  }

  function Completions(turns: Turns, order: seq<nat>): seq<nat> {
    seq(|order|, i requires 0 <= i < |order| => MetricsOr(Entry(turns, order[i]).metrics).completion)
  }

  function Cached(turns: Turns, order: seq<nat>): seq<nat> {
    seq(|order|, i requires 0 <= i < |order| => MetricsOr(Entry(turns, order[i]).metrics).cached)
  }

  function Durations(turns: Turns, order: seq<nat>): seq<nat> {
    seq(|order|, i requires 0 <= i < |order| => MetricsOr(Entry(turns, order[i]).metrics).durationNs)
  }

  function CallCounts(turns: Turns, order: seq<nat>): seq<nat> {
    seq(|order|, i requires 0 <= i < |order| => |Entry(turns, order[i]).calls|)
  }

  lemma SumNext(all: seq<nat>, part: seq<nat>, n: nat)
    requires all == part + [n]
    ensures Sum(all) == Sum(part) + n
  {
    assert all[..|all| - 1] == part;
  }

  lemma NoSums(turns: Turns)
    ensures Sum(Prompts(turns, [])) == Sum(Completions(turns, [])) == Sum(Cached(turns, [])) == 0
    ensures Sum(Durations(turns, [])) == Sum(CallCounts(turns, [])) == 0
  {
  }

  lemma SumsNext(turns: Turns, order: seq<nat>, i: nat)
    requires i < |order|
    ensures var (t, m) := (Entry(turns, order[i]), MetricsOr(Entry(turns, order[i]).metrics));
      && Sum(Prompts(turns, order[..i + 1])) == Sum(Prompts(turns, order[..i])) + m.prompt
      && Sum(Completions(turns, order[..i + 1])) == Sum(Completions(turns, order[..i])) + m.completion
      && Sum(Cached(turns, order[..i + 1])) == Sum(Cached(turns, order[..i])) + m.cached
      && Sum(Durations(turns, order[..i + 1])) == Sum(Durations(turns, order[..i])) + m.durationNs
      && Sum(CallCounts(turns, order[..i + 1])) == Sum(CallCounts(turns, order[..i])) + |t.calls|
    ensures order[..i + 1][..i] == order[..i] && order[..i + 1][i] == order[i]
  {
    hide Sum, MetricsOr, Entry;
    var m, after, before := MetricsOr(Entry(turns, order[i]).metrics), order[..i + 1], order[..i];
    SumNext(Prompts(turns, after), Prompts(turns, before), m.prompt);
    SumNext(Completions(turns, after), Completions(turns, before), m.completion);
    SumNext(Cached(turns, after), Cached(turns, before), m.cached);
    SumNext(Durations(turns, after), Durations(turns, before), m.durationNs);
    SumNext(CallCounts(turns, after), CallCounts(turns, before), |Entry(turns, order[i]).calls|);
  }

  ghost function Failed(sessionId: Option<string>, prompt: string, turns: Turns, otherwise: string): Trajectory {
    var order, steps := Order(turns.Keys), Steps(prompt, turns, None);
    var model := FirstModel(turns, order);
    Trajectory(if sessionId.Some? then sessionId.value else "", if model.Some? then model.value else otherwise, steps,
               Totals(Sum(Prompts(turns, order)), Sum(Completions(turns, order)), Sum(Cached(turns, order)),
                      Sum(Durations(turns, order)), U32(|steps|), U32(|turns.Keys|),
                      U32(Sum(CallCounts(turns, order)))))
  }

  class AtifBuilder {
    var sessionId: Option<string>
    var turns: Turns
    var toolTurns: map<string, nat>

    constructor ()
      ensures turns == map[] && toolTurns == map[] && sessionId == None
      ensures Follows(turns, toolTurns, [])
    {
      sessionId, turns, toolTurns := None, map[], map[];
    }

    /** `apply`: the builder goes on following the stream. */
    method Apply(requestId: string, e: AgentEvent)
      modifies this
      ensures turns == AppliedTurns(old(turns), old(toolTurns), e)
      ensures toolTurns == AppliedTools(old(toolTurns), e)
      ensures forall before :: Follows(old(turns), old(toolTurns), before) ==> Follows(turns, toolTurns, before + [e])
      ensures sessionId == if old(sessionId).None? then Some(requestId) else old(sessionId)
    {
      hide Follows;
      if sessionId == None {
        sessionId := Some(requestId);
      }
      match e {
        case ModelCallStarted(k, model, effort) =>
          var turn := Entry(turns, k);
          turns := turns[k := turn.(model := Some(model), effort := Some(effort))];
        case AssistantMessage(k, text) =>
          var turn := Entry(turns, k);
          turns := turns[k := turn.(message := AppendMessage(turn.message, text))];
        case ReasoningDelta(k, text) =>
          var turn := Entry(turns, k);
          turns := turns[k := turn.(reasoning := turn.reasoning + text)];
        case ModelCallCompleted(k, model, usage) =>
          var turn := Entry(turns, k);
          turns := turns[k := turn.(model := Some(model), metrics := usage)];
        case ToolCalled(callId, k, tool, arguments) =>
          var call := ToolCall(callId, tool, ObjectArguments(arguments), k);
          toolTurns := toolTurns[callId := k];
          var turn := Entry(turns, k);
          turns := turns[k := turn.(calls := turn.calls + [call])];
        case ToolReturned(callId, status, durationNs, content) =>
          if callId in toolTurns {
            var k := toolTurns[callId];
            var observation := Observation(callId, content, status, durationNs);
            var turn := Entry(turns, k);
            turns := turns[k := turn.(observations := turn.observations + [observation])];
          }
        case Other =>
      }
      forall before | Follows(old(turns), old(toolTurns), before)
        ensures Follows(turns, toolTurns, before + [e])
      {
        FollowsNext(old(turns), old(toolTurns), before, e);
      }
    }

    /** `finish` */
    method Finish(prompt: string, result: AgentResult) returns (t: Trajectory)
      ensures t == Completed(sessionId, prompt, turns, result)
    {
      var steps := PushSteps(turns, prompt, Some(result));
      var i: nat := |steps|;
      while i > 0 && steps[i - 1].source != Agent
        invariant i <= |steps| && forall k :: i <= k < |steps| ==> steps[k].source != Agent
      {
        i := i - 1;
      }
      if i > 0 {
        var last := steps[i - 1];
        if last.message == "" {
          last := last.(message := result.finalMessage);
        }
        steps := steps[i - 1 := last.(terminal := true)];
      }
      t := Trajectory(if sessionId.Some? then sessionId.value else "", result.model, steps,
                      Totals(result.prompt, result.completion, result.cached, result.durationNs,
                             U32(|steps|), result.modelCalls, result.toolCalls));
    }

    /** `finish_failure`; `otherwise` is the model named when no call named one. */
    method FinishFailure(prompt: string, otherwise: string) returns (t: Trajectory)
      ensures t == Failed(sessionId, prompt, turns, otherwise)
    {
      hide Sum, Prompts, Completions, Cached, Durations, CallCounts, Steps, Order;
      var order := OrderedKeys(turns);
      NoSums(turns);
      var model: Option<string> := None;
      var totals := Totals(0, 0, 0, 0, 0, 0, 0);
      var tools := 0;
      for i := 0 to |order|
        invariant model == FirstModel(turns, order[..i])
        invariant totals == Totals(Sum(Prompts(turns, order[..i])), Sum(Completions(turns, order[..i])),
                                   Sum(Cached(turns, order[..i])), Sum(Durations(turns, order[..i])), 0, 0, 0)
        invariant tools == Sum(CallCounts(turns, order[..i]))
      {
        var turn := turns[order[i]];
        SumsNext(turns, order, i);
        if model == None {
          model := turn.model;
        }
        if turn.metrics.Some? {
          var m := turn.metrics.value;
          totals := Totals(totals.prompt + m.prompt, totals.completion + m.completion, totals.cached + m.cached,
                           totals.durationNs + m.durationNs, 0, 0, 0);
        }
        tools := tools + |turn.calls|;
      }
      assert order[..|order|] == order;
      var steps := PushSteps(turns, prompt, None);
      t := Trajectory(if sessionId.Some? then sessionId.value else "", if model.Some? then model.value else otherwise,
                      steps, totals.(steps := U32(|steps|), modelCalls := U32(|turns.Keys|), toolCalls := U32(tools)));
    }
  }

  lemma FollowsNext(turns: Turns, toolTurns: map<string, nat>, before: seq<AgentEvent>, e: AgentEvent)
    requires Follows(turns, toolTurns, before)
    ensures Follows(AppliedTurns(turns, toolTurns, e), AppliedTools(toolTurns, e), before + [e])
  {
    hide Updated;
    var after, nextTurns, nextTools := before + [e], AppliedTurns(turns, toolTurns, e), AppliedTools(toolTurns, e);
    assert after[..|before|] == before && after[|before|] == e;
    assert Target(toolTurns, e) == Belongs(before, e);
    assert nextTurns.Keys == Indexes(after);
    forall k: nat
      ensures Entry(nextTurns, k) == TurnOf(after, k)
    {
      assert Entry(turns, k) == TurnOf(before, k);
    }
    forall id
      ensures id in nextTools <==> CallerOf(after, id).Some?
      ensures id in nextTools ==> CallerOf(after, id) == Some(nextTools[id])
    {
    }
  }

  // ------------------------------------------------------------------
  // A whole stream
  // ------------------------------------------------------------------

  /** What a builder holds after a stream of events. */
  function ToolsAfter(events: seq<AgentEvent>): map<string, nat> {
    if events == [] then map[]
    else AppliedTools(ToolsAfter(events[..|events| - 1]), events[|events| - 1])
  }

  function TurnsAfter(events: seq<AgentEvent>): Turns {
    if events == [] then map[]
    else
      var init := events[..|events| - 1];
      AppliedTurns(TurnsAfter(init), ToolsAfter(init), events[|events| - 1])
  }

  lemma {:induction false} StreamFollowed(events: seq<AgentEvent>)
    ensures Follows(TurnsAfter(events), ToolsAfter(events), events)
  {
    if events != [] {
      var init := events[..|events| - 1];
      StreamFollowed(init);
      FollowsNext(TurnsAfter(init), ToolsAfter(init), init, events[|events| - 1]);
      assert init + [events[|events| - 1]] == events;
    }
  }

  datatype Ending = Finishes(result: AgentResult) | Fails(otherwise: string)

  function SessionOf(requests: seq<string>): Option<string> {
    if requests == [] then None else Some(requests[0])
  }

  /** The trajectory of an attempt whose events came with these request identifiers. */
  ghost function TrajectoryOf(requests: seq<string>, prompt: string, events: seq<AgentEvent>, ending: Ending)
    : Trajectory
  {
    match ending
    case Finishes(result) => Completed(SessionOf(requests), prompt, TurnsAfter(events), result)
    case Fails(otherwise) => Failed(SessionOf(requests), prompt, TurnsAfter(events), otherwise)
  }

  /** An attempt's events applied one by one to a new builder, and its ending. */
  method Project(requests: seq<string>, prompt: string, events: seq<AgentEvent>, ending: Ending)
    returns (t: Trajectory)
    requires |requests| == |events|
    ensures t == TrajectoryOf(requests, prompt, events, ending)
  {
    hide AppliedTurns, AppliedTools, Completed, Failed, Follows;
    var builder := new AtifBuilder();
    for i := 0 to |events|
      invariant builder.turns == TurnsAfter(events[..i]) && builder.toolTurns == ToolsAfter(events[..i])
      invariant builder.sessionId == SessionOf(requests[..i])
    {
      assert events[..i + 1][..i] == events[..i];
      builder.Apply(requests[i], events[i]);
    }
    assert events[..|events|] == events && requests[..|events|] == requests;
    match ending {
      case Finishes(result) => t := builder.Finish(prompt, result);
      case Fails(otherwise) => t := builder.FinishFailure(prompt, otherwise);
    }
  }

  // ------------------------------------------------------------------
  // What a trajectory says of the stream
  // ------------------------------------------------------------------

  /** Both ways of finishing give these steps, up to the last one's message and closing mark. */
  ghost predicate StepsOf(steps: seq<Step>, turns: Turns) {
    && |steps| == |turns.Keys| + 1 == |Order(turns.Keys)| + 1 && steps[0].source == User
    && steps[0].calls == None && steps[0].observation == None
    && (forall k :: 0 <= k < |steps| ==> steps[k].id == U32(k + 1))
    && (forall k :: 0 < k < |steps| ==> StepOfTurn(steps[k], Entry(turns, Order(turns.Keys)[k - 1])))
  }

  predicate StepOfTurn(s: Step, t: Turn) {
    && s.source == Agent && s.metrics == t.metrics
    && s.calls == NonEmpty(t.calls) && s.observation == NonEmpty(t.observations)
    && s.reasoning == NonEmpty(t.reasoning)
  }

  lemma StepsShape(prompt: string, turns: Turns, result: Option<AgentResult>)
    ensures StepsOf(Steps(prompt, turns, result), turns)
  {
    hide Order, Entry, TurnStep, StepOfTurn, U32;
    OrderAscends(turns.Keys);
    var steps, order := Steps(prompt, turns, result), Order(turns.Keys);
    assert U32(1) == 1 by {
      FirstIsOne();
    }
    forall k | 0 < k < |steps|
      ensures steps[k].id == U32(k + 1) && StepOfTurn(steps[k], Entry(turns, order[k - 1]))
    {
      TurnStepShape(Entry(turns, order[k - 1]), U32(k + 1), result);
    }
  }

  lemma FirstIsOne()
    ensures U32(1) == 1
  {
  }

  lemma TurnStepShape(t: Turn, id: nat, result: Option<AgentResult>)
    ensures StepOfTurn(TurnStep(t, id, result), t) && TurnStep(t, id, result).id == id
  {
  }

  lemma TrajectoryShape(sessionId: Option<string>, prompt: string, turns: Turns, result: AgentResult, otherwise: string)
    ensures StepsOf(Completed(sessionId, prompt, turns, result).steps, turns)
    ensures StepsOf(Failed(sessionId, prompt, turns, otherwise).steps, turns)
    ensures Completed(sessionId, prompt, turns, result).totals.steps == U32(|turns.Keys| + 1)
  {
    hide Steps, FirstModel, Sum;
    OrderAscends(turns.Keys);
    StepsShape(prompt, turns, Some(result));
    StepsShape(prompt, turns, None);
  }

  lemma StepsFollow(steps: seq<Step>, turns: Turns, toolTurns: map<string, nat>, events: seq<AgentEvent>)
    requires StepsOf(steps, turns) && Follows(turns, toolTurns, events)
    ensures |steps| == |Indexes(events)| + 1 && Ascending(Order(Indexes(events)))
    ensures |steps| <= U32_MAX ==> forall k :: 0 <= k < |steps| ==> steps[k].id == k + 1
    ensures forall k :: 0 < k < |steps| ==>
      && k - 1 < |Order(Indexes(events))|
      && Listed(steps[k].calls) == CallsOf(events, Order(Indexes(events))[k - 1])
      && Listed(steps[k].observation) == ObservationsOf(events, Order(Indexes(events))[k - 1])
  {
    hide Order, Indexes, TurnOf, CallsOf, ObservationsOf;
    OrderAscends(turns.Keys);
    var order := Order(turns.Keys);
    forall k | 0 < k < |steps|
      ensures Listed(steps[k].calls) == CallsOf(events, order[k - 1])
      ensures Listed(steps[k].observation) == ObservationsOf(events, order[k - 1])
    {
      assert Entry(turns, order[k - 1]) == TurnOf(events, order[k - 1]);
      TurnHolds(events, order[k - 1]);
      assert StepOfTurn(steps[k], Entry(turns, order[k - 1]));
    }
  }

  lemma {:induction false} CallerHasCall(events: seq<AgentEvent>, id: string)
    requires CallerOf(events, id).Some?
    ensures exists c :: c in CallsOf(events, CallerOf(events, id).value) && c.id == id
  {
    var k := CallerOf(events, id).value;
    var init, last := events[..|events| - 1], events[|events| - 1];
    if last.ToolCalled? && last.callId == id {
      assert CallsOf(events, k)[|CallsOf(events, k)| - 1] == CallOf(last);
      assert CallOf(last) in CallsOf(events, k);
    } else {
      CallerHasCall(init, id);
      var c :| c in CallsOf(init, k) && c.id == id;
      assert c in CallsOf(events, k);
    }
  }

  /** Every result is with a call of its tool. */
  lemma {:induction false} ResultHasCall(events: seq<AgentEvent>, k: nat, o: Observation)
    requires o in ObservationsOf(events, k)
    ensures exists c :: c in CallsOf(events, k) && c.id == o.callId
  {
    var init, last := events[..|events| - 1], events[|events| - 1];
    if o in ObservationsOf(init, k) {
      ResultHasCall(init, k, o);
    } else {
      CallerHasCall(init, last.callId);
    }
    var c :| c in CallsOf(init, k) && c.id == o.callId;
    assert c in CallsOf(events, k);
  }

  lemma ObservationsCalled(steps: seq<Step>, turns: Turns, toolTurns: map<string, nat>, events: seq<AgentEvent>,
      k: nat, o: Observation)
    requires StepsOf(steps, turns) && Follows(turns, toolTurns, events)
    requires k < |steps| && o in Listed(steps[k].observation)
    ensures exists c :: c in Listed(steps[k].calls) && c.id == o.callId
  {
    hide Order, Indexes, CallsOf, ObservationsOf, Follows;
    StepsFollow(steps, turns, toolTurns, events);
    ResultHasCall(events, Order(Indexes(events))[k - 1], o);
  }

  function AllCalls(events: seq<AgentEvent>): nat {
    if events == [] then 0
    else AllCalls(events[..|events| - 1]) + if events[|events| - 1].ToolCalled? then 1 else 0
  }

  /** The results whose tool had been called before. */
  function AllResults(events: seq<AgentEvent>): nat {
    if events == [] then 0
    else
      var init, last := events[..|events| - 1], events[|events| - 1];
      AllResults(init) + if last.ToolReturned? && CallerOf(init, last.callId).Some? then 1 else 0
  }

  function CallSizes(events: seq<AgentEvent>, order: seq<nat>): seq<nat> {
    seq(|order|, i requires 0 <= i < |order| => |CallsOf(events, order[i])|)
  }

  function ResultSizes(events: seq<AgentEvent>, order: seq<nat>): seq<nat> {
    seq(|order|, i requires 0 <= i < |order| => |ObservationsOf(events, order[i])|)
  }

  /** Counting by model call misses nothing and counts nothing twice. */
  lemma {:induction false} SizesAddUp(events: seq<AgentEvent>, order: seq<nat>)
    requires Ascending(order) && forall k :: k in Indexes(events) ==> k in order
    ensures Sum(CallSizes(events, order)) == AllCalls(events)
    ensures Sum(ResultSizes(events, order)) == AllResults(events)
  {
    if events == [] {
      SumZero(CallSizes(events, order));
      SumZero(ResultSizes(events, order));
    } else {
      var init, last := events[..|events| - 1], events[|events| - 1];
      SizesAddUp(init, order);
      var k := Belongs(init, last);
      if k.Some? {
        assert k.value in Indexes(events);
        var p :| 0 <= p < |order| && order[p] == k.value;
        OneSizeGrows(events, order, p);
      } else {
        assert CallSizes(events, order) == CallSizes(init, order);
        assert ResultSizes(events, order) == ResultSizes(init, order);
      }
    }
  }

  lemma CallSizesNext(events: seq<AgentEvent>, order: seq<nat>, p: nat)
    requires events != [] && Ascending(order) && p < |order|
    requires Belongs(events[..|events| - 1], events[|events| - 1]) == Some(order[p])
    ensures var (w, last) := (CallSizes(events[..|events| - 1], order), events[|events| - 1]);
      CallSizes(events, order) == w[p := w[p] + if last.ToolCalled? then 1 else 0]
  {
  }

  lemma ResultSizesNext(events: seq<AgentEvent>, order: seq<nat>, p: nat)
    requires events != [] && Ascending(order) && p < |order|
    requires Belongs(events[..|events| - 1], events[|events| - 1]) == Some(order[p])
    ensures var (w, last) := (ResultSizes(events[..|events| - 1], order), events[|events| - 1]);
      ResultSizes(events, order) == w[p := w[p] + if last.ToolReturned? then 1 else 0]
  {
  }

  lemma OneSizeGrows(events: seq<AgentEvent>, order: seq<nat>, p: nat)
    requires events != [] && Ascending(order) && p < |order|
    requires Belongs(events[..|events| - 1], events[|events| - 1]) == Some(order[p])
    ensures var (init, last) := (events[..|events| - 1], events[|events| - 1]);
      && Sum(CallSizes(events, order)) == Sum(CallSizes(init, order)) + (if last.ToolCalled? then 1 else 0)
      && Sum(ResultSizes(events, order)) == Sum(ResultSizes(init, order)) + (if last.ToolReturned? then 1 else 0)
  {
    hide CallsOf, ObservationsOf, Belongs, Sum;
    var init, last := events[..|events| - 1], events[|events| - 1];
    CallSizesNext(events, order, p);
    ResultSizesNext(events, order, p);
    SumUpdate(CallSizes(init, order), p, |CallsOf(init, order[p])| + if last.ToolCalled? then 1 else 0);
    SumUpdate(ResultSizes(init, order), p, |ObservationsOf(init, order[p])| + if last.ToolReturned? then 1 else 0);
  }

  function StepCalls(steps: seq<Step>): seq<nat> {
    seq(|steps|, i requires 0 <= i < |steps| => |Listed(steps[i].calls)|)
  }

  function StepResults(steps: seq<Step>): seq<nat> {
    seq(|steps|, i requires 0 <= i < |steps| => |Listed(steps[i].observation)|)
  }

  lemma {:induction false} SumShifted(w: seq<nat>, v: seq<nat>)
    requires w == [0] + v
    ensures Sum(w) == Sum(v)
  {
    if v != [] {
      assert w[..|w| - 1] == [0] + v[..|v| - 1];
      SumShifted(w[..|w| - 1], v[..|v| - 1]);
    }
  }

  lemma StepSizes(steps: seq<Step>, turns: Turns, toolTurns: map<string, nat>, events: seq<AgentEvent>)
    requires StepsOf(steps, turns) && Follows(turns, toolTurns, events)
    ensures StepCalls(steps) == [0] + CallSizes(events, Order(Indexes(events)))
    ensures StepResults(steps) == [0] + ResultSizes(events, Order(Indexes(events)))
  {
    hide Order, CallsOf, ObservationsOf, Indexes, TurnOf;
    StepsFollow(steps, turns, toolTurns, events);
  }

  lemma CountsFollow(steps: seq<Step>, turns: Turns, toolTurns: map<string, nat>, events: seq<AgentEvent>)
    requires StepsOf(steps, turns) && Follows(turns, toolTurns, events)
    ensures Sum(StepCalls(steps)) == AllCalls(events)
    ensures Sum(StepResults(steps)) == AllResults(events)
  {
    hide Order, Sum, CallsOf, ObservationsOf, Indexes, TurnOf, AllCalls, AllResults, StepCalls, StepResults;
    var order := Order(Indexes(events));
    OrderAscends(Indexes(events));
    forall k | k in Indexes(events)
      ensures k in order
    {
      InOrder(Indexes(events), k);
    }
    SizesAddUp(events, order);
    StepSizes(steps, turns, toolTurns, events);
    SumShifted(StepCalls(steps), CallSizes(events, order));
    SumShifted(StepResults(steps), ResultSizes(events, order));
  }

  function StepPrompts(steps: seq<Step>): seq<nat> {
    seq(|steps|, i requires 0 <= i < |steps| => if steps[i].metrics.Some? then steps[i].metrics.value.prompt else 0)
  }

  function StepCompletions(steps: seq<Step>): seq<nat> {
    seq(|steps|, i requires 0 <= i < |steps| => if steps[i].metrics.Some? then steps[i].metrics.value.completion else 0)
  }

  function StepCached(steps: seq<Step>): seq<nat> {
    seq(|steps|, i requires 0 <= i < |steps| => if steps[i].metrics.Some? then steps[i].metrics.value.cached else 0)
  }

  function StepDurations(steps: seq<Step>): seq<nat> {
    seq(|steps|, i requires 0 <= i < |steps| => if steps[i].metrics.Some? then steps[i].metrics.value.durationNs else 0)
  }

  /** A failed attempt's totals are the sums over its steps. */
  lemma FailureTotals(sessionId: Option<string>, prompt: string, turns: Turns, otherwise: string)
    ensures var t := Failed(sessionId, prompt, turns, otherwise);
      && t.totals.prompt == Sum(StepPrompts(t.steps))
      && t.totals.completion == Sum(StepCompletions(t.steps))
      && t.totals.cached == Sum(StepCached(t.steps))
      && t.totals.durationNs == Sum(StepDurations(t.steps))
      && t.totals.toolCalls == U32(Sum(StepCalls(t.steps)))
      && t.totals.steps == U32(|t.steps|) && t.totals.modelCalls == U32(|t.steps| - 1)
  {
    hide Order, Sum, FirstModel, Entry;
    var t, order := Failed(sessionId, prompt, turns, otherwise), Order(turns.Keys);
    OrderAscends(turns.Keys);
    assert StepPrompts(t.steps) == [0] + Prompts(turns, order);
    assert StepCompletions(t.steps) == [0] + Completions(turns, order);
    assert StepCached(t.steps) == [0] + Cached(turns, order);
    assert StepDurations(t.steps) == [0] + Durations(turns, order);
    assert StepCalls(t.steps) == [0] + CallCounts(turns, order);
    SumShifted(StepPrompts(t.steps), Prompts(turns, order));
    SumShifted(StepCompletions(t.steps), Completions(turns, order));
    SumShifted(StepCached(t.steps), Cached(turns, order));
    SumShifted(StepDurations(t.steps), Durations(turns, order));
    SumShifted(StepCalls(t.steps), CallCounts(turns, order));
  }

  // ------------------------------------------------------------------
  // Every stream
  // ------------------------------------------------------------------

  lemma StreamSteps(requests: seq<string>, prompt: string, events: seq<AgentEvent>, ending: Ending)
    ensures StepsOf(TrajectoryOf(requests, prompt, events, ending).steps, TurnsAfter(events))
  {
    hide Completed, Failed, StepsOf, TurnsAfter;
    var any := AgentResult("", "", "", 0, 0, 0, 0, 0, 0);
    match ending
    case Finishes(result) => TrajectoryShape(SessionOf(requests), prompt, TurnsAfter(events), result, "");
    case Fails(otherwise) => TrajectoryShape(SessionOf(requests), prompt, TurnsAfter(events), any, otherwise);
  }

  /** Main result: for every stream, steps are numbered from 1, the agent's in ascending
      call index, and each holds exactly its call's tools and results, in the order they came. */
  lemma StepsFollowStream(requests: seq<string>, prompt: string, events: seq<AgentEvent>, ending: Ending)
    ensures var steps := TrajectoryOf(requests, prompt, events, ending).steps;
      && |steps| == |Indexes(events)| + 1 && Ascending(Order(Indexes(events)))
      && |Order(Indexes(events))| == |Indexes(events)|
      && (forall k :: k in Order(Indexes(events)) <==> k in Indexes(events))
      && (|steps| <= U32_MAX ==> forall k :: 0 <= k < |steps| ==> steps[k].id == k + 1)
      && (forall k :: 0 < k < |steps| ==>
            && Listed(steps[k].calls) == CallsOf(events, Order(Indexes(events))[k - 1])
            && Listed(steps[k].observation) == ObservationsOf(events, Order(Indexes(events))[k - 1]))
  {
    hide Order, Indexes, CallsOf, ObservationsOf, Follows, StepsOf, TrajectoryOf, TurnsAfter, ToolsAfter;
    StreamFollowed(events);
    StreamSteps(requests, prompt, events, ending);
    StepsFollow(TrajectoryOf(requests, prompt, events, ending).steps, TurnsAfter(events), ToolsAfter(events), events);
    OrderAscends(Indexes(events));
    forall k: nat
      ensures k in Order(Indexes(events)) <==> k in Indexes(events)
    {
      InOrder(Indexes(events), k);
    }
  }

  /** Main result: in every trajectory each observation lies in a step with a tool call
      of the same identifier. */
  lemma ObservationsHaveCalls(requests: seq<string>, prompt: string, events: seq<AgentEvent>, ending: Ending,
      k: nat, o: Observation)
    requires k < |TrajectoryOf(requests, prompt, events, ending).steps|
    requires o in Listed(TrajectoryOf(requests, prompt, events, ending).steps[k].observation)
    ensures exists c :: c in Listed(TrajectoryOf(requests, prompt, events, ending).steps[k].calls) && c.id == o.callId
  {
    hide Follows, StepsOf, TrajectoryOf, TurnsAfter, ToolsAfter;
    StreamFollowed(events);
    StreamSteps(requests, prompt, events, ending);
    ObservationsCalled(TrajectoryOf(requests, prompt, events, ending).steps, TurnsAfter(events), ToolsAfter(events),
                       events, k, o);
  }

  /** Main result: over all steps of every trajectory the tool calls are the stream's, and
      the results are the stream's whose call came earlier (`tool_call_count`,
      `observation_count`). */
  lemma CountsConserved(requests: seq<string>, prompt: string, events: seq<AgentEvent>, ending: Ending)
    ensures Sum(StepCalls(TrajectoryOf(requests, prompt, events, ending).steps)) == AllCalls(events)
    ensures Sum(StepResults(TrajectoryOf(requests, prompt, events, ending).steps)) == AllResults(events)
  {
    hide Follows, StepsOf, TrajectoryOf, TurnsAfter, ToolsAfter, AllCalls, AllResults, Sum;
    StreamFollowed(events);
    StreamSteps(requests, prompt, events, ending);
    CountsFollow(TrajectoryOf(requests, prompt, events, ending).steps, TurnsAfter(events), ToolsAfter(events), events);
  }

  // ------------------------------------------------------------------
  // What the steps say
  // ------------------------------------------------------------------

  /** The nonempty messages of model call `k`, and its reasoning put together. */
  function Messages(events: seq<AgentEvent>, k: nat): seq<string> {
    if events == [] then []
    else
      var last := events[|events| - 1];
      Messages(events[..|events| - 1], k)
      + if last.AssistantMessage? && last.callIndex == k && last.text != "" then [last.text] else []
  }

  function Paragraphs(messages: seq<string>): string {
    if messages == [] then ""
    else if |messages| == 1 then messages[0]
    else Paragraphs(messages[..|messages| - 1]) + "\n\n" + messages[|messages| - 1]
  }

  function Reasoning(events: seq<AgentEvent>, k: nat): string {
    if events == [] then ""
    else
      var last := events[|events| - 1];
      Reasoning(events[..|events| - 1], k) + if last.ReasoningDelta? && last.callIndex == k then last.text else ""
  }

  /** The model, effort and usage call `k` was last reported with. */
  function LastModel(events: seq<AgentEvent>, k: nat): Option<string> {
    if events == [] then None
    else
      var last := events[|events| - 1];
      if (last.ModelCallStarted? || last.ModelCallCompleted?) && last.callIndex == k then Some(last.model)
      else LastModel(events[..|events| - 1], k)
  }

  function LastEffort(events: seq<AgentEvent>, k: nat): Option<string> {
    if events == [] then None
    else
      var last := events[|events| - 1];
      if last.ModelCallStarted? && last.callIndex == k then Some(last.effort)
      else LastEffort(events[..|events| - 1], k)
  }

  function LastUsage(events: seq<AgentEvent>, k: nat): Option<Metrics> {
    if events == [] then None
    else
      var last := events[|events| - 1];
      if last.ModelCallCompleted? && last.callIndex == k then last.usage
      else LastUsage(events[..|events| - 1], k)
  }

  lemma {:induction false} ParagraphsSay(messages: seq<string>)
    requires messages != [] && forall i :: 0 <= i < |messages| ==> messages[i] != ""
    ensures Paragraphs(messages) != ""
  {
  }

  lemma {:induction false} MessagesSay(events: seq<AgentEvent>, k: nat)
    ensures forall i :: 0 <= i < |Messages(events, k)| ==> Messages(events, k)[i] != ""
  {
    if events != [] {
      MessagesSay(events[..|events| - 1], k);
    }
  }

  lemma ParagraphsSnoc(messages: seq<string>, text: string)
    requires messages != []
    ensures Paragraphs(messages + [text]) == Paragraphs(messages) + "\n\n" + text
  {
    assert (messages + [text])[..|messages|] == messages;
  }

  lemma ParagraphsNext(messages: seq<string>, text: string)
    requires forall i :: 0 <= i < |messages| ==> messages[i] != ""
    ensures AppendMessage(Paragraphs(messages), text)
         == Paragraphs(messages + if text != "" then [text] else [])
  {
    if text == "" {
      assert messages + [] == messages;
    } else if messages == [] {
      assert messages + [text] == [text];
    } else {
      ParagraphsSay(messages);
      ParagraphsSnoc(messages, text);
      hide Paragraphs;
    }
  }

  /** A turn says what the events of its call said. */
  lemma {:induction false} TurnSays(events: seq<AgentEvent>, k: nat)
    ensures var t := TurnOf(events, k);
      && t.message == Paragraphs(Messages(events, k)) && t.reasoning == Reasoning(events, k)
      && t.model == LastModel(events, k) && t.effort == LastEffort(events, k) && t.metrics == LastUsage(events, k)
  {
    hide Paragraphs, AppendMessage, CallerOf;
    if events == [] {
      NothingSaid();
    } else {
      var init, last := events[..|events| - 1], events[|events| - 1];
      TurnSays(init, k);
      MessagesSay(init, k);
      assert Messages(init, k) + [] == Messages(init, k);
      if last.AssistantMessage? && last.callIndex == k {
        ParagraphsNext(Messages(init, k), last.text);
      }
    }
  }

  lemma NothingSaid()
    ensures Paragraphs([]) == ""
  {
  }

  /** The step of model call `c`; `closing` is the attempt's result when it is the last step. */
  ghost predicate SaysTurn(step: Step, events: seq<AgentEvent>, c: nat, result: Option<AgentResult>, closing: bool) {
    var said := Paragraphs(Messages(events, c));
    && step.source == Agent
    && step.message == (if closing && said == "" && result.Some? then result.value.finalMessage else said)
    && step.reasoning == (if Reasoning(events, c) == "" then None else Some(Reasoning(events, c)))
    && step.calls == (if CallsOf(events, c) == [] then None else Some(CallsOf(events, c)))
    && step.observation == (if ObservationsOf(events, c) == [] then None else Some(ObservationsOf(events, c)))
    && step.model == (if LastModel(events, c).None? && result.Some? then Some(result.value.model)
                      else LastModel(events, c))
    && step.effort == (if LastEffort(events, c).None? && result.Some? then Some(result.value.effort)
                       else LastEffort(events, c))
    && step.metrics == LastUsage(events, c)
    && step.terminal == (closing && result.Some?)
  }

  lemma TurnStepSays(events: seq<AgentEvent>, c: nat, id: nat, result: Option<AgentResult>)
    ensures SaysTurn(TurnStep(TurnOf(events, c), id, result), events, c, result, false)
  {
    hide TurnOf, Paragraphs, Messages, Reasoning, LastModel, LastEffort, LastUsage, CallsOf, ObservationsOf;
    TurnSays(events, c);
    TurnHolds(events, c);
  }

  lemma ClosedSays(step: Step, events: seq<AgentEvent>, c: nat, result: AgentResult)
    requires SaysTurn(step, events, c, Some(result), false)
    ensures SaysTurn(step.(message := if step.message == "" then result.finalMessage else step.message,
                           terminal := true), events, c, Some(result), true)
  {
    hide Paragraphs, Messages, Reasoning, LastModel, LastEffort, LastUsage;
  }

  function ResultOf(ending: Ending): Option<AgentResult> {
    if ending.Finishes? then Some(ending.result) else None
  }

  /** Main result: for every stream and ending, the first step is the prompt and each other
      one says what its model call's events said; a completed attempt's last step closes
      it, with the final message where nothing was said. */
  lemma StepsSay(requests: seq<string>, prompt: string, events: seq<AgentEvent>, ending: Ending, k: nat)
    requires k < |TrajectoryOf(requests, prompt, events, ending).steps|
    ensures var steps := TrajectoryOf(requests, prompt, events, ending).steps;
      && |steps| == |Order(Indexes(events))| + 1
      && steps[0] == UserStep(prompt) && steps[0].message == prompt && steps[0].source == User && !steps[0].terminal
      && (k > 0 ==> SaysTurn(steps[k], events, Order(Indexes(events))[k - 1], ResultOf(ending), k == |steps| - 1))
  {
    hide SaysTurn, TurnOf, Order, TurnStep, Entry, Indexes, U32, FirstModel, Sum;
    StreamFollowed(events);
    var result, order := ResultOf(ending), Order(Indexes(events));
    var plain := Steps(prompt, TurnsAfter(events), result);
    if k > 0 {
      assert Entry(TurnsAfter(events), order[k - 1]) == TurnOf(events, order[k - 1]);
      TurnStepSays(events, order[k - 1], U32(k + 1), result);
      assert plain[k] == TurnStep(TurnOf(events, order[k - 1]), U32(k + 1), result);
      if ending.Finishes? {
        ClosedSays(plain[k], events, order[k - 1], ending.result);
      } else {
        FailedSays(plain[k], events, order[k - 1]);
      }
    }
  }

  lemma FailedSays(step: Step, events: seq<AgentEvent>, c: nat)
    requires SaysTurn(step, events, c, None, false)
    ensures SaysTurn(step, events, c, None, true)
  {
    hide Paragraphs, Messages, Reasoning, LastModel, LastEffort, LastUsage;
  }

  /** A completed attempt's totals, model and session are those reported for it. */
  lemma CompletedTotals(requests: seq<string>, prompt: string, events: seq<AgentEvent>, result: AgentResult)
    ensures var t := TrajectoryOf(requests, prompt, events, Finishes(result));
      && t.model == result.model && (requests != [] ==> t.sessionId == requests[0])
      && t.totals.prompt == result.prompt && t.totals.completion == result.completion
      && t.totals.cached == result.cached && t.totals.durationNs == result.durationNs
      && t.totals.modelCalls == result.modelCalls && t.totals.toolCalls == result.toolCalls
      && t.totals.steps == U32(|t.steps|)
  {
    hide Steps;
  }

  /** A failed attempt is named after the first call that named a model. */
  lemma FailedModel(requests: seq<string>, prompt: string, events: seq<AgentEvent>, otherwise: string)
    ensures var order := Order(Indexes(events));
      var model := TrajectoryOf(requests, prompt, events, Fails(otherwise)).model;
      if forall i :: 0 <= i < |order| ==> LastModel(events, order[i]).None? then model == otherwise
      else exists i :: 0 <= i < |order| && LastModel(events, order[i]) == Some(model)
                       && forall j :: 0 <= j < i ==> LastModel(events, order[j]).None?
  {
    hide *;
    var turns, order := TurnsAfter(events), Order(Indexes(events));
    FailedName(requests, prompt, events, otherwise);
    ModelsNamed(events);
    FirstModelIsFirst(turns, order);
    if FirstModel(turns, order).Some? {
      var i :| 0 <= i < |order| && Entry(turns, order[i]).model == FirstModel(turns, order)
               && forall j :: 0 <= j < i ==> Entry(turns, order[j]).model.None?;
      assert LastModel(events, order[i]) == FirstModel(turns, order);
    }
  }

  lemma FailedName(requests: seq<string>, prompt: string, events: seq<AgentEvent>, otherwise: string)
    ensures var first := FirstModel(TurnsAfter(events), Order(Indexes(events)));
      TrajectoryOf(requests, prompt, events, Fails(otherwise)).model == if first.Some? then first.value else otherwise
  {
    hide Steps, Sum, Order, Indexes, FirstModel;
    StreamFollowed(events);
  }

  lemma ModelsNamed(events: seq<AgentEvent>)
    ensures var order := Order(Indexes(events));
      forall i :: 0 <= i < |order| ==> Entry(TurnsAfter(events), order[i]).model == LastModel(events, order[i])
  {
    hide Order, Indexes, TurnOf, LastModel, Entry;
    StreamFollowed(events);
    var turns, order := TurnsAfter(events), Order(Indexes(events));
    forall i | 0 <= i < |order|
      ensures Entry(turns, order[i]).model == LastModel(events, order[i])
    {
      TurnSays(events, order[i]);
      assert Entry(turns, order[i]) == TurnOf(events, order[i]);
    }
  }

  lemma {:induction false} FirstModelIsFirst(turns: Turns, order: seq<nat>)
    ensures FirstModel(turns, order).None? <==> forall i :: 0 <= i < |order| ==> Entry(turns, order[i]).model.None?
    ensures FirstModel(turns, order).Some? ==>
      exists i :: 0 <= i < |order| && Entry(turns, order[i]).model == FirstModel(turns, order)
                  && forall j :: 0 <= j < i ==> Entry(turns, order[j]).model.None?
  {
    hide Entry;
    if order != [] {
      var init := order[..|order| - 1];
      FirstModelIsFirst(turns, init);
      assert forall i :: 0 <= i < |init| ==> init[i] == order[i];
    }
  }

  // ------------------------------------------------------------------
  // Where the calls and results of a stream go
  // ------------------------------------------------------------------

  /** `e` speaks of model call `k` itself. */
  predicate Concerns(e: AgentEvent, k: nat) {
    !e.ToolReturned? && !e.Other? && e.callIndex == k
  }

  lemma {:induction false} CallerCalled(events: seq<AgentEvent>, id: string)
    ensures CallerOf(events, id).Some? ==>
      exists i :: 0 <= i < |events| && Concerns(events[i], CallerOf(events, id).value)
  {
    if events != [] {
      var last := |events| - 1;
      if events[last].ToolCalled? && events[last].callId == id {
        assert Concerns(events[last], events[last].callIndex);
      } else {
        CallerCalled(events[..last], id);
      }
    }
  }

  /** There is a step for each model call some event speaks of. */
  lemma {:induction false} IndexesExact(events: seq<AgentEvent>, k: nat)
    ensures k in Indexes(events) <==> exists i :: 0 <= i < |events| && Concerns(events[i], k)
  {
    if events != [] {
      var last := |events| - 1;
      var init := events[..last];
      IndexesExact(init, k);
      assert forall i :: 0 <= i < last ==> init[i] == events[i];
      if events[last].ToolReturned? {
        CallerCalled(init, events[last].callId);
      }
      if Concerns(events[last], k) {
        assert k in Indexes(events);
      }
    }
  }

  /** The first character of `raw` that is not whitespace opens an object. */
  predicate OpensObject(raw: string) {
    exists j :: 0 <= j < |raw| && raw[j] == '{' && forall i :: 0 <= i < j ==> Text.Whitespace(raw[i])
  }

  lemma {:induction false} TrimmedOpens(raw: string)
    ensures OpensObject(raw) <==> Text.TrimStart(raw) != "" && Text.TrimStart(raw)[0] == '{'
  {
    if raw != "" && Text.Whitespace(raw[0]) {
      var rest := raw[1..];
      TrimmedOpens(rest);
      if OpensObject(rest) {
        var j :| 0 <= j < |rest| && rest[j] == '{' && forall i :: 0 <= i < j ==> Text.Whitespace(rest[i]);
        assert raw[j + 1] == '{' && forall i :: 0 < i < j + 1 ==> raw[i] == rest[i - 1];
      }
      if OpensObject(raw) {
        var j :| 0 <= j < |raw| && raw[j] == '{' && forall i :: 0 <= i < j ==> Text.Whitespace(raw[i]);
        assert j > 0 && rest[j - 1] == '{' && forall i :: 0 <= i < j - 1 ==> rest[i] == raw[i + 1];
      }
    }
  }

  /** Main result: the call an event makes comes, in the step of its model call, after those
      made before; its arguments are the event's, in an object if they are none. */
  lemma {:induction false} CallInPlace(events: seq<AgentEvent>, i: nat)
    requires i < |events| && events[i].ToolCalled?
    ensures var (e, k) := (events[i], events[i].callIndex);
      var n := |CallsOf(events[..i], k)|;
      && n < |CallsOf(events, k)| && |CallsOf(events[..i + 1], k)| == n + 1
      && CallsOf(events, k)[n].id == e.callId && CallsOf(events, k)[n].name == e.tool
      && CallsOf(events, k)[n].callIndex == k
      && CallsOf(events, k)[n].arguments
         == if OpensObject(e.rawArguments) then e.rawArguments else "{\"raw\":" + e.rawArguments + "}"
  {
    hide OpensObject;
    var init := events[..|events| - 1];
    TrimmedOpens(events[i].rawArguments);
    if i < |init| {
      CallInPlace(init, i);
      assert init[..i] == events[..i] && init[..i + 1] == events[..i + 1];
    } else {
      assert events[..i + 1] == events && events[..i] == init;
    }
  }

  /** The last call with the identifier is the result's. */
  ghost predicate Calls(events: seq<AgentEvent>, i: nat, j: nat)
    requires j < i < |events| && events[i].ToolReturned?
  {
    && events[j].ToolCalled? && events[j].callId == events[i].callId
    && forall m :: j < m < i && events[m].ToolCalled? ==> events[m].callId != events[i].callId
  }

  lemma {:induction false} LastCaller(events: seq<AgentEvent>, id: string, j: nat)
    requires j < |events| && events[j].ToolCalled? && events[j].callId == id
    requires forall m :: j < m < |events| && events[m].ToolCalled? ==> events[m].callId != id
    ensures CallerOf(events, id) == Some(events[j].callIndex)
  {
    if j < |events| - 1 {
      LastCaller(events[..|events| - 1], id, j);
    }
  }

  /** And a result comes, in the step of its call, after those returned before. */
  lemma {:induction false} ResultInPlace(events: seq<AgentEvent>, i: nat, j: nat)
    requires j < i < |events| && events[i].ToolReturned? && Calls(events, i, j)
    ensures var (e, k) := (events[i], events[j].callIndex);
      var n := |ObservationsOf(events[..i], k)|;
      && n < |ObservationsOf(events, k)| && |ObservationsOf(events[..i + 1], k)| == n + 1
      && ObservationsOf(events, k)[n].callId == e.callId && ObservationsOf(events, k)[n].content == e.content
      && ObservationsOf(events, k)[n].status == e.status && ObservationsOf(events, k)[n].durationNs == e.durationNs
  {
    hide CallerOf;
    var init := events[..|events| - 1];
    if i < |init| {
      ResultInPlace(init, i, j);
      assert init[..i] == events[..i] && init[..i + 1] == events[..i + 1];
    } else {
      LastCaller(init, events[i].callId, j);
      assert events[..i + 1] == events && events[..i] == init;
    }
  }
}
