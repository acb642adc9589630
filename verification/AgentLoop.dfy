/**
 * The native agent loop (packages/agent/src/backend.ts): a conversation between a language model and tools,
 * under cumulative budgets, saved to and resumed from a session store.
 *
 * The model, the tools, the validators and the clock are an arbitrary World: what each of them answers at
 * each turn. Every adaptive environment is one such World on each of its runs.
 */
module AgentLoop {
  import opened Common
  import opened Budgets
  import opened Transcript

  datatype Response =
    | LlmError
    | NoMessage
    | Reply(usage: Option<Usage>, text: string, calls: seq<Call>, finishReason: Option<string>)

  /** A tool call at one turn: a hard validator failure, a handler that throws, or a result text. */
  datatype ToolBehaviour = HardInvalid | Throws | Returns(content: string)

  /**
   * In each turn the clock is read after the reply, at 0, and after each tool call is counted, at 1, 2, ...; in a turn
   * that answers it is read once more, at 1, for the metrics.
   */
  datatype World = World(
    llm: nat -> Response,
    tool: (nat, nat) -> ToolBehaviour,
    clock: (nat, nat) -> int,
    startedAt: int,
    outputHardInvalid: bool)

  datatype Config = Config(budget: Option<Budget>, cost: Option<TokenCost>, maxTurns: int, persist: bool)

  datatype Metrics = Metrics(totalTokens: int, totalCostUsd: real, toolCalls: int, turns: int, wallClockMs: int)

  datatype Outcome =
    | Answered(text: string, stopReason: string, metrics: Metrics)
    | LlmFailed
    | EmptyResponse
    | BudgetExceeded(dimension: Dimension)
    | Truncated
    | OutputRejected
    | ToolRejected
    | ToolThrew
    | MaxTurnsReached(maxTurns: int)

  /** One request to the model: the transcript it was sent, and the totals when it was sent. */
  datatype Sent = Sent(messages: seq<Message>, tally: Tally)

  /** What a run did: how it ended, its requests, the calls it handed to tools, the session it saved. */
  datatype Trace = Trace(outcome: Outcome, requests: seq<Sent>, dispatched: nat, saved: Option<seq<SessionMessage>>)

  datatype LoopState = LoopState(turn: nat, messages: seq<Message>, tally: Tally, requests: seq<Sent>, dispatched: nat)

  // ---------- messages the loop writes ----------

  function SystemTurn(text: string): Message { Message(System, Text(text), None, None) }

  function UserTurn(prompt: Content): Message {
    Message(User, if prompt.Absent? then Text("") else prompt, None, None)
  }

  function AnswerTurn(text: string): Message { Message(Assistant, Text(text), None, None) }

  function CallsTurn(calls: seq<Call>): Message { Message(Assistant, Absent, Some(calls), None) }

  function ToolTurn(content: string, id: string): Message { Message(ToolRole, Text(content), None, Some(id)) }

  // ---------- the loop as a function ----------

  datatype ToolsResult = ToolsResult(messages: seq<Message>, tally: Tally, dispatched: nat, stop: Option<Outcome>)

  function RunTools(w: World, cfg: Config, turn: nat, calls: seq<Call>, i: nat, st: ToolsResult): ToolsResult
    requires i <= |calls|
    decreases |calls| - i
  {
    if i == |calls| then st
    else
      var b := w.tool(turn, i);
      if b.HardInvalid? then st.(stop := Some(ToolRejected))
      else
        var tally := st.tally.(toolCalls := st.tally.toolCalls + 1);
        var hit := Exceeded(cfg.budget, tally, w.clock(turn, i + 1) - w.startedAt);
        if hit.Some? then st.(tally := tally, stop := Some(BudgetExceeded(hit.value)))
        else if b.Throws? then st.(tally := tally, dispatched := st.dispatched + 1, stop := Some(ToolThrew))
        else RunTools(w, cfg, turn, calls, i + 1,
                      st.(messages := st.messages + [ToolTurn(b.content, calls[i].id)],
                          tally := tally, dispatched := st.dispatched + 1))
  }

  function AddUsage(cfg: Config, t: Tally, u: Option<Usage>): Tally {
    t.(tokens := t.tokens + UsageTokens(u), costUsd := t.costUsd + UsageCost(u, cfg.cost))
  }

  function FinalTrace(w: World, cfg: Config, turn: nat, reply: Response, messages: seq<Message>, tally: Tally,
                      requests: seq<Sent>, dispatched: nat): Trace
    requires reply.Reply?
  {
    if reply.text == "" && reply.finishReason == Some("length") then Trace(Truncated, requests, dispatched, None)
    else
      var saved := if cfg.persist then Some(ToSession(messages + [AnswerTurn(reply.text)])) else None;
      Trace(if w.outputHardInvalid then OutputRejected
            else Answered(reply.text, Or(reply.finishReason, "stop"),
                          Metrics(tally.tokens, tally.costUsd, tally.toolCalls, turn, w.clock(turn, 1) - w.startedAt)),
            requests, dispatched, saved)
  }

  datatype TurnResult = Stop(trace: Trace) | Continue(next: LoopState)

  /** One round trip to the model and the tool calls it asked for. */
  function Turn(w: World, cfg: Config, s: LoopState): (r: TurnResult)
    ensures r.Continue? ==> r.next.turn == s.turn + 1
  {
    var turn := s.turn + 1;
    var requests := s.requests + [Sent(s.messages, s.tally)];
    match w.llm(turn)
    case LlmError => Stop(Trace(LlmFailed, requests, s.dispatched, None))
    case NoMessage => Stop(Trace(EmptyResponse, requests, s.dispatched, None))
    case Reply(usage, text, calls, finishReason) =>
      var tally := AddUsage(cfg, s.tally, usage);
      var hit := Exceeded(cfg.budget, tally, w.clock(turn, 0) - w.startedAt);
      if hit.Some? then Stop(Trace(BudgetExceeded(hit.value), requests, s.dispatched, None))
      else if calls == [] then Stop(FinalTrace(w, cfg, turn, w.llm(turn), s.messages, tally, requests, s.dispatched))
      else
        var start := ToolsResult(s.messages + [CallsTurn(calls)], tally, s.dispatched, None);
        var t := RunTools(w, cfg, turn, calls, 0, start);
        if t.stop.Some? then Stop(Trace(t.stop.value, requests, t.dispatched, None))
        else Continue(LoopState(turn, t.messages, t.tally, requests, t.dispatched))
  }

  function RunFrom(w: World, cfg: Config, s: LoopState): Trace
    decreases cfg.maxTurns - s.turn
  {
    if s.turn >= cfg.maxTurns then Trace(MaxTurnsReached(cfg.maxTurns), s.requests, s.dispatched, None)
    else match Turn(w, cfg, s)
      case Stop(trace) => trace
      case Continue(next) => RunFrom(w, cfg, next)
  }

  function Start(system: string, prior: seq<Message>, prompt: Content): LoopState {
    LoopState(0, [SystemTurn(system)] + prior + [UserTurn(prompt)], Tally(0, 0.0, 0), [], 0)
  }

  function Run(w: World, cfg: Config, system: string, prior: seq<Message>, prompt: Content): Trace {
    RunFrom(w, cfg, Start(system, prior, prompt))
  }

  // ---------- the loop ----------

  method RunAgentLoop(w: World, cfg: Config, system: string, prior: seq<Message>, prompt: Content) returns (r: Trace)
    ensures r == Run(w, cfg, system, prior, prompt)
  {
    var tracker := new BudgetTracker(cfg.budget, cfg.cost, w.startedAt);
    var state := LoopState(0, [SystemTurn(system)] + prior + [UserTurn(prompt)], tracker.Total(), [], 0);
    while state.turn < cfg.maxTurns
      invariant tracker.budget == cfg.budget && tracker.cost == cfg.cost && tracker.startedAt == w.startedAt
      invariant tracker.Total() == state.tally
      invariant RunFrom(w, cfg, state) == Run(w, cfg, system, prior, prompt)
      decreases cfg.maxTurns - state.turn
    {
      var taken := TakeTurn(tracker, w, cfg, state);
      if taken.Stop? { return taken.trace; }
      state := taken.next;
    }
    return Trace(MaxTurnsReached(cfg.maxTurns), state.requests, state.dispatched, None);
  }

  /** The body of the loop. */
  method TakeTurn(tracker: BudgetTracker, w: World, cfg: Config, s: LoopState) returns (r: TurnResult)
    requires tracker.budget == cfg.budget && tracker.cost == cfg.cost && tracker.startedAt == w.startedAt
    requires tracker.Total() == s.tally
    modifies tracker
    ensures r == Turn(w, cfg, s)
    ensures r.Continue? ==> tracker.Total() == r.next.tally
  {
    var turn := s.turn + 1;
    var requests := s.requests + [Sent(s.messages, tracker.Total())];
    var response := w.llm(turn);
    if response.LlmError? { return Stop(Trace(LlmFailed, requests, s.dispatched, None)); }
    if response.NoMessage? { return Stop(Trace(EmptyResponse, requests, s.dispatched, None)); }
    tracker.AddUsage(response.usage);
    var hit := tracker.CheckBudget(w.clock(turn, 0));
    if hit.Some? { return Stop(Trace(BudgetExceeded(hit.value), requests, s.dispatched, None)); }
    var calls := response.calls;
    if calls == [] {
      var trace := FinishRun(w, cfg, turn, response, s.messages, tracker.Total(), requests, s.dispatched);
      return Stop(trace);
    }
    var tools := DispatchTools(tracker, w, cfg, turn, calls, s.messages + [CallsTurn(calls)], s.dispatched);
    if tools.stop.Some? { return Stop(Trace(tools.stop.value, requests, tools.dispatched, None)); }
    return Continue(LoopState(turn, tools.messages, tracker.Total(), requests, tools.dispatched));
  }

  /** The turn without tool calls: truncation guard, save, output validators, result. */
  method FinishRun(w: World, cfg: Config, turn: nat, response: Response, messages: seq<Message>, tally: Tally,
                   requests: seq<Sent>, dispatched: nat) returns (r: Trace)
    requires response.Reply?
    ensures r == FinalTrace(w, cfg, turn, response, messages, tally, requests, dispatched)
  {
    var text := response.text;
    if text == "" && response.finishReason == Some("length") {
      return Trace(Truncated, requests, dispatched, None);
    }
    var saved := None;
    if cfg.persist {
      var session := OpenAIToSessionMessages(messages + [AnswerTurn(text)]);
      saved := Some(session);
    }
    if w.outputHardInvalid { return Trace(OutputRejected, requests, dispatched, saved); }
    var metrics := Metrics(tally.tokens, tally.costUsd, tally.toolCalls, turn, w.clock(turn, 1) - w.startedAt);
    return Trace(Answered(text, Or(response.finishReason, "stop"), metrics), requests, dispatched, saved);
  }

  /** The inner loop: validate, count and check the budget before each call, then append its result. */
  method DispatchTools(tracker: BudgetTracker, w: World, cfg: Config, turn: nat, calls: seq<Call>,
                       messages0: seq<Message>, dispatched0: nat) returns (r: ToolsResult)
    requires tracker.budget == cfg.budget && tracker.startedAt == w.startedAt
    modifies tracker
    ensures r == RunTools(w, cfg, turn, calls, 0, ToolsResult(messages0, old(tracker.Total()), dispatched0, None))
    ensures tracker.Total() == r.tally
  {
    var messages, dispatched := messages0, dispatched0;
    for i := 0 to |calls|
      invariant RunTools(w, cfg, turn, calls, i, ToolsResult(messages, tracker.Total(), dispatched, None))
                == RunTools(w, cfg, turn, calls, 0, ToolsResult(messages0, old(tracker.Total()), dispatched0, None))
    {
      var behaviour := w.tool(turn, i);
      if behaviour.HardInvalid? { return ToolsResult(messages, tracker.Total(), dispatched, Some(ToolRejected)); }
      tracker.AddToolCall();
      var hit := tracker.CheckBudget(w.clock(turn, i + 1));
      if hit.Some? { return ToolsResult(messages, tracker.Total(), dispatched, Some(BudgetExceeded(hit.value))); }
      dispatched := dispatched + 1;
      if behaviour.Throws? { return ToolsResult(messages, tracker.Total(), dispatched, Some(ToolThrew)); }
      messages := messages + [ToolTurn(behaviour.content, calls[i].id)];
    }
    return ToolsResult(messages, tracker.Total(), dispatched, None);
  }

  // ---------- invariants of the loop head ----------

  function TokensUpTo(w: World, n: nat): int {
    if n == 0 then 0
    else TokensUpTo(w, n - 1) + (if w.llm(n).Reply? then UsageTokens(w.llm(n).usage) else 0)
  }

  function CostUpTo(w: World, cfg: Config, n: nat): real {
    if n == 0 then 0.0
    else CostUpTo(w, cfg, n - 1) + (if w.llm(n).Reply? then UsageCost(w.llm(n).usage, cfg.cost) else 0.0)
  }

  function ToolMessages(ms: seq<Message>): nat {
    if ms == [] then 0
    else ToolMessages(ms[..|ms| - 1]) + (if ms[|ms| - 1].role == ToolRole then 1 else 0)
  }

  /** The totals are the sums over the replies so far. */
  ghost predicate Summed(w: World, cfg: Config, s: LoopState) {
    && |s.requests| == s.turn
    && s.tally.tokens == TokensUpTo(w, s.turn)
    && s.tally.costUsd == CostUpTo(w, cfg, s.turn)
  }

  /** The counters agree, and every request after the first was within the ceilings. */
  ghost predicate Counted(cfg: Config, s: LoopState, prior: nat) {
    && s.tally.toolCalls == s.dispatched
    && ToolMessages(s.messages) == prior + s.dispatched
    && (s.requests != [] ==> WithinCeilings(cfg.budget, s.tally))
    && RequestsWithin(cfg, s.requests)
    && DispatchedWithin(cfg, s.dispatched)
  }

  predicate DispatchedWithin(cfg: Config, dispatched: nat) {
    cfg.budget.Some? && cfg.budget.value.maxToolCalls.Some? && dispatched > 0 ==>
      dispatched <= cfg.budget.value.maxToolCalls.value
  }

  lemma {:induction false} ToolsCount(w: World, cfg: Config, turn: nat, calls: seq<Call>, i: nat, st: ToolsResult)
    requires i <= |calls| && st.stop.None? && st.tally.toolCalls == st.dispatched
    requires WithinCeilings(cfg.budget, st.tally) && DispatchedWithin(cfg, st.dispatched)
    ensures var t := RunTools(w, cfg, turn, calls, i, st);
            && DispatchedWithin(cfg, t.dispatched)
            && (t.stop.None? ==>
                  && t.tally.toolCalls == t.dispatched == st.dispatched + (|calls| - i)
                  && WithinCeilings(cfg.budget, t.tally)
                  && ToolMessages(t.messages) == ToolMessages(st.messages) + (|calls| - i))
    decreases |calls| - i
  {
    if i < |calls| {
      var b := w.tool(turn, i);
      var tally := st.tally.(toolCalls := st.tally.toolCalls + 1);
      if b.Returns? && Exceeded(cfg.budget, tally, w.clock(turn, i + 1) - w.startedAt).None? {
        var next := st.(messages := st.messages + [ToolTurn(b.content, calls[i].id)],
                        tally := tally, dispatched := st.dispatched + 1);
        assert next.messages[..|next.messages| - 1] == st.messages;
        ToolsCount(w, cfg, turn, calls, i + 1, next);
      }
    }
  }

  ghost predicate SummedTrace(w: World, cfg: Config, r: Trace) {
    r.outcome.Answered? ==>
      && r.outcome.metrics.turns == |r.requests| > 0
      && r.outcome.metrics.totalTokens == TokensUpTo(w, |r.requests|)
      && r.outcome.metrics.totalCostUsd == CostUpTo(w, cfg, |r.requests|)
      && r.outcome.metrics.wallClockMs == w.clock(|r.requests|, 1) - w.startedAt
  }

  ghost predicate CountedTrace(cfg: Config, r: Trace, prior: nat) {
    && RequestsWithin(cfg, r.requests)
    && DispatchedWithin(cfg, r.dispatched)
    && (r.outcome.Answered? ==>
          && r.requests != []
          && r.outcome.metrics.toolCalls == r.dispatched
          && ToolMessages(r.requests[|r.requests| - 1].messages) == prior + r.dispatched)
  }

  lemma {:induction false} ToolsKeepTotals(w: World, cfg: Config, turn: nat, calls: seq<Call>, i: nat, st: ToolsResult)
    requires i <= |calls| && st.stop.None?
    ensures var t := RunTools(w, cfg, turn, calls, i, st);
            && t.tally.tokens == st.tally.tokens && t.tally.costUsd == st.tally.costUsd
            && (t.stop.Some? ==> !t.stop.value.Answered? && !t.stop.value.OutputRejected?)
    decreases |calls| - i
  {
    if i < |calls| {
      var b := w.tool(turn, i);
      var tally := st.tally.(toolCalls := st.tally.toolCalls + 1);
      if b.Returns? {
        ToolsKeepTotals(w, cfg, turn, calls, i + 1,
          st.(messages := st.messages + [ToolTurn(b.content, calls[i].id)],
              tally := tally, dispatched := st.dispatched + 1));
      }
    }
  }

  lemma TurnSums(w: World, cfg: Config, s: LoopState)
    requires Summed(w, cfg, s)
    ensures match Turn(w, cfg, s)
            case Stop(trace) => SummedTrace(w, cfg, trace) && |trace.requests| == s.turn + 1
            case Continue(next) => Summed(w, cfg, next)
  {
    var reply := w.llm(s.turn + 1);
    if reply.Reply? {
      var tally := AddUsage(cfg, s.tally, reply.usage);
      ToolsKeepTotals(w, cfg, s.turn + 1, reply.calls, 0,
        ToolsResult(s.messages + [CallsTurn(reply.calls)], tally, s.dispatched, None));
    }
  }

  predicate RequestsWithin(cfg: Config, requests: seq<Sent>) {
    forall i | 1 <= i < |requests| :: WithinCeilings(cfg.budget, requests[i].tally)
  }

  lemma ToolsOfATurnCount(w: World, cfg: Config, s: LoopState, calls: seq<Call>, tally: Tally, prior: nat)
    requires s.tally.toolCalls == s.dispatched == tally.toolCalls && ToolMessages(s.messages) == prior + s.dispatched
    requires WithinCeilings(cfg.budget, tally) && DispatchedWithin(cfg, s.dispatched)
    ensures var t := RunTools(w, cfg, s.turn + 1, calls, 0,
                              ToolsResult(s.messages + [CallsTurn(calls)], tally, s.dispatched, None));
            && DispatchedWithin(cfg, t.dispatched)
            && (t.stop.None? ==>
                  && t.tally.toolCalls == t.dispatched && WithinCeilings(cfg.budget, t.tally)
                  && ToolMessages(t.messages) == prior + t.dispatched)
            && (t.stop.Some? ==> !t.stop.value.Answered?)
  {
    var st := ToolsResult(s.messages + [CallsTurn(calls)], tally, s.dispatched, None);
    assert ToolMessages(st.messages) == ToolMessages(s.messages) by {
      assert st.messages[..|st.messages| - 1] == s.messages;
    }
    ToolsCount(w, cfg, s.turn + 1, calls, 0, st);
    ToolsKeepTotals(w, cfg, s.turn + 1, calls, 0, st);
  }

  lemma ContinuedTurnCounts(w: World, cfg: Config, s: LoopState, prior: nat)
    requires Counted(cfg, s, prior) && Turn(w, cfg, s).Continue?
    ensures Counted(cfg, Turn(w, cfg, s).next, prior)
  {
    var reply := w.llm(s.turn + 1);
    ToolsOfATurnCount(w, cfg, s, reply.calls, AddUsage(cfg, s.tally, reply.usage), prior);
  }

  lemma StoppedTurnCounts(w: World, cfg: Config, s: LoopState, prior: nat)
    requires Counted(cfg, s, prior) && Turn(w, cfg, s).Stop?
    ensures CountedTrace(cfg, Turn(w, cfg, s).trace, prior)
  {
    var reply := w.llm(s.turn + 1);
    if reply.Reply? && reply.calls != [] {
      var tally := AddUsage(cfg, s.tally, reply.usage);
      if Exceeded(cfg.budget, tally, w.clock(s.turn + 1, 0) - w.startedAt).None? {
        ToolsOfATurnCount(w, cfg, s, reply.calls, tally, prior);
      }
    }
  }

  lemma {:induction false} LoopSums(w: World, cfg: Config, s: LoopState)
    requires Summed(w, cfg, s)
    ensures SummedTrace(w, cfg, RunFrom(w, cfg, s))
    ensures |RunFrom(w, cfg, s).requests| <= cfg.maxTurns || RunFrom(w, cfg, s).requests == s.requests
    decreases cfg.maxTurns - s.turn
  {
    if s.turn < cfg.maxTurns {
      TurnSums(w, cfg, s);
      match Turn(w, cfg, s)
      case Stop(_) =>
      case Continue(next) => LoopSums(w, cfg, next);
    }
  }

  lemma {:induction false} LoopCounts(w: World, cfg: Config, s: LoopState, prior: nat)
    requires Counted(cfg, s, prior)
    ensures CountedTrace(cfg, RunFrom(w, cfg, s), prior)
    decreases cfg.maxTurns - s.turn
  {
    if s.turn < cfg.maxTurns {
      match Turn(w, cfg, s)
      case Stop(_) => StoppedTurnCounts(w, cfg, s, prior);
      case Continue(next) =>
        ContinuedTurnCounts(w, cfg, s, prior);
        LoopCounts(w, cfg, next, prior);
    }
  }

  // ---------- the wall clock ----------

  /** Every reading of the clock in the turn was within the ceiling. */
  predicate TurnOnTime(w: World, cfg: Config, turn: nat) {
    && w.llm(turn).Reply?
    && forall k | 0 <= k <= |w.llm(turn).calls| :: WithinWallClock(cfg.budget, w.clock(turn, k) - w.startedAt)
  }

  ghost predicate OnTime(w: World, cfg: Config, turns: nat) {
    forall i | 1 <= i <= turns :: TurnOnTime(w, cfg, i)
  }

  lemma {:induction false} ToolsOnTime(w: World, cfg: Config, turn: nat, calls: seq<Call>, i: nat, st: ToolsResult)
    requires i <= |calls| && RunTools(w, cfg, turn, calls, i, st).stop.None?
    ensures forall k | i < k <= |calls| :: WithinWallClock(cfg.budget, w.clock(turn, k) - w.startedAt)
    decreases |calls| - i
  {
    if i < |calls| {
      var tally := st.tally.(toolCalls := st.tally.toolCalls + 1);
      ToolsOnTime(w, cfg, turn, calls, i + 1,
        st.(messages := st.messages + [ToolTurn(w.tool(turn, i).content, calls[i].id)],
            tally := tally, dispatched := st.dispatched + 1));
    }
  }

  lemma ContinuedTurnIsOnTime(w: World, cfg: Config, s: LoopState)
    requires Turn(w, cfg, s).Continue?
    ensures TurnOnTime(w, cfg, s.turn + 1)
    ensures |Turn(w, cfg, s).next.requests| == |s.requests| + 1
  {
    var reply := w.llm(s.turn + 1);
    ToolsOnTime(w, cfg, s.turn + 1, reply.calls, 0,
      ToolsResult(s.messages + [CallsTurn(reply.calls)], AddUsage(cfg, s.tally, reply.usage), s.dispatched, None));
  }

  lemma {:induction false} LoopIsOnTime(w: World, cfg: Config, s: LoopState)
    requires |s.requests| == s.turn && OnTime(w, cfg, s.turn)
    ensures forall i | 1 <= i < |RunFrom(w, cfg, s).requests| :: TurnOnTime(w, cfg, i)
    decreases cfg.maxTurns - s.turn
  {
    if s.turn < cfg.maxTurns {
      match Turn(w, cfg, s)
      case Stop(_) => 
      case Continue(next) =>
        ContinuedTurnIsOnTime(w, cfg, s);
        LoopIsOnTime(w, cfg, next);
    }
  }

  /**
   * Budgets hold for every world: at most maxTurns requests; at most maxToolCalls calls handed to tools; every
   * request after the first is sent with the token, cost and call totals within their ceilings, and only when every
   * reading of the clock in the turn before it was within the time allowed.
   */
  lemma BudgetsHold(w: World, cfg: Config, system: string, prior: seq<Message>, prompt: Content)
    ensures var r := Run(w, cfg, system, prior, prompt);
            && (|r.requests| <= cfg.maxTurns || r.requests == [])
            && DispatchedWithin(cfg, r.dispatched)
            && RequestsWithin(cfg, r.requests)
            && forall i | 1 <= i < |r.requests| :: TurnOnTime(w, cfg, i)
  {
    var s := Start(system, prior, prompt);
    LoopSums(w, cfg, s);
    LoopIsOnTime(w, cfg, s);
    LoopCounts(w, cfg, s, ToolMessages(s.messages));
  }

  /**
   * On an answer the metrics are the per-turn sums, the number of requests, and the number of tool results
   * in the transcript beyond those resumed.
   */
  lemma MetricsAreExact(w: World, cfg: Config, system: string, prior: seq<Message>, prompt: Content)
    requires Run(w, cfg, system, prior, prompt).outcome.Answered?
    ensures var r := Run(w, cfg, system, prior, prompt);
            var m := r.outcome.metrics;
            && m.turns == |r.requests| > 0
            && m.totalTokens == TokensUpTo(w, m.turns) && m.totalCostUsd == CostUpTo(w, cfg, m.turns)
            && m.wallClockMs == w.clock(m.turns, 1) - w.startedAt
            && m.toolCalls == r.dispatched
            && ToolMessages(r.requests[m.turns - 1].messages) == ToolMessages(prior) + m.toolCalls
  {
    var s := Start(system, prior, prompt);
    LoopSums(w, cfg, s);
    LoopCounts(w, cfg, s, ToolMessages(s.messages));
    ToolMessagesOfStart(system, prior, prompt);
  }

  lemma {:induction false} ToolMessagesConcat(a: seq<Message>, b: seq<Message>)
    ensures ToolMessages(a + b) == ToolMessages(a) + ToolMessages(b)
  {
    if b == [] {
      assert a + b == a;
    } else {
      assert (a + b)[..|a + b| - 1] == a + b[..|b| - 1];
      ToolMessagesConcat(a, b[..|b| - 1]);
    }
  }

  lemma ToolMessagesOfStart(system: string, prior: seq<Message>, prompt: Content)
    ensures ToolMessages(Start(system, prior, prompt).messages) == ToolMessages(prior)
  {
    ToolMessagesConcat([SystemTurn(system)] + prior, [UserTurn(prompt)]);
    ToolMessagesConcat([SystemTurn(system)], prior);
    assert [SystemTurn(system)][..0] == [] && [UserTurn(prompt)][..0] == [];
  }
}
