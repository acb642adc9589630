/** How a run of the agent loop ends, told from what the model, the tools and the clock did in its last turn. */
module AgentOutcomes {
  import opened Common

  import opened AgentLoop
  import opened Budgets
  import opened Transcript

  /**
   * The k-th budget check of a turn passes: after the reply for k = 0, after the k-th call of the turn is counted
   * otherwise. `before` calls were counted in earlier turns.
   */
  function CheckAt(w: World, cfg: Config, turn: nat, before: int, k: nat): Option<Dimension> {
    Exceeded(cfg.budget, Tally(TokensUpTo(w, turn), CostUpTo(w, cfg, turn), before + k), w.clock(turn, k) - w.startedAt)
  }

  ghost predicate ChecksPass(w: World, cfg: Config, turn: nat, before: int, upTo: nat) {
    forall k | 0 <= k <= upTo :: CheckAt(w, cfg, turn, before, k).None?
  }

  ghost predicate ToolsReturn(w: World, turn: nat, upTo: nat) {
    forall k | 0 <= k < upTo :: w.tool(turn, k).Returns?
  }

  /** The k-th call of the turn is the one that ended the run, with this outcome. */
  ghost predicate EndsAtCall(w: World, cfg: Config, turn: nat, before: int, k: nat, outcome: Outcome, dispatched: int) {
    && ToolsReturn(w, turn, k)
    && ChecksPass(w, cfg, turn, before, k)
    && match w.tool(turn, k)
       case HardInvalid => outcome == ToolRejected && dispatched == before + k
       case _ =>
         match CheckAt(w, cfg, turn, before, k + 1)
         case Some(d) => outcome == BudgetExceeded(d) && dispatched == before + k
         case None => w.tool(turn, k).Throws? && outcome == ToolThrew && dispatched == before + k + 1
  }

  ghost predicate EndsAtSomeCall(w: World, cfg: Config, turn: nat, before: int, calls: nat, outcome: Outcome,
                                 dispatched: int) {
    exists k | 0 <= k < calls :: EndsAtCall(w, cfg, turn, before, k, outcome, dispatched)
  }

  lemma {:induction false} ToolsEnd(w: World, cfg: Config, turn: nat, calls: seq<Call>, i: nat, st: ToolsResult,
                                    before: int)
    requires i <= |calls| && st.stop.None? && st.dispatched == before + i
    requires st.tally == Tally(TokensUpTo(w, turn), CostUpTo(w, cfg, turn), before + i)
    requires ToolsReturn(w, turn, i) && ChecksPass(w, cfg, turn, before, i)
    ensures var t := RunTools(w, cfg, turn, calls, i, st);
            t.stop.Some? ==> EndsAtSomeCall(w, cfg, turn, before, |calls|, t.stop.value, t.dispatched)
    decreases |calls| - i
  {
    if i < |calls| {
      var b := w.tool(turn, i);
      var tally := st.tally.(toolCalls := st.tally.toolCalls + 1);
      var t := RunTools(w, cfg, turn, calls, i, st);
      if b.Returns? && CheckAt(w, cfg, turn, before, i + 1).None? {
        ToolsEnd(w, cfg, turn, calls, i + 1,
          st.(messages := st.messages + [ToolTurn(b.content, calls[i].id)],
              tally := tally, dispatched := st.dispatched + 1), before);
      } else {
        assert EndsAtCall(w, cfg, turn, before, i, t.stop.value, t.dispatched);
      }
    }
  }

  /** The model stopped because of its length limit before it said anything. */
  predicate CutOff(reply: Response) {
    reply.Reply? && reply.text == "" && reply.finishReason == Some("length")
  }

  /** What the last turn, number n, was like when the run ended with the outcome. */
  ghost predicate Explains(w: World, cfg: Config, n: nat, before: int, outcome: Outcome, dispatched: int) {
    match w.llm(n)
    case LlmError => outcome == LlmFailed && dispatched == before
    case NoMessage => outcome == EmptyResponse && dispatched == before
    case Reply(_, text, calls, finishReason) =>
      match CheckAt(w, cfg, n, before, 0)
      case Some(d) => outcome == BudgetExceeded(d) && dispatched == before
      case None =>
        if calls != [] then EndsAtSomeCall(w, cfg, n, before, |calls|, outcome, dispatched)
        else
          && dispatched == before
          && if CutOff(w.llm(n)) then outcome == Truncated
             else if w.outputHardInvalid then outcome == OutputRejected
             else && outcome.Answered? && outcome.text == text
                  && outcome.stopReason == (if finishReason.None? then "stop" else finishReason.value)
  }

  lemma LastTurn(w: World, cfg: Config, s: LoopState)
    requires Summed(w, cfg, s) && s.tally.toolCalls == s.dispatched && Turn(w, cfg, s).Stop?
    ensures var trace := Turn(w, cfg, s).trace;
            && trace.requests == s.requests + [Sent(s.messages, s.tally)]
            && Explains(w, cfg, s.turn + 1, s.dispatched, trace.outcome, trace.dispatched)
  {
    var n := s.turn + 1;
    var reply := w.llm(n);
    if reply.Reply? {
      var tally := AddUsage(cfg, s.tally, reply.usage);
      assert tally == Tally(TokensUpTo(w, n), CostUpTo(w, cfg, n), s.dispatched);
      if CheckAt(w, cfg, n, s.dispatched, 0).None? && reply.calls != [] {
        ToolsEnd(w, cfg, n, reply.calls, 0,
          ToolsResult(s.messages + [CallsTurn(reply.calls)], tally, s.dispatched, None), s.dispatched);
      }
    }
  }

  /** How a run ends: in its last turn, as explained, or because the turns are used up. */
  ghost predicate EndsAsExplained(w: World, cfg: Config, r: Trace, prior: nat) {
    if r.outcome.MaxTurnsReached?
    then r.outcome.maxTurns == cfg.maxTurns && |r.requests| == if cfg.maxTurns < 0 then 0 else cfg.maxTurns
    else && r.requests != []
         && Explains(w, cfg, |r.requests|, ToolMessages(r.requests[|r.requests| - 1].messages) - prior, r.outcome,
                     r.dispatched)
  }

  lemma {:induction false} LoopEndsAsExplained(w: World, cfg: Config, s: LoopState, prior: nat)
    requires Summed(w, cfg, s) && Counted(cfg, s, prior)
    requires s.turn <= cfg.maxTurns || s.turn == 0
    ensures EndsAsExplained(w, cfg, RunFrom(w, cfg, s), prior)
    decreases cfg.maxTurns - s.turn
  {
    if s.turn < cfg.maxTurns {
      match Turn(w, cfg, s)
      case Stop(trace) =>
        LastTurn(w, cfg, s);
        NeverMaxTurns(w, cfg, s);
      case Continue(next) =>
        TurnSums(w, cfg, s);
        ContinuedTurnCounts(w, cfg, s, prior);
        LoopEndsAsExplained(w, cfg, next, prior);
    }
  }

  lemma NeverMaxTurns(w: World, cfg: Config, s: LoopState)
    requires Turn(w, cfg, s).Stop? && Summed(w, cfg, s) && s.tally.toolCalls == s.dispatched
    ensures !Turn(w, cfg, s).trace.outcome.MaxTurnsReached?
  {
    LastTurn(w, cfg, s);
  }

  /**
   * For every world the outcome of a run, and the number of calls it handed to tools, are those that its last turn
   * explains: the first thing that went wrong in it, in the order in which the loop looks, or its answer.
   */
  lemma OutcomeIsExplained(w: World, cfg: Config, system: string, prior: seq<Message>, prompt: Content)
    ensures EndsAsExplained(w, cfg, Run(w, cfg, system, prior, prompt), ToolMessages(prior))
  {
    ToolMessagesOfStart(system, prior, prompt);
    LoopEndsAsExplained(w, cfg, Start(system, prior, prompt), ToolMessages(prior));
  }
}
