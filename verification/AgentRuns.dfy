/** What the agent loop keeps about its transcript, within one run and across the runs of a session. */
module AgentRuns {
  import opened Common
  import opened Transcript
  import opened AgentLoop

  // ---------- within a run ----------

  /** The message that carries what a tool returned back to the model. */
  predicate IsResultOf(m: Message, w: World, turn: nat, k: nat, id: string) {
    w.tool(turn, k).Returns? && m == Message(ToolRole, Text(w.tool(turn, k).content), None, Some(id))
  }

  /** One tool result per call, in the order of the calls. */
  predicate AnswersAll(w: World, turn: nat, results: seq<Message>, calls: seq<Call>) {
    |results| == |calls| && forall k | 0 <= k < |calls| :: IsResultOf(results[k], w, turn, k, calls[k].id)
  }

  lemma {:induction false} ToolsAppendResults(w: World, cfg: Config, turn: nat, calls: seq<Call>, i: nat,
                                              st: ToolsResult)
    requires i <= |calls| && st.stop.None? && RunTools(w, cfg, turn, calls, i, st).stop.None?
    ensures var t, n := RunTools(w, cfg, turn, calls, i, st), |st.messages|;
            && st.messages <= t.messages && |t.messages| == n + |calls| - i
            && forall k | i <= k < |calls| :: IsResultOf(t.messages[n + k - i], w, turn, k, calls[k].id)
    decreases |calls| - i
  {
    if i < |calls| {
      var b := w.tool(turn, i);
      var tally := st.tally.(toolCalls := st.tally.toolCalls + 1);
      var next := st.(messages := st.messages + [ToolTurn(b.content, calls[i].id)],
                      tally := tally, dispatched := st.dispatched + 1);
      ToolsAppendResults(w, cfg, turn, calls, i + 1, next);
      var t := RunTools(w, cfg, turn, calls, i, st);
      assert t.messages[|st.messages|] == next.messages[|st.messages|];
    }
  }

  /** The model's turn that asks for calls, as the transcript keeps it. */
  function Asks(calls: seq<Call>): Message {
    Message(Assistant, Absent, Some(calls), None)
  }

  /** `after` is `before` plus the calls the model made in this turn and what each tool returned for its call. */
  ghost predicate OneRoundLater(w: World, turn: nat, before: seq<Message>, after: seq<Message>) {
    && w.llm(turn).Reply? && w.llm(turn).calls != []
    && before + [Asks(w.llm(turn).calls)] <= after
    && AnswersAll(w, turn, after[|before| + 1..], w.llm(turn).calls)
  }

  lemma RoundKeepsWellFormed(w: World, turn: nat, before: seq<Message>, after: seq<Message>)
    requires WellFormed(before) && OneRoundLater(w, turn, before, after)
    ensures WellFormed(after)
  {
    var calls, results := w.llm(turn).calls, after[|before| + 1..];
    var round := [Asks(calls)] + results;
    assert Balanced(round) by {
      forall k | 0 <= k < |calls| ensures Answers(round[1 + k], calls[k].id) {
        assert IsResultOf(results[k], w, turn, k, calls[k].id);
      }
      assert round[1 + |calls|..] == [];
    }
    BalancedConcat(before[1..], round);
    AfterPrefix(before, Asks(calls), after);
    TailOfConcat(before, round);
  }

  lemma AfterPrefix<T>(a: seq<T>, x: T, c: seq<T>)
    requires a + [x] <= c
    ensures c == a + ([x] + c[|a| + 1..])
  {
    assert c[..|a| + 1] == a + [x];
  }

  lemma TailOfConcat<T>(a: seq<T>, b: seq<T>)
    requires a != []
    ensures (a + b)[1..] == a[1..] + b && (a + b)[0] == a[0]
  {
  }

  ghost predicate Transcribed(w: World, s: LoopState) {
    && |s.requests| == s.turn
    && WellFormed(s.messages)
    && RequestsAreRounds(w, s.requests)
    && (s.requests != [] ==>
          OneRoundLater(w, s.turn, s.requests[s.turn - 1].messages, s.messages))
  }

  /** Every request is well formed and is its predecessor plus one complete round of tool calls. */
  ghost predicate RequestsAreRounds(w: World, requests: seq<Sent>) {
    && (forall i | 0 <= i < |requests| :: WellFormed(requests[i].messages))
    && (forall i | 0 < i < |requests| ::
          OneRoundLater(w, i, requests[i - 1].messages, requests[i].messages))
  }

  /** The model's answer, as the transcript keeps it. */
  function Says(text: string): Message {
    Message(Assistant, Text(text), None, None)
  }

  /** What is saved is the last request's transcript plus the model's answer to it. */
  ghost predicate SavesAnswer(w: World, r: Trace) {
    (r.saved.Some? || r.outcome.Answered?) ==>
      && r.requests != []
      && w.llm(|r.requests|).Reply?
      && (r.outcome.Answered? ==> r.outcome.text == w.llm(|r.requests|).text)
      && (r.saved.Some? ==>
            r.saved.value == ToSession(r.requests[|r.requests| - 1].messages + [Says(w.llm(|r.requests|).text)]))
  }

  lemma TurnThatStops(w: World, cfg: Config, s: LoopState)
    requires Turn(w, cfg, s).Stop?
    ensures var r, reply := Turn(w, cfg, s).trace, w.llm(s.turn + 1);
            && r.requests == s.requests + [Sent(s.messages, s.tally)]
            && ((r.saved.Some? || r.outcome.Answered?) ==> reply.Reply?)
            && (r.outcome.Answered? ==> r.outcome.text == reply.text)
            && (r.saved.Some? ==> r.saved.value == ToSession(s.messages + [AnswerTurn(reply.text)]))
            && (r.outcome.Answered? || r.outcome.OutputRejected? ==> (r.saved.Some? <==> cfg.persist))
            && (r.saved.Some? ==> r.outcome.Answered? || r.outcome.OutputRejected?)
  {
    var reply := w.llm(s.turn + 1);
    if reply.Reply? {
      ToolsKeepTotals(w, cfg, s.turn + 1, reply.calls, 0,
        ToolsResult(s.messages + [CallsTurn(reply.calls)], AddUsage(cfg, s.tally, reply.usage), s.dispatched, None));
    }
  }

  lemma TurnThatContinues(w: World, cfg: Config, s: LoopState)
    requires Turn(w, cfg, s).Continue?
    ensures var next, reply := Turn(w, cfg, s).next, w.llm(s.turn + 1);
            && next.requests == s.requests + [Sent(s.messages, s.tally)]
            && reply.Reply? && OneRoundLater(w, s.turn + 1, s.messages, next.messages)
  {
    var reply := w.llm(s.turn + 1);
    ToolsAppendResults(w, cfg, s.turn + 1, reply.calls, 0,
      ToolsResult(s.messages + [CallsTurn(reply.calls)], AddUsage(cfg, s.tally, reply.usage), s.dispatched, None));
  }

  /** The request about to be sent extends the record of requests. */
  lemma NextRequestIsARound(w: World, s: LoopState)
    requires Transcribed(w, s)
    ensures RequestsAreRounds(w, s.requests + [Sent(s.messages, s.tally)])
  {
    var n, requests := |s.requests|, s.requests + [Sent(s.messages, s.tally)];
    forall i | 0 <= i < |requests| ensures WellFormed(requests[i].messages) {
      if i < n { assert requests[i] == s.requests[i]; }
    }
    forall i | 0 < i < |requests|
      ensures OneRoundLater(w, i, requests[i - 1].messages, requests[i].messages)
    {
      assert requests[i - 1] == s.requests[i - 1];
      if i < n { assert requests[i] == s.requests[i]; }
    }
  }

  lemma RoundIsTranscribed(w: World, s: LoopState, next: LoopState)
    requires Transcribed(w, s) && next.turn == s.turn + 1
    requires next.requests == s.requests + [Sent(s.messages, s.tally)]
    requires OneRoundLater(w, next.turn, s.messages, next.messages)
    ensures Transcribed(w, next)
  {
    NextRequestIsARound(w, s);
    RoundKeepsWellFormed(w, next.turn, s.messages, next.messages);
    assert next.requests[next.turn - 1].messages == s.messages;
  }

  lemma StopTranscribes(w: World, cfg: Config, s: LoopState)
    requires Transcribed(w, s) && Turn(w, cfg, s).Stop?
    ensures var trace := Turn(w, cfg, s).trace;
            && RequestsAreRounds(w, trace.requests) && SavesAnswer(w, trace)
            && trace.requests == s.requests + [Sent(s.messages, s.tally)]
  {
    TurnThatStops(w, cfg, s);
    NextRequestIsARound(w, s);
    var requests := s.requests + [Sent(s.messages, s.tally)];
    assert |requests| == s.turn + 1 && requests[|requests| - 1].messages == s.messages;
  }

  lemma ContinueTranscribes(w: World, cfg: Config, s: LoopState)
    requires Transcribed(w, s) && Turn(w, cfg, s).Continue?
    ensures var next := Turn(w, cfg, s).next;
            && Transcribed(w, next) && next.requests == s.requests + [Sent(s.messages, s.tally)]
  {
    TurnThatContinues(w, cfg, s);
    RoundIsTranscribed(w, s, Turn(w, cfg, s).next);
  }

  lemma {:induction false} LoopTranscribes(w: World, cfg: Config, s: LoopState)
    requires Transcribed(w, s)
    ensures RequestsAreRounds(w, RunFrom(w, cfg, s).requests)
    ensures SavesAnswer(w, RunFrom(w, cfg, s))
    ensures s.requests <= RunFrom(w, cfg, s).requests
    ensures s.turn < cfg.maxTurns ==> s.requests + [Sent(s.messages, s.tally)] <= RunFrom(w, cfg, s).requests
    decreases cfg.maxTurns - s.turn
  {
    if s.turn < cfg.maxTurns {
      match Turn(w, cfg, s)
      case Stop(_) => StopTranscribes(w, cfg, s);
      case Continue(next) =>
        ContinueTranscribes(w, cfg, s);
        LoopTranscribes(w, cfg, next);
    }
  }

  lemma StartIsWellFormed(system: string, prior: seq<Message>, prompt: Content)
    requires Balanced(prior)
    ensures WellFormed(Start(system, prior, prompt).messages)
  {
    var user := UserTurn(prompt);
    BalancedConcat(prior, [user]);
    assert Start(system, prior, prompt).messages == [SystemTurn(system)] + (prior + [user]);
  }

  /**
   * For every world and every balanced history: each request has one system turn, first, and every assistant turn
   * with tool calls is followed by exactly one result per call id, in order; each request is the one before
   * it plus one complete round; the first is the history between a fresh system turn and the new prompt.
   */
  lemma EveryRequestIsBalanced(w: World, cfg: Config, system: string, prior: seq<Message>, prompt: Content)
    requires Balanced(prior)
    ensures var r := Run(w, cfg, system, prior, prompt);
            && RequestsAreRounds(w, r.requests)
            && (r.requests != [] ==>
                  r.requests[0].messages
                  == [Message(System, Text(system), None, None)] + prior
                     + [Message(User, if prompt == Absent then Text("") else prompt, None, None)])
            && SavesAnswer(w, r)
  {
    var s := Start(system, prior, prompt);
    StartIsWellFormed(system, prior, prompt);
    LoopTranscribes(w, cfg, s);
    var r := Run(w, cfg, system, prior, prompt);
    if r.requests != [] {
      assert 0 < cfg.maxTurns;
      assert r.requests[0] == (s.requests + [Sent(s.messages, s.tally)])[0];
    }
  }

  // ---------- from one run to the next ----------

  /** The conversation a run leaves behind: its last request without the system turn, plus the answer. */
  function Conversation(w: World, r: Trace): seq<Message>
    requires r.requests != [] && w.llm(|r.requests|).Reply?
  {
    NonSystem(r.requests[|r.requests| - 1].messages + [Says(w.llm(|r.requests|).text)])
  }

  lemma NonSystemOfWellFormed(sent: seq<Message>)
    requires WellFormed(sent)
    ensures NonSystem(sent) == sent[1..]
  {
    BalancedHasNoSystem(sent[1..]);
    assert sent == [sent[0]] + sent[1..];
    NonSystemConcat([sent[0]], sent[1..]);
    NonSystemOfNonSystem(sent[1..]);
    assert NonSystem([sent[0]]) == [] by { assert [sent[0]][..0] == []; }
  }

  lemma AnswerEndsTheConversation(sent: seq<Message>, text: string)
    requires WellFormed(sent)
    ensures NonSystem(sent + [Says(text)]) == sent[1..] + [Says(text)]
    ensures Balanced(sent[1..] + [Says(text)])
  {
    var answer := Says(text);
    NonSystemOfWellFormed(sent);
    NonSystemConcat(sent, [answer]);
    NonSystemOfNonSystem([answer]);
    BalancedConcat(sent[1..], [answer]);
  }

  lemma ConversationMeaning(w: World, r: Trace)
    requires r.requests != [] && w.llm(|r.requests|).Reply? && WellFormed(r.requests[|r.requests| - 1].messages)
    ensures Conversation(w, r) == r.requests[|r.requests| - 1].messages[1..] + [Says(w.llm(|r.requests|).text)]
    ensures Balanced(Conversation(w, r))
  {
    AnswerEndsTheConversation(r.requests[|r.requests| - 1].messages, w.llm(|r.requests|).text);
  }

  /**
   * A run that resumes a saved session starts from exactly the previous conversation, turn by turn, each turn
   * flattened to text; a conversation of plain turns comes back unchanged.
   */
  lemma ResumeContinuesTheConversation(w: World, cfg: Config, system: string, prior: seq<Message>, prompt: Content)
    requires Balanced(prior) && Run(w, cfg, system, prior, prompt).saved.Some?
    ensures var r := Run(w, cfg, system, prior, prompt);
            && r.requests != [] && w.llm(|r.requests|).Reply?
            && var said, resumed := Conversation(w, r), FromSession(r.saved.value);
            && |resumed| == |said|
            && (forall i | 0 <= i < |said| :: resumed[i] == LoadMessage(SaveMessage(said[i])))
            && ((forall m | m in said :: Plain(m)) ==> resumed == said)
            && Balanced(resumed)
  {
    EveryRequestIsBalanced(w, cfg, system, prior, prompt);
    var r := Run(w, cfg, system, prior, prompt);
    var all := r.requests[|r.requests| - 1].messages + [Says(w.llm(|r.requests|).text)];
    ReloadIsElementwise(all);
    ConversationMeaning(w, r);
    ReloadStaysBalanced(all);
    if forall m | m in Conversation(w, r) :: Plain(m) { ReloadKeepsPlainTranscripts(all); }
  }

  /** One run of a session; the store may fail to load or to save, and the run goes on without it. */
  datatype Job = Job(w: World, cfg: Config, system: string, prompt: Content, loads: bool, saves: bool)

  function History(stored: Option<seq<SessionMessage>>, job: Job): seq<Message> {
    if job.cfg.persist && job.loads && stored.Some? then FromSession(stored.value) else []
  }

  function JobTrace(stored: Option<seq<SessionMessage>>, job: Job): Trace {
    Run(job.w, job.cfg, job.system, History(stored, job), job.prompt)
  }

  function StoredAfter(stored: Option<seq<SessionMessage>>, jobs: seq<Job>): Option<seq<SessionMessage>> {
    if jobs == [] then stored
    else
      var before, last := StoredAfter(stored, jobs[..|jobs| - 1]), jobs[|jobs| - 1];
      var r := JobTrace(before, last);
      if r.saved.Some? && last.saves then r.saved else before
  }

  predicate Resumable(stored: Option<seq<SessionMessage>>) {
    stored.Some? ==> Balanced(FromSession(stored.value))
  }

  lemma {:induction false} SessionsStayResumable(stored: Option<seq<SessionMessage>>, jobs: seq<Job>)
    requires Resumable(stored)
    ensures Resumable(StoredAfter(stored, jobs))
  {
    if jobs != [] {
      var front, last := jobs[..|jobs| - 1], jobs[|jobs| - 1];
      SessionsStayResumable(stored, front);
      var before := StoredAfter(stored, front);
      if JobTrace(before, last).saved.Some? {
        ResumeContinuesTheConversation(last.w, last.cfg, last.system, History(before, last), last.prompt);
      }
    }
  }

  /**
   * Over any number of runs of one session, in any worlds, with any failures of the session store: every request
   * of every run is balanced.
   */
  lemma EveryRequestOfEveryRunIsBalanced(stored: Option<seq<SessionMessage>>, jobs: seq<Job>, n: nat)
    requires Resumable(stored) && n < |jobs|
    ensures var r := JobTrace(StoredAfter(stored, jobs[..n]), jobs[n]);
            forall i | 0 <= i < |r.requests| :: WellFormed(r.requests[i].messages)
  {
    SessionsStayResumable(stored, jobs[..n]);
    var before, job := StoredAfter(stored, jobs[..n]), jobs[n];
    EveryRequestIsBalanced(job.w, job.cfg, job.system, History(before, job), job.prompt);
  }

  /** An answer a hard output validator rejects is nevertheless saved, and so resumed from. */
  lemma RejectedAnswerIsSaved(w: World, cfg: Config, system: string, prior: seq<Message>, prompt: Content)
    requires Run(w, cfg, system, prior, prompt).outcome.OutputRejected?
    ensures Run(w, cfg, system, prior, prompt).saved.Some? <==> cfg.persist
  {
    OutcomeOfRejection(w, cfg, Start(system, prior, prompt));
  }

  function OneExchange(prompt: string, text: string): seq<Message> {
    [Message(System, Text(""), None, None), Message(User, Text(prompt), None, None), Says(text)]
  }

  /** Where the model answers at once and the output validator refuses, the refused answer is saved and resumed from. */
  lemma RefusedAnswerIsResumedFrom(w: World, text: string, prompt: string)
    requires w.llm(1) == Reply(None, text, [], None) && text != "" && w.outputHardInvalid
    ensures Run(w, Config(None, None, 1, true), "", [], Text(prompt)).outcome == OutputRejected
    ensures Run(w, Config(None, None, 1, true), "", [], Text(prompt)).saved
            == Some(ToSession(OneExchange(prompt, text)))
    ensures FromSession(ToSession(OneExchange(prompt, text))) == [Message(User, Text(prompt), None, None), Says(text)]
  {
    FirstExchange(text, prompt);
    AnswersAtOnce(w, Config(None, None, 1, true), Start("", [], Text(prompt)), text);
    ThreeTurns(text, prompt);
  }

  lemma FirstExchange(text: string, prompt: string)
    ensures Start("", [], Text(prompt)).messages + [AnswerTurn(text)] == OneExchange(prompt, text)
  {
  }

  /** A world that meets these assumptions. */
  function RefusingWorld(text: string): (w: World)
    ensures w.llm(1) == Reply(None, text, [], None) && w.outputHardInvalid
  {
    World(_ => Reply(None, text, [], None), (_, _) => Throws, (_, _) => 0, 0, true)
  }

  lemma RefusalHappens(text: string, prompt: string)
    requires text != ""
    ensures Run(RefusingWorld(text), Config(None, None, 1, true), "", [], Text(prompt)).outcome == OutputRejected
  {
    RefusedAnswerIsResumedFrom(RefusingWorld(text), text, prompt);
  }

  lemma AnswersAtOnce(w: World, cfg: Config, s: LoopState, text: string)
    requires s.turn == 0 && cfg.maxTurns == 1 && cfg.budget.None? && cfg.persist
    requires w.llm(1) == Reply(None, text, [], None) && text != "" && w.outputHardInvalid
    ensures RunFrom(w, cfg, s).outcome == OutputRejected
    ensures RunFrom(w, cfg, s).saved == Some(ToSession(s.messages + [AnswerTurn(text)]))
  {
    assert Turn(w, cfg, s).Stop?;
  }

  lemma ThreeTurns(text: string, prompt: string)
    ensures FromSession(ToSession(OneExchange(prompt, text))) == [Message(User, Text(prompt), None, None), Says(text)]
  {
    var user, answer := UserTurn(Text(prompt)), AnswerTurn(text);
    var all := OneExchange(prompt, text);
    assert all[..2] == [SystemTurn(""), user] && all[..2][..1] == [SystemTurn("")] && [SystemTurn("")][..0] == [];
    assert NonSystem([SystemTurn("")]) == [];
    assert NonSystem([SystemTurn(""), user]) == [user] by { assert [SystemTurn(""), user][..1] == [SystemTurn("")]; }
    assert NonSystem(all) == [user, answer];
    ReloadKeepsPlainTranscripts(all);
  }

  lemma {:induction false} OutcomeOfRejection(w: World, cfg: Config, s: LoopState)
    requires RunFrom(w, cfg, s).outcome.OutputRejected?
    ensures RunFrom(w, cfg, s).saved.Some? <==> cfg.persist
    decreases cfg.maxTurns - s.turn
  {
    match Turn(w, cfg, s)
    case Stop(_) => TurnThatStops(w, cfg, s);
    case Continue(next) => OutcomeOfRejection(w, cfg, next);
  }
}
