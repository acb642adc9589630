/**
 * Chat transcripts of the native agent loop and their persisted form (packages/agent/src/backend.ts).
 */
module Transcript {
  import opened Common

  datatype Role = System | User | Assistant | ToolRole

  datatype Part = TextPart(text: string) | ImagePart(mimeType: string, data: string)

  datatype Content = Absent | Text(text: string) | Parts(parts: seq<Part>)

  datatype Call = Call(id: string, kind: string, name: string, arguments: string)

  datatype Message = Message(role: Role, content: Content, toolCalls: Option<seq<Call>>, toolCallId: Option<string>)

  datatype SessionCall = SessionCall(id: string, name: string, arguments: string)

  datatype SessionMessage = SessionMessage(
    role: Role, content: string, toolCalls: Option<seq<SessionCall>>, toolCallId: Option<string>)

  // ---------- the two converters ----------

  function PartsText(parts: seq<Part>): string {
    if parts == [] then ""
    else (if parts[0].TextPart? then parts[0].text else "") + PartsText(parts[1..])
  }

  function ContentText(c: Content): string {
    match c
    case Absent => ""
    case Text(t) => t
    case Parts(parts) => PartsText(parts)
  }

  function HasCalls<T>(calls: Option<seq<T>>): bool {
    calls.Some? && calls.value != []
  }

  function SaveCalls(calls: seq<Call>): seq<SessionCall> {
    seq(|calls|, i requires 0 <= i < |calls| => SessionCall(calls[i].id, calls[i].name, calls[i].arguments))
  }

  function LoadCalls(calls: seq<SessionCall>): seq<Call> {
    seq(|calls|, i requires 0 <= i < |calls| => Call(calls[i].id, "function", calls[i].name, calls[i].arguments))
  }

  function SaveMessage(m: Message): SessionMessage {
    SessionMessage(m.role, ContentText(m.content),
                   if HasCalls(m.toolCalls) then Some(SaveCalls(m.toolCalls.value)) else None, m.toolCallId)
  }

  function LoadMessage(m: SessionMessage): Message {
    if m.role == Assistant && HasCalls(m.toolCalls)
    then Message(Assistant, if m.content != "" then Text(m.content) else Absent,
                 Some(LoadCalls(m.toolCalls.value)), None)
    else if m.role == ToolRole then Message(ToolRole, Text(m.content), None, m.toolCallId)
    else Message(m.role, Text(m.content), None, None)
  }

  function ToSession(ms: seq<Message>): seq<SessionMessage> {
    if ms == [] then []
    else
      var front, last := ToSession(ms[..|ms| - 1]), ms[|ms| - 1];
      if last.role == System then front else front + [SaveMessage(last)]
  }

  function FromSession(ms: seq<SessionMessage>): seq<Message> {
    if ms == [] then []
    else
      var front, last := FromSession(ms[..|ms| - 1]), ms[|ms| - 1];
      if last.role == System then front else front + [LoadMessage(last)]
  }

  method OpenAIToSessionMessages(messages: seq<Message>) returns (out: seq<SessionMessage>)
    ensures out == ToSession(messages)
  {
    out := [];
    for i := 0 to |messages|
      invariant out == ToSession(messages[..i])
    {
      assert messages[..i + 1][..i] == messages[..i];
      var m := messages[i];
      if m.role != System {
        out := out + [SessionMessage(m.role, ContentText(m.content),
                        if HasCalls(m.toolCalls) then Some(SaveCalls(m.toolCalls.value)) else None, m.toolCallId)];
      }
    }
    assert messages[..|messages|] == messages;
  }

  method SessionMessagesToOpenAI(messages: seq<SessionMessage>) returns (out: seq<Message>)
    ensures out == FromSession(messages)
  {
    out := [];
    for i := 0 to |messages|
      invariant out == FromSession(messages[..i])
    {
      assert messages[..i + 1][..i] == messages[..i];
      var m := messages[i];
      if m.role == System { continue; }
      if m.role == Assistant && HasCalls(m.toolCalls) {
        out := out + [Message(Assistant, if m.content != "" then Text(m.content) else Absent,
                              Some(LoadCalls(m.toolCalls.value)), None)];
      } else if m.role == ToolRole {
        out := out + [Message(ToolRole, Text(m.content), None, m.toolCallId)];
      } else {
        out := out + [Message(m.role, Text(m.content), None, None)];
      }
    }
    assert messages[..|messages|] == messages;
  }

  // ---------- what each converter writes ----------

  /** Text is kept, images are not, and parts are joined in order. */
  lemma TextOfContent(text: string, image: Part, a: seq<Part>, b: seq<Part>)
    requires image.ImagePart?
    ensures ContentText(Absent) == "" && ContentText(Text(text)) == text
    ensures ContentText(Parts([])) == "" && ContentText(Parts([TextPart(text)])) == text
    ensures ContentText(Parts([image])) == ""
    ensures ContentText(Parts(a + b)) == ContentText(Parts(a)) + ContentText(Parts(b))
  {
    assert [TextPart(text)][1..] == [] && [image][1..] == [];
    PartsTextConcat(a, b);
  }

  lemma {:induction false} PartsTextConcat(a: seq<Part>, b: seq<Part>)
    ensures PartsText(a + b) == PartsText(a) + PartsText(b)
  {
    if a == [] {
      assert a + b == b;
    } else {
      assert (a + b)[0] == a[0] && (a + b)[1..] == a[1..] + b;
      PartsTextConcat(a[1..], b);
    }
  }

  /** The stored form of a message: its text, its calls without their kind, its call id. */
  predicate SavedAs(m: Message, s: SessionMessage) {
    && s.role == m.role && s.content == ContentText(m.content) && s.toolCallId == m.toolCallId
    && if m.toolCalls.None? || m.toolCalls.value == [] then s.toolCalls.None?
       else && s.toolCalls.Some? && |s.toolCalls.value| == |m.toolCalls.value|
            && forall k | 0 <= k < |m.toolCalls.value| ::
                 var c := m.toolCalls.value[k]; s.toolCalls.value[k] == SessionCall(c.id, c.name, c.arguments)
  }

  /** A loaded message: calls only on assistant turns, ids only on tool results, and text everywhere else. */
  predicate LoadedAs(s: SessionMessage, m: Message) {
    if s.role == Assistant && s.toolCalls.Some? && s.toolCalls.value != []
    then && m.role == Assistant && m.content == (if s.content == "" then Absent else Text(s.content))
         && m.toolCallId.None? && m.toolCalls.Some? && |m.toolCalls.value| == |s.toolCalls.value|
         && forall k | 0 <= k < |s.toolCalls.value| ::
              var c := s.toolCalls.value[k]; m.toolCalls.value[k] == Call(c.id, "function", c.name, c.arguments)
    else m == Message(s.role, Text(s.content), None, if s.role == ToolRole then s.toolCallId else None)
  }

  /** Saving goes message by message, in order, without the system turns. */
  lemma {:induction false} SavingIsMessagewise(a: seq<Message>, m: Message)
    ensures ToSession([]) == []
    ensures m.role == System ==> ToSession(a + [m]) == ToSession(a)
    ensures m.role != System ==> exists s :: SavedAs(m, s) && ToSession(a + [m]) == ToSession(a) + [s]
  {
    assert (a + [m])[..|a|] == a;
    assert SavedAs(m, SaveMessage(m));
  }

  /** Loading likewise; a stored system turn is not replayed. */
  lemma {:induction false} LoadingIsMessagewise(a: seq<SessionMessage>, s: SessionMessage)
    ensures FromSession([]) == []
    ensures s.role == System ==> FromSession(a + [s]) == FromSession(a)
    ensures s.role != System ==> exists m :: LoadedAs(s, m) && FromSession(a + [s]) == FromSession(a) + [m]
  {
    assert (a + [s])[..|a|] == a;
    assert LoadedAs(s, LoadMessage(s));
  }

  // ---------- what a save followed by a load keeps ----------

  predicate NoSystem(ms: seq<Message>) {
    forall m | m in ms :: m.role != System
  }

  function NonSystem(ms: seq<Message>): seq<Message> {
    if ms == [] then []
    else if ms[|ms| - 1].role == System then NonSystem(ms[..|ms| - 1])
    else NonSystem(ms[..|ms| - 1]) + [ms[|ms| - 1]]
  }

  /** A message as the loop itself writes it: plain text, calls of kind "function", ids only on tool results. */
  predicate Plain(m: Message) {
    match m.role
    case System => false
    case User => m.content.Text? && m.toolCalls.None? && m.toolCallId.None?
    case Assistant =>
      && m.toolCallId.None?
      && if m.toolCalls.None? then m.content.Text?
         else && m.toolCalls.value != [] && (m.content.Absent? || (m.content.Text? && m.content.text != ""))
              && forall c | c in m.toolCalls.value :: c.kind == "function"
    case ToolRole => m.content.Text? && m.toolCalls.None?
  }

  lemma PlainSurvives(m: Message)
    ensures LoadMessage(SaveMessage(m)) == m <==>
            || Plain(m)
            || (m.role == System && m.content.Text? && m.toolCalls.None? && m.toolCallId.None?)
  {
    if HasCalls(m.toolCalls) {
      var calls := m.toolCalls.value;
      var back := LoadCalls(SaveCalls(calls));
      if forall c | c in calls :: c.kind == "function" {
        assert back == calls;
      } else {
        var c :| c in calls && c.kind != "function";
        var i :| 0 <= i < |calls| && calls[i] == c;
        assert back[i] != calls[i];
      }
    }
  }

  /** A reload is, message by message, the flattened non-system transcript. */
  lemma {:induction false} ReloadIsElementwise(ms: seq<Message>)
    ensures |FromSession(ToSession(ms))| == |NonSystem(ms)|
    ensures forall i | 0 <= i < |NonSystem(ms)| ::
              FromSession(ToSession(ms))[i] == LoadMessage(SaveMessage(NonSystem(ms)[i]))
  {
    if ms != [] {
      var front, last := ms[..|ms| - 1], ms[|ms| - 1];
      ReloadIsElementwise(front);
      if last.role != System {
        var saved := ToSession(front) + [SaveMessage(last)];
        assert saved[..|saved| - 1] == ToSession(front);
        assert FromSession(saved) == FromSession(ToSession(front)) + [LoadMessage(SaveMessage(last))];
      }
    }
  }

  /** So a plain transcript comes back exactly, without its system turns. */
  lemma ReloadKeepsPlainTranscripts(ms: seq<Message>)
    requires forall m | m in NonSystem(ms) :: Plain(m)
    ensures FromSession(ToSession(ms)) == NonSystem(ms)
  {
    ReloadIsElementwise(ms);
    forall i | 0 <= i < |NonSystem(ms)| ensures FromSession(ToSession(ms))[i] == NonSystem(ms)[i] {
      PlainSurvives(NonSystem(ms)[i]);
    }
  }

  lemma {:induction false} NonSystemOfNonSystem(ms: seq<Message>)
    requires NoSystem(ms)
    ensures NonSystem(ms) == ms
  {
    if ms != [] {
      assert ms[|ms| - 1] in ms;
      NonSystemOfNonSystem(ms[..|ms| - 1]);
    }
  }

  lemma {:induction false} NonSystemConcat(a: seq<Message>, b: seq<Message>)
    ensures NonSystem(a + b) == NonSystem(a) + NonSystem(b)
  {
    if b == [] {
      assert a + b == a;
    } else {
      assert (a + b)[..|a + b| - 1] == a + b[..|b| - 1];
      NonSystemConcat(a, b[..|b| - 1]);
    }
  }

  // ---------- balance ----------

  function CallIds(m: Message): seq<string> {
    if m.role == Assistant && HasCalls(m.toolCalls)
    then seq(|m.toolCalls.value|, i requires 0 <= i < |m.toolCalls.value| => m.toolCalls.value[i].id)
    else []
  }

  /** m is the tool result for call id. */
  predicate Answers(m: Message, id: string) {
    m.role == ToolRole && m.toolCallId == Some(id)
  }

  /** Every assistant turn with tool calls is followed by one tool result per call id, in order, and no others. */
  predicate Balanced(ms: seq<Message>) {
    if ms == [] then true
    else
      var ids := CallIds(ms[0]);
      && ms[0].role != System && ms[0].role != ToolRole
      && |ids| < |ms|
      && (forall k | 0 <= k < |ids| :: Answers(ms[1 + k], ids[k]))
      && Balanced(ms[1 + |ids|..])
  }

  /** What the loop may send: one system turn, first, then a balanced transcript. */
  predicate WellFormed(ms: seq<Message>) {
    ms != [] && ms[0].role == System && Balanced(ms[1..])
  }

  lemma BalancedStep(a: seq<Message>, b: seq<Message>, rest: seq<Message>)
    requires a != [] && Balanced(a)
    requires rest == a[1 + |CallIds(a[0])|..] + b && Balanced(rest)
    ensures Balanced(a + b)
  {
    var ab, ids := a + b, CallIds(a[0]);
    assert ab[0] == a[0];
    forall k | 0 <= k < |ids| ensures Answers(ab[1 + k], ids[k]) {
      assert Answers(a[1 + k], ids[k]);
      assert ab[1 + k] == a[1 + k];
    }
    assert ab[1 + |ids|..] == rest;
  }

  lemma {:induction false} BalancedConcat(a: seq<Message>, b: seq<Message>)
    requires Balanced(a) && Balanced(b)
    ensures Balanced(a + b)
  {
    if a == [] {
      assert a + b == b;
    } else {
      var ids := CallIds(a[0]);
      var n := 1 + |ids|;
      BalancedConcat(a[n..], b);
      BalancedStep(a, b, a[n..] + b);
    }
  }

  lemma {:induction false} BalancedHasNoSystem(ms: seq<Message>)
    requires Balanced(ms)
    ensures NoSystem(ms)
  {
    if ms != [] {
      var n := 1 + |CallIds(ms[0])|;
      BalancedHasNoSystem(ms[n..]);
      forall m | m in ms ensures m.role != System {
        var i :| 0 <= i < |ms| && ms[i] == m;
        if 1 <= i < n { assert Answers(ms[1 + (i - 1)], CallIds(ms[0])[i - 1]); }
        if n <= i { assert ms[n..][i - n] == m; }
      }
    }
  }

  predicate SameShape(a: Message, b: Message) {
    a.role == b.role && CallIds(a) == CallIds(b) && (a.role == ToolRole ==> a.toolCallId == b.toolCallId)
  }

  lemma {:induction false} BalanceIsShape(a: seq<Message>, b: seq<Message>)
    requires |a| == |b| && (forall i | 0 <= i < |a| :: SameShape(a[i], b[i])) && Balanced(a)
    ensures Balanced(b)
  {
    if a != [] {
      assert SameShape(a[0], b[0]);
      var n := 1 + |CallIds(a[0])|;
      forall k | 0 <= k < n - 1 ensures Answers(b[1 + k], CallIds(b[0])[k]) {
        assert Answers(a[1 + k], CallIds(a[0])[k]) && SameShape(a[1 + k], b[1 + k]);
      }
      forall i | 0 <= i < |a[n..]| ensures SameShape(a[n..][i], b[n..][i]) {
        assert SameShape(a[n + i], b[n + i]);
      }
      BalanceIsShape(a[n..], b[n..]);
    }
  }

  lemma ReloadKeepsShape(m: Message)
    ensures SameShape(m, LoadMessage(SaveMessage(m)))
  {
  }

  /** Saving and reloading a transcript never unbalances it, images and all. */
  lemma ReloadStaysBalanced(ms: seq<Message>)
    requires Balanced(NonSystem(ms))
    ensures Balanced(FromSession(ToSession(ms)))
  {
    ReloadIsElementwise(ms);
    var a, b := NonSystem(ms), FromSession(ToSession(ms));
    forall i | 0 <= i < |a| ensures SameShape(a[i], b[i]) { ReloadKeepsShape(a[i]); }
    BalanceIsShape(a, b);
  }
}
