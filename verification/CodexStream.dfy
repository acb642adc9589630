/** Consuming one turn's event stream (consumeStream in packages/codex/src/client.ts). */
module CodexStream {
  import opened Common

  datatype Usage = Usage(input: nat, output: nat, reasoning: nat)

  /** Message is a completed agent_message, whose text is cumulative; Notice is an `error` event. */
  datatype Event = Message(text: string) | OtherItem | TurnCompleted(usage: Usage) | TurnFailed(message: string)
                 | Notice(message: string) | Immaterial

  /** The loop's variables, what it passed to onText and onError, and the failure it threw. */
  datatype Acc = Acc(finalText: string, usage: Option<Usage>, completed: bool, lastError: Option<string>,
                     deltas: seq<string>, errors: seq<string>, failed: Option<string>)

  datatype Outcome = Finished(text: string, usage: Option<Usage>) | Failed(message: string)

  const FRESH := Acc("", None, false, None, [], [], None)

  function Delta(before: string, next: string): string {
    if before <= next then next[|before|..] else next
  }

  function Emit(deltas: seq<string>, delta: string): seq<string> {
    if |delta| > 0 then deltas + [delta] else deltas
  }

  function Consume(a: Acc, e: Event): Acc {
    match e
    case Message(text) => a.(finalText := text, deltas := Emit(a.deltas, Delta(a.finalText, text)))
    case TurnCompleted(usage) => a.(usage := Some(usage), completed := true, lastError := None)
    case TurnFailed(message) => a.(errors := a.errors + [message], failed := Some(message))
    case Notice(message) => a.(lastError := Some(message), errors := a.errors + [message])
    case _ => a
  }

  function Drive(a: Acc, events: seq<Event>): Acc
    decreases events
  {
    if events == [] || a.failed.Some? then a else Drive(Consume(a, events[0]), events[1..])
  }

  function Settle(a: Acc): Outcome {
    if a.failed.Some? then Failed(a.failed.value)
    else if !a.completed && a.lastError.Some? then Failed(a.lastError.value)
    else Finished(a.finalText, a.usage)
  }

  method ConsumeStream(events: seq<Event>) returns (outcome: Outcome, deltas: seq<string>, errors: seq<string>)
    ensures var a := Drive(FRESH, events); outcome == Settle(a) && deltas == a.deltas && errors == a.errors
  {
    var finalText, usage, completed, lastError := "", None, false, None;
    deltas, errors := [], [];
    for i := 0 to |events|
      invariant Drive(FRESH, events)
                == Drive(Acc(finalText, usage, completed, lastError, deltas, errors, None), events[i..])
    {
      assert events[i..][0] == events[i] && events[i..][1..] == events[i + 1..];
      match events[i] {
        case Message(next) =>
          var delta := if finalText <= next then next[|finalText|..] else next;
          finalText := next;
          if |delta| > 0 { deltas := deltas + [delta]; }
        case TurnCompleted(u) =>
          usage := Some(u);
          completed := true;
          lastError := None;
        case TurnFailed(message) =>
          errors := errors + [message];
          return Failed(message), deltas, errors;
        case Notice(message) =>
          lastError := Some(message);
          errors := errors + [message];
        case _ =>
      }
    }
    if !completed && lastError.Some? { return Failed(lastError.value), deltas, errors; }
    return Finished(finalText, usage), deltas, errors;
  }

  // ---------- the outcome ----------

  function FirstFailure(events: seq<Event>): Option<string> {
    if events == [] then None
    else if events[0].TurnFailed? then Some(events[0].message)
    else FirstFailure(events[1..])
  }

  function Notices(events: seq<Event>): seq<string> {
    if events == [] then []
    else if events[0].Notice? then [events[0].message] + Notices(events[1..])
    else Notices(events[1..])
  }

  function Completions(events: seq<Event>): seq<Usage> {
    if events == [] then []
    else if events[0].TurnCompleted? then [events[0].usage] + Completions(events[1..])
    else Completions(events[1..])
  }

  /** The messages read: those before the first turn.failed. */
  function Messages(events: seq<Event>): seq<string> {
    if events == [] || events[0].TurnFailed? then []
    else if events[0].Message? then [events[0].text] + Messages(events[1..])
    else Messages(events[1..])
  }

  function LastOr<T>(xs: seq<T>, other: T): T {
    if xs == [] then other else xs[|xs| - 1]
  }

  function LastOf<T>(xs: seq<T>, other: Option<T>): Option<T> {
    if xs == [] then other else Some(xs[|xs| - 1])
  }

  lemma {:induction false} DriveMeaning(a: Acc, events: seq<Event>)
    requires a.failed.None?
    ensures var b := Drive(a, events);
            && b.failed == FirstFailure(events)
            && b.finalText == LastOr(Messages(events), a.finalText)
            && (b.failed.None? ==>
                  && b.completed == (a.completed || Completions(events) != [])
                  && b.usage == LastOf(Completions(events), a.usage)
                  && (!b.completed ==> b.lastError == LastOf(Notices(events), a.lastError)))
    decreases events
  {
    if events != [] && !events[0].TurnFailed? { DriveMeaning(Consume(a, events[0]), events[1..]); }
  }

  /**
   * turn.failed decides first; otherwise a turn.completed anywhere makes the turn succeed with the last usage and the
   * last message, whatever notices surround it; a stream with notices and no turn.completed fails with the last notice.
   */
  lemma OutcomeMeaning(events: seq<Event>)
    ensures Settle(Drive(FRESH, events)) ==
            if FirstFailure(events).Some? then Failed(FirstFailure(events).value)
            else if Completions(events) == [] && Notices(events) != [] then Failed(LastOr(Notices(events), ""))
            else Finished(LastOr(Messages(events), ""), LastOf(Completions(events), None))
  {
    DriveMeaning(FRESH, events);
  }

  /** What onError hears: each notice, and the failure that ends the turn. */
  function Reports(events: seq<Event>): seq<string> {
    if events == [] then []
    else match events[0]
      case TurnFailed(message) => [message]
      case Notice(message) => [message] + Reports(events[1..])
      case _ => Reports(events[1..])
  }

  /** Every notice up to the end of the turn is reported, in order, and so is the failure; nothing else is. */
  lemma {:induction false} ErrorsAreReported(a: Acc, events: seq<Event>)
    requires a.failed.None?
    ensures Drive(a, events).errors == a.errors + Reports(events)
    decreases events
  {
    if events != [] && !events[0].TurnFailed? { ErrorsAreReported(Consume(a, events[0]), events[1..]); }
  }

  // ---------- deltas ----------

  function Concat(parts: seq<string>): string {
    if parts == [] then "" else Concat(parts[..|parts| - 1]) + parts[|parts| - 1]
  }

  /** Each message extends the one before it. */
  predicate Cumulative(before: string, messages: seq<string>)
    decreases messages
  {
    messages == [] || (before <= messages[0] && Cumulative(messages[0], messages[1..]))
  }

  /** One message: what has been handed out matches the text, or has run ahead of it for good. */
  lemma MessageCovers(a: Acc, text: string)
    requires Concat(a.deltas) == a.finalText || |Concat(a.deltas)| > |a.finalText|
    ensures var b := Consume(a, Message(text));
            if Concat(a.deltas) == a.finalText && a.finalText <= text
            then Concat(b.deltas) == b.finalText else |Concat(b.deltas)| > |b.finalText|
  {
  }

  lemma {:induction false} DeltasCover(a: Acc, events: seq<Event>)
    requires Concat(a.deltas) == a.finalText || |Concat(a.deltas)| > |a.finalText|
    requires a.failed.None?
    ensures var b := Drive(a, events);
            if Concat(a.deltas) == a.finalText && Cumulative(a.finalText, Messages(events))
            then Concat(b.deltas) == b.finalText
            else |Concat(b.deltas)| > |b.finalText|
    decreases events
  {
    if events != [] && !events[0].TurnFailed? {
      if events[0].Message? { MessageCovers(a, events[0].text); }
      DeltasCover(Consume(a, events[0]), events[1..]);
    }
  }

  /** The deltas handed out concatenate to the final text exactly when every message extends the one before it. */
  lemma DeltasAreTheTextIff(events: seq<Event>)
    ensures var a := Drive(FRESH, events);
            Concat(a.deltas) == a.finalText <==> Cumulative("", Messages(events))
  {
    DeltasCover(FRESH, events);
  }

  /** A second message that starts afresh: both are handed out whole, and only the second is the final text. */
  lemma FreshMessageIsHandedOutWhole(one: string, two: string)
    requires one != "" && two != "" && !(one <= two)
    ensures var a := Drive(FRESH, [Message(one), Message(two)]); a.deltas == [one, two] && a.finalText == two
  {
    var events := [Message(one), Message(two)];
    assert events[1..] == [Message(two)] && [Message(two)][1..] == [];
    var first := Consume(FRESH, Message(one));
    assert "" <= one && one[|""|..] == one && [] + [one] == [one];
    assert first.deltas == [one] && first.finalText == one;
    var second := Consume(first, Message(two));
    assert second.deltas == [one] + [two] == [one, two];
    assert Drive(FRESH, events) == Drive(first, [Message(two)]) == Drive(second, []) == second;
  }

  /** Empty deltas are not handed out. */
  lemma {:induction false} NoEmptyDelta(a: Acc, events: seq<Event>)
    requires "" !in a.deltas
    ensures "" !in Drive(a, events).deltas
    decreases events
  {
    if events != [] && a.failed.None? { NoEmptyDelta(Consume(a, events[0]), events[1..]); }
  }
}
