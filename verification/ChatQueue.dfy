/** The chat host's turn queue (createFrontendHost in packages/cli/src/tui.ts). */
module ChatQueue {
  import opened Common

  // ---------- String.prototype.trim ----------

  predicate IsSpace(c: char) {
    var u := c as int;
    || 0x09 <= u <= 0x0D || u == 0x20 || u == 0xA0 || u == 0x1680 || 0x2000 <= u <= 0x200A
    || u == 0x2028 || u == 0x2029 || u == 0x202F || u == 0x205F || u == 0x3000 || u == 0xFEFF
  }

  predicate Blank(s: string) {
    forall c | c in s :: IsSpace(c)
  }

  function TrimStart(s: string): (r: string)
    ensures |r| <= |s| && s[|s| - |r|..] == r && Blank(s[..|s| - |r|])
    ensures r != "" ==> !IsSpace(r[0])
  {
    if s != "" && IsSpace(s[0]) then TrimStart(s[1..]) else s
  }

  function TrimEnd(s: string): (r: string)
    ensures |r| <= |s| && s[..|r|] == r && Blank(s[|r|..])
    ensures r != "" ==> !IsSpace(r[|r| - 1])
  {
    if s != "" && IsSpace(s[|s| - 1]) then TrimEnd(s[..|s| - 1]) else s
  }

  function Trim(s: string): string {
    TrimEnd(TrimStart(s))
  }

  /** A line is skipped exactly when it is blank. */
  lemma SkippedIffBlank(s: string)
    ensures Trim(s) == "" <==> Blank(s)
  {
  }

  lemma TrimmedFront(s: string) returns (front: string)
    ensures s == front + TrimStart(s) && Blank(front)
  {
    front := s[..|s| - |TrimStart(s)|];
  }

  lemma TrimmedBack(s: string) returns (back: string)
    ensures s == TrimEnd(s) + back && Blank(back)
  {
    back := s[|TrimEnd(s)|..];
  }

  /** A text without white space at either end. */
  predicate Tight(s: string) {
    s != "" ==> !IsSpace(s[0]) && !IsSpace(s[|s| - 1])
  }

  lemma TrimmedIsTight(s: string)
    ensures Tight(Trim(s))
  {
    StartsTight(s);
    var t := TrimStart(s);
    EndsTight(t);
  }

  lemma {:induction false} StartsTight(s: string)
    ensures TrimStart(s) != "" ==> !IsSpace(TrimStart(s)[0])
  {
    if s != "" && IsSpace(s[0]) { StartsTight(s[1..]); }
  }

  lemma {:induction false} EndsTight(t: string)
    ensures TrimEnd(t) != "" ==> TrimEnd(t)[0] == t[0] && !IsSpace(TrimEnd(t)[|TrimEnd(t)| - 1])
  {
    if t != "" && IsSpace(t[|t| - 1]) {
      var front := t[..|t| - 1];
      EndsTight(front);
      if TrimEnd(front) != "" { assert front[0] == t[0]; }
    }
  }

  /** Trimming takes off white space at both ends and nothing else. */
  lemma TrimMeaning(s: string) returns (front: string, back: string)
    ensures s == front + Trim(s) + back && Blank(front) && Blank(back) && Tight(Trim(s))
  {
    front := TrimmedFront(s);
    back := TrimmedBack(TrimStart(s));
    TrimmedIsTight(s);
    Regroup(front, TrimEnd(TrimStart(s)), back);
  }

  lemma Regroup<T>(a: seq<T>, b: seq<T>, c: seq<T>)
    ensures a + (b + c) == a + b + c
  {
  }

  /** The white space and line terminators of the ECMAScript specification, sections 12.2 and 12.3. */
  lemma WhiteSpace(c: char)
    ensures IsSpace(c) <==>
            c in ['\t', '\n', '\U{000B}', '\U{000C}', '\r', ' ', '\U{00A0}', '\U{1680}', '\U{2000}', '\U{2001}',
                  '\U{2002}', '\U{2003}', '\U{2004}', '\U{2005}', '\U{2006}', '\U{2007}', '\U{2008}', '\U{2009}',
                  '\U{200A}', '\U{2028}', '\U{2029}', '\U{202F}', '\U{205F}', '\U{3000}', '\U{FEFF}']
  {
  }

  // ---------- the host ----------

  datatype Payload = Payload(text: string, number: nat)

  /**
   * `started`, `rendered` and `fired` record, in order, the turns run, the replies shown and the idle waiters
   * woken.
   */
  datatype Host = Host(count: nat, active: int, queue: seq<string>, idle: seq<nat>, running: seq<Payload>,
                       started: seq<Payload>, rendered: seq<Payload>, fired: seq<nat>)

  /** End(k, ok) is the moment the k-th turn in flight settles, with a reply or with an error. */
  datatype Op = Submit(text: string) | End(k: nat, ok: bool) | Idle(waiter: nat)

  const FRESH := Host(0, 0, [], [], [], [], [], [])

  function Start(h: Host, text: string): Host {
    var p := Payload(text, h.count + 1);
    h.(count := h.count + 1, active := h.active + 1, running := h.running + [p], started := h.started + [p])
  }

  function Settle(h: Host): Host {
    if h.active == 0 && h.queue == [] then h.(fired := h.fired + h.idle, idle := []) else h
  }

  function Finish(h: Host, k: nat, ok: bool): Host
    requires k < |h.running|
  {
    h.(rendered := h.rendered + if ok then [h.running[k]] else [],
       active := h.active - 1, running := h.running[..k] + h.running[k + 1..])
  }

  function Next(h: Host): Host {
    if h.queue != [] then Start(h.(queue := h.queue[1..]), h.queue[0]) else Settle(h)
  }

  function Apply(h: Host, op: Op): Host
    requires op.End? ==> op.k < |h.running|
  {
    match op
    case Submit(text) =>
      var t := Trim(text);
      if t == "" then h
      else if h.active > 0 then h.(queue := h.queue + [t])
      else Start(h, t)
    case End(k, ok) => Next(Finish(h, k, ok))
    case Idle(w) =>
      if h.active == 0 && h.queue == [] then h.(fired := h.fired + [w]) else h.(idle := h.idle + [w])
  }

  class FrontendHost {
    var seqNo: nat
    var active: int
    var queue: seq<string>
    var idleWaiters: seq<nat>
    var running: seq<Payload>
    ghost var started: seq<Payload>
    ghost var rendered: seq<Payload>
    ghost var fired: seq<nat>

    ghost function State(): Host
      reads this
    {
      Host(seqNo, active, queue, idleWaiters, running, started, rendered, fired)
    }

    constructor ()
      ensures State() == FRESH
    {
      seqNo, active, queue, idleWaiters, running := 0, 0, [], [], [];
      started, rendered, fired := [], [], [];
    }

    method Process(text: string)
      modifies this
      ensures State() == Start(old(State()), text)
    {
      active := active + 1;
      seqNo := seqNo + 1;
      var payload := Payload(text, seqNo);
      running := running + [payload];
      started := started + [payload];
    }

    method SubmitLine(text: string)
      modifies this
      ensures State() == Apply(old(State()), Submit(text))
    {
      var trimmed := Trim(text);
      if trimmed == "" { return; }
      if active > 0 { queue := queue + [trimmed]; } else { Process(trimmed); }
    }

    method EndTurn(k: nat, ok: bool) returns (shown: Option<Payload>)
      requires k < |running|
      modifies this
      ensures State() == Apply(old(State()), End(k, ok))
      ensures shown == if ok then Some(old(running)[k]) else None
    {
      shown := None;
      if ok {
        shown := Some(running[k]);
        rendered := rendered + [running[k]];
      }
      running := running[..k] + running[k + 1..];
      active := active - 1;
      if queue != [] {
        var next := queue[0];
        queue := queue[1..];
        Process(next);
      } else if active == 0 && queue == [] {
        fired := fired + idleWaiters;
        idleWaiters := [];
      }
    }

    /** The result says whether the promise is already resolved. */
    method WaitIdle(waiter: nat) returns (now: bool)
      modifies this
      ensures State() == Apply(old(State()), Idle(waiter))
      ensures now <==> old(active == 0 && queue == [])
    {
      now := active == 0 && queue == [];
      if now { fired := fired + [waiter]; } else { idleWaiters := idleWaiters + [waiter]; }
    }
  }

  // ---------- whole histories ----------

  /** A turn can only end while it is in flight. */
  predicate Legal(ops: seq<Op>)
    decreases |ops|, 0
  {
    ops == []
    || var front, last := ops[..|ops| - 1], ops[|ops| - 1];
       Legal(front) && (last.End? ==> last.k < |Run(front).running|)
  }

  function Run(ops: seq<Op>): Host
    requires Legal(ops)
    decreases |ops|, 1
  {
    if ops == [] then FRESH else Apply(Run(ops[..|ops| - 1]), ops[|ops| - 1])
  }

  /** The non-blank lines submitted, trimmed. */
  function Lines(ops: seq<Op>): seq<string> {
    if ops == [] then []
    else
      var before, last := Lines(ops[..|ops| - 1]), ops[|ops| - 1];
      if last.Submit? && Trim(last.text) != "" then before + [Trim(last.text)] else before
  }

  /** How the turns that ended went. */
  function Endings(ops: seq<Op>): seq<bool> {
    if ops == [] then []
    else
      var before, last := Endings(ops[..|ops| - 1]), ops[|ops| - 1];
      if last.End? then before + [last.ok] else before
  }

  function Waiters(ops: seq<Op>): seq<nat> {
    if ops == [] then []
    else
      var before, last := Waiters(ops[..|ops| - 1]), ops[|ops| - 1];
      if last.Idle? then before + [last.waiter] else before
  }

  function Texts(ps: seq<Payload>): (r: seq<string>)
    ensures |r| == |ps|
  {
    if ps == [] then [] else Texts(ps[..|ps| - 1]) + [ps[|ps| - 1].text]
  }

  /** The turns that ended with a reply. */
  function Answered(started: seq<Payload>, endings: seq<bool>): seq<Payload>
    requires |endings| <= |started|
  {
    if endings == [] then []
    else
      var n := |endings| - 1;
      Answered(started, endings[..n]) + if endings[n] then [started[n]] else []
  }

  lemma {:induction false} AnsweredPush(started: seq<Payload>, p: Payload, endings: seq<bool>)
    requires |endings| <= |started|
    ensures Answered(started + [p], endings) == Answered(started, endings)
  {
    if endings != [] { AnsweredPush(started, p, endings[..|endings| - 1]); }
  }

  predicate Numbered(started: seq<Payload>) {
    forall i | 0 <= i < |started| :: started[i].number == i + 1
  }

  /** Everything but the idle rule, which fails for the instant between the end of a turn and the start of the next. */
  predicate Books(h: Host, lines: seq<string>, endings: seq<bool>) {
    && Texts(h.started) + h.queue == lines
    && h.count == |h.started| && Numbered(h.started)
    && |h.started| == |endings| + h.active
    && 0 <= h.active <= 1
    && |endings| <= |h.started| && h.running == h.started[|endings|..]
    && h.rendered == Answered(h.started, endings)
  }

  predicate Quiet(h: Host) {
    h.active == 0 && h.queue == []
  }

  predicate Invariant(h: Host, lines: seq<string>, endings: seq<bool>, waiters: seq<nat>) {
    && Books(h, lines, endings)
    && h.fired + h.idle == waiters
    && (h.active == 0 ==> h.queue == [] && h.idle == [])
  }

  lemma StartKeeps(h: Host, queue: seq<string>, text: string, lines: seq<string>, endings: seq<bool>)
    requires h.active == 0 && Books(h, lines, endings) && h.queue == [text] + queue
    ensures Books(Start(h.(queue := queue), text), lines, endings)
  {
    var p := Payload(text, h.count + 1);
    AnsweredPush(h.started, p, endings);
    assert Texts(h.started) + ([text] + queue) == (Texts(h.started) + [text]) + queue;
    assert h.started[|endings|..] == [];
    assert (h.started + [p])[|endings|..] == [p];
  }

  lemma SubmitKeeps(h: Host, text: string, lines: seq<string>, endings: seq<bool>, waiters: seq<nat>)
    requires Invariant(h, lines, endings, waiters) && text != ""
    ensures var next := if h.active > 0 then h.(queue := h.queue + [text]) else Start(h, text);
            Invariant(next, lines + [text], endings, waiters)
  {
    assert Texts(h.started) + (h.queue + [text]) == (Texts(h.started) + h.queue) + [text];
    if h.active == 0 {
      var ready := h.(queue := [text]);
      assert [text] == [text] + [];
      StartKeeps(ready, [], text, lines + [text], endings);
      assert ready.(queue := []) == h;
    }
  }

  lemma EndKeeps(h: Host, k: nat, ok: bool, lines: seq<string>, endings: seq<bool>, waiters: seq<nat>)
    requires Invariant(h, lines, endings, waiters) && k < |h.running|
    ensures Invariant(Next(Finish(h, k, ok)), lines, endings + [ok], waiters)
  {
    var done := Finish(h, k, ok);
    if done.queue != [] {
      assert done.queue == [done.queue[0]] + done.queue[1..];
      StartKeeps(done, done.queue[1..], done.queue[0], lines, endings + [ok]);
    }
  }

  lemma {:induction false} HistoryKeeps(ops: seq<Op>)
    requires Legal(ops)
    ensures Invariant(Run(ops), Lines(ops), Endings(ops), Waiters(ops))
  {
    if ops != [] {
      var front, last := ops[..|ops| - 1], ops[|ops| - 1];
      HistoryKeeps(front);
      var h := Run(front);
      match last
      case Submit(text) =>
        if Trim(text) != "" { SubmitKeeps(h, Trim(text), Lines(front), Endings(front), Waiters(front)); }
      case End(k, ok) => EndKeeps(h, k, ok, Lines(front), Endings(front), Waiters(front));
      case Idle(w) => assert h.fired + (h.idle + [w]) == (h.fired + h.idle) + [w];
    }
  }

  function Min(a: nat, b: nat): nat {
    if a <= b then a else b
  }

  /**
   * At any point of any history the turns run so far are the first lines submitted, in order, one more than have ended
   * as long as there are that many; they are numbered 1, 2, 3, ...; failed turns change nothing but their own reply.
   */
  lemma TurnsInClosedForm(ops: seq<Op>)
    requires Legal(ops)
    ensures var h := Run(ops); var lines := Lines(ops); var ended := |Endings(ops)|;
            && Texts(h.started) == lines[..Min(|lines|, ended + 1)]
            && Numbered(h.started)
            && ended <= |h.started| && h.rendered == Answered(h.started, Endings(ops))
            && h.active == |h.started| - ended <= 1
  {
    HistoryKeeps(ops);
  }

  /** Once as many turns have ended as lines were submitted, every line has been run and everybody waiting is awake. */
  lemma EverythingIsDrained(ops: seq<Op>)
    requires Legal(ops) && |Endings(ops)| == |Lines(ops)|
    ensures Texts(Run(ops).started) == Lines(ops) && Quiet(Run(ops)) && Run(ops).fired == Waiters(ops)
  {
    HistoryKeeps(ops);
    var h := Run(ops);
    assert |Texts(h.started)| + |h.queue| == |Lines(ops)|;
  }

  lemma WokenWhenQuiet(h: Host, op: Op)
    requires op.End? ==> op.k < |h.running|
    requires h.active == 0 ==> h.queue == [] && h.idle == []
    ensures Apply(h, op).fired != h.fired ==> Quiet(Apply(h, op))
  {
    match op
    case Submit(_) =>
    case End(k, ok) => assert Finish(h, k, ok).fired == h.fired;
    case Idle(_) =>
  }

  /** An idle waiter is only ever woken by a step that leaves nothing in flight and nothing queued; none is lost. */
  lemma IdleMeansQuiet(ops: seq<Op>, op: Op)
    requires Legal(ops) && (op.End? ==> op.k < |Run(ops).running|)
    ensures Apply(Run(ops), op).fired != Run(ops).fired ==> Quiet(Apply(Run(ops), op))
    ensures Quiet(Run(ops)) ==> Run(ops).fired == Waiters(ops)
  {
    HistoryKeeps(ops);
    WokenWhenQuiet(Run(ops), op);
  }
}
