/** When a tree of failover wrappers with different retryables behaves like one wrapper over its leaves. */
module Flattening {
  import opened Common
  import opened Routing

  function Ids(bs: seq<Backend>): set<string> {
    set b | b in bs :: b.id
  }

  predicate DistinctIds(bs: seq<Backend>) {
    forall i, j | 0 <= i < j < |bs| :: bs[i].id != bs[j].id
  }

  lemma DistinctParts(a: seq<Backend>, b: seq<Backend>)
    requires DistinctIds(a + b)
    ensures DistinctIds(a) && DistinctIds(b) && Ids(a) !! Ids(b)
  {
    var ab := a + b;
    assert forall i | 0 <= i < |a| :: ab[i] == a[i];
    assert forall i | 0 <= i < |b| :: ab[|a| + i] == b[i];
  }

  // ---------- calls stay among the leaves, and there are some ----------

  lemma {:induction false} CallsAreLeaves(b: Backend, m: Method)
    ensures forall x | x in Call(b, m).calls :: x in Ids(Leaves(b))
    decreases b, 1
  {
    match b
    case Leaf(_, _, _, _) => assert b in Leaves(b);
    case Router(_, children, own) => TriesAreLeaves(children, m, own, None);
  }

  lemma {:induction false} TriesAreLeaves(bs: seq<Backend>, m: Method, own: iset<string>, last: Option<string>)
    ensures forall x | x in TryEach(bs, m, own, last).calls :: x in Ids(AllLeaves(bs))
    decreases bs, 0
  {
    if bs != [] {
      assert forall l | l in Leaves(bs[0]) + AllLeaves(bs[1..]) :: l in AllLeaves(bs);
      CallsAreLeaves(bs[0], m);
      TriesAreLeaves(bs[1..], m, own, last);
      if Call(bs[0], m).result.Err? { TriesAreLeaves(bs[1..], m, own, Call(bs[0], m).result.error); }
    }
  }

  lemma {:induction false} LeavesAreTheirOwn(ls: seq<Backend>)
    requires AllLeaf(ls)
    ensures AllLeaves(ls) == ls
  {
    if ls != [] {
      assert ls[0] in ls && forall l | l in ls[1..] :: l in ls;
      LeavesAreTheirOwn(ls[1..]);
    }
  }

  lemma FlatTriesAreLeaves(bs: seq<Backend>, m: Method, fatal: iset<string>, last: Option<string>)
    ensures forall x | x in TryEach(AllLeaves(bs), m, fatal, last).calls :: x in Ids(AllLeaves(bs))
  {
    AllLeavesAreLeaves(bs);
    LeavesAreTheirOwn(AllLeaves(bs));
    TriesAreLeaves(AllLeaves(bs), m, fatal, last);
  }

  lemma {:induction false} SomebodyIsCalled(b: Backend, m: Method)
    requires Supports(b, m)
    ensures Call(b, m).calls != []
    decreases b, 1
  {
    if b.Router? { SomebodyIsTried(b.children, m, b.fatal, None); }
  }

  lemma {:induction false} SomebodyIsTried(bs: seq<Backend>, m: Method, own: iset<string>, last: Option<string>)
    requires AnySupports(bs, m)
    ensures TryEach(bs, m, own, last).calls != []
    decreases bs, 0
  {
    if Supports(bs[0], m) {
      SomebodyIsCalled(bs[0], m);
    } else {
      assert forall b | b in bs :: b == bs[0] || b in bs[1..];
      SomebodyIsTried(bs[1..], m, own, last);
    }
  }

  // ---------- without agreement some provider is called by one and not by the other ----------

  predicate ToldApart(x: string, a: seq<string>, b: seq<string>) {
    x in a <==> x !in b
  }

  lemma {:induction false} Diverges(b: Backend, m: Method, fatal: iset<string>) returns (x: string)
    requires !Agrees(b, m, fatal) && DistinctIds(Leaves(b))
    ensures x in Ids(Leaves(b)) && ToldApart(x, Call(b, m).calls, TryEach(Leaves(b), m, fatal, None).calls)
    decreases b, 1
  {
    x := DivergesAmong(b.children, m, b.fatal, fatal, None);
  }

  lemma {:induction false} DivergesAmong(bs: seq<Backend>, m: Method, own: iset<string>, fatal: iset<string>,
                                         last: Option<string>)
    returns (x: string)
    requires !AgreesAmong(bs, m, own, fatal) && DistinctIds(AllLeaves(bs)) && !Refused(fatal, last)
    ensures x in Ids(AllLeaves(bs))
    ensures ToldApart(x, TryEach(bs, m, own, last).calls, TryEach(AllLeaves(bs), m, fatal, last).calls)
    decreases bs, 0
  {
    var head, tail := bs[0], bs[1..];
    DistinctParts(Leaves(head), AllLeaves(tail));
    LeavesSupport(head, m);
    TryEachConcat(Leaves(head), AllLeaves(tail), m, fatal, last);
    if !Supports(head, m) {
      NobodySupports(Leaves(head), m, fatal, last);
      x := DivergesAmong(tail, m, own, fatal, last);
    } else {
      LastIsForgotten(Leaves(head), m, fatal, last);
      if !Agrees(head, m, fatal) {
        x := Diverges(head, m, fatal);
        ApartFromTheStart(bs, m, own, fatal, last, x);
      } else {
        CallIsFlat(head, m, fatal);
        CallsAreLeaves(head, m);
        x := DivergesLater(head, tail, m, own, fatal);
      }
    }
  }

  lemma ApartFromTheStart(bs: seq<Backend>, m: Method, own: iset<string>, fatal: iset<string>, last: Option<string>,
                          x: string)
    requires bs != [] && Supports(bs[0], m) && !Refused(fatal, last)
    requires Ids(Leaves(bs[0])) !! Ids(AllLeaves(bs[1..])) && x in Ids(Leaves(bs[0]))
    requires ToldApart(x, Call(bs[0], m).calls, TryEach(Leaves(bs[0]), m, fatal, last).calls)
    ensures ToldApart(x, TryEach(bs, m, own, last).calls, TryEach(AllLeaves(bs), m, fatal, last).calls)
  {
    TryEachConcat(Leaves(bs[0]), AllLeaves(bs[1..]), m, fatal, last);
    NotLater(bs[0], bs[1..], m, own, x);
    NotLaterFlat(bs[0], bs[1..], m, fatal, x);
  }

  /** Whatever the tail does, it does not call a provider of the head. */
  lemma NotLater(head: Backend, tail: seq<Backend>, m: Method, own: iset<string>, x: string)
    requires Ids(Leaves(head)) !! Ids(AllLeaves(tail)) && x in Ids(Leaves(head))
    ensures forall last :: x !in TryEach(tail, m, own, last).calls
  {
    forall last ensures x !in TryEach(tail, m, own, last).calls { TriesAreLeaves(tail, m, own, last); }
  }

  lemma NotLaterFlat(head: Backend, tail: seq<Backend>, m: Method, fatal: iset<string>, x: string)
    requires Ids(Leaves(head)) !! Ids(AllLeaves(tail)) && x in Ids(Leaves(head))
    ensures forall last :: x !in TryEach(AllLeaves(tail), m, fatal, last).calls
  {
    forall last ensures x !in TryEach(AllLeaves(tail), m, fatal, last).calls {
      FlatTriesAreLeaves(tail, m, fatal, last);
    }
  }

  /** The first provider the one goes on to, when the other stops; or one told apart further on. */
  lemma {:induction false} DivergesLater(head: Backend, tail: seq<Backend>, m: Method, own: iset<string>,
                                         fatal: iset<string>)
    returns (x: string)
    requires Supports(head, m) && Agrees(head, m, fatal) && DistinctIds(AllLeaves(tail))
    requires !(MovesOnAlike(head, tail, m, own, fatal)
               && (MovesOn(head, tail, m, own) ==> AgreesAmong(tail, m, own, fatal)))
    ensures x in Ids(AllLeaves(tail)) && Call(head, m).result.Err?
    ensures var error := Call(head, m).result.error;
            ToldApart(x, if Refused(own, error) then [] else TryEach(tail, m, own, error).calls,
                      if Refused(fatal, error) then [] else TryEach(AllLeaves(tail), m, fatal, error).calls)
    decreases tail, 1
  {
    var error := Call(head, m).result.error;
    AllLeavesSupport(tail, m);
    if MovesOnAlike(head, tail, m, own, fatal) {
      x := DivergesAmong(tail, m, own, fatal, error);
    } else if Refused(own, error) {
      SomebodyIsTried(AllLeaves(tail), m, fatal, error);
      FlatTriesAreLeaves(tail, m, fatal, error);
      x := TryEach(AllLeaves(tail), m, fatal, error).calls[0];
    } else {
      SomebodyIsTried(tail, m, own, error);
      TriesAreLeaves(tail, m, own, error);
      x := TryEach(tail, m, own, error).calls[0];
    }
  }

  /**
   * For providers with distinct ids: a tree of wrappers, whatever each of them refuses, behaves like one wrapper over
   * its leaves exactly when, wherever a failed child has a later sibling with the method, its wrapper goes on exactly
   * when the flat one would.
   */
  lemma FlattensIff(b: Backend, m: Method, fatal: iset<string>, id: string)
    requires DistinctIds(Leaves(b))
    ensures Call(b, m) == Call(Router(id, Leaves(b), fatal), m) <==> Agrees(b, m, fatal)
  {
    if Agrees(b, m, fatal) {
      CallIsFlat(b, m, fatal);
    } else {
      var x := Diverges(b, m, fatal);
    }
  }

  // ---------- whatever the providers answer ----------

  ghost predicate RefusesAll(fatal: iset<string>) {
    forall e :: e in fatal
  }

  /**
   * Every wrapper with a choice that can be reached refuses exactly the errors in `fatal`: a test on the tree, before
   * any call. When `fatal` refuses every error, nothing after a first child that has the method is ever reached.
   */
  ghost predicate SettledFor(b: Backend, m: Method, fatal: iset<string>)
    decreases b, 1
  {
    b.Router? ==> AllSettledFor(b.children, m, b.fatal, fatal)
  }

  ghost predicate AllSettledFor(bs: seq<Backend>, m: Method, own: iset<string>, fatal: iset<string>)
    decreases bs, 0
  {
    bs == []
    || if !Supports(bs[0], m) then AllSettledFor(bs[1..], m, own, fatal)
       else && SettledFor(bs[0], m, fatal)
            && (AnySupports(bs[1..], m) ==> own == fatal)
            && (RefusesAll(fatal) || AllSettledFor(bs[1..], m, own, fatal))
  }

  /** The same tree with other answers: each provider that has a method answers it as told for its id. */
  function Answer(b: Backend, answers: string -> Outcome): Backend
    decreases b, 1
  {
    match b
    case Leaf(id, caps, inference, run) =>
      Leaf(id, caps, if inference.Some? then Some(answers(id)) else None, if run.Some? then Some(answers(id)) else None)
    case Router(id, children, own) => Router(id, AnswerAll(children, answers), own)
  }

  function AnswerAll(bs: seq<Backend>, answers: string -> Outcome): (r: seq<Backend>)
    ensures |r| == |bs|
    decreases bs, 0
  {
    if bs == [] then [] else [Answer(bs[0], answers)] + AnswerAll(bs[1..], answers)
  }

  lemma {:induction false} AnswersKeepSupport(b: Backend, m: Method, answers: string -> Outcome)
    ensures Supports(Answer(b, answers), m) <==> Supports(b, m)
    decreases b, 1
  {
    if b.Router? {
      AnswersKeepAnySupport(b.children, m, answers);
      assert Supports(b, m) <==> AnySupports(b.children, m);
      assert Supports(Answer(b, answers), m) <==> AnySupports(AnswerAll(b.children, answers), m);
    }
  }

  lemma {:induction false} AnswersKeepAnySupport(bs: seq<Backend>, m: Method, answers: string -> Outcome)
    ensures AnySupports(AnswerAll(bs, answers), m) <==> AnySupports(bs, m)
    decreases bs, 0
  {
    if bs != [] {
      AnswersKeepSupport(bs[0], m, answers);
      AnswersKeepAnySupport(bs[1..], m, answers);
      SupportSplit(bs, m);
      SupportSplit(AnswerAll(bs, answers), m);
      assert AnswerAll(bs, answers)[1..] == AnswerAll(bs[1..], answers);
    }
  }

  lemma SupportSplit(bs: seq<Backend>, m: Method)
    requires bs != []
    ensures AnySupports(bs, m) <==> Supports(bs[0], m) || AnySupports(bs[1..], m)
  {
    assert bs[0] in bs;
    assert forall b | b in bs :: b == bs[0] || b in bs[1..];
    assert forall b | b in bs[1..] :: b in bs;
  }

  function IdList(bs: seq<Backend>): (r: seq<string>)
    ensures |r| == |bs| && forall i | 0 <= i < |bs| :: r[i] == bs[i].id
  {
    if bs == [] then [] else [bs[0].id] + IdList(bs[1..])
  }

  lemma {:induction false} IdListConcat(a: seq<Backend>, b: seq<Backend>)
    ensures IdList(a + b) == IdList(a) + IdList(b)
  {
    if a == [] {
      assert a + b == b;
    } else {
      assert (a + b)[0] == a[0] && (a + b)[1..] == a[1..] + b;
      IdListConcat(a[1..], b);
    }
  }

  lemma {:induction false} AnswersKeepIds(b: Backend, answers: string -> Outcome)
    ensures IdList(Leaves(Answer(b, answers))) == IdList(Leaves(b))
    decreases b, 1
  {
    if b.Router? { AnswersKeepAllIds(b.children, answers); }
  }

  lemma {:induction false} AnswersKeepAllIds(bs: seq<Backend>, answers: string -> Outcome)
    ensures IdList(AllLeaves(AnswerAll(bs, answers))) == IdList(AllLeaves(bs))
    decreases bs, 0
  {
    if bs != [] {
      AnswersKeepIds(bs[0], answers);
      AnswersKeepAllIds(bs[1..], answers);
      var answered := AnswerAll(bs, answers);
      assert answered[1..] == AnswerAll(bs[1..], answers);
      IdListConcat(Leaves(bs[0]), AllLeaves(bs[1..]));
      IdListConcat(Leaves(answered[0]), AllLeaves(answered[1..]));
    }
  }

  lemma DistinctById(a: seq<Backend>, b: seq<Backend>)
    requires IdList(a) == IdList(b) && DistinctIds(a)
    ensures DistinctIds(b)
  {
    forall i, j | 0 <= i < j < |b| ensures b[i].id != b[j].id {
      assert IdList(b)[i] == a[i].id && IdList(b)[j] == a[j].id;
    }
  }

  /** A wrapper that called somebody fails with an error of theirs. */
  lemma {:induction false} FailureHasAnError(b: Backend, m: Method)
    requires Supports(b, m) && Call(b, m).result.Err?
    ensures Call(b, m).result.error.Some?
    decreases b, 1
  {
    if b.Router? {
      assert AnySupports(b.children, m);
      LastErrorIsSome(b.children, m, b.fatal, None);
    }
  }

  lemma {:induction false} LastErrorIsSome(bs: seq<Backend>, m: Method, own: iset<string>, last: Option<string>)
    requires (AnySupports(bs, m) || last.Some?) && TryEach(bs, m, own, last).result.Err?
    ensures TryEach(bs, m, own, last).result.error.Some?
    decreases bs, 0
  {
    if bs != [] {
      SupportSplit(bs, m);
      if !Supports(bs[0], m) {
        LastErrorIsSome(bs[1..], m, own, last);
      } else {
        FailureHasAnError(bs[0], m);
        var error := Call(bs[0], m).result.error;
        if !Refused(own, error) { LastErrorIsSome(bs[1..], m, own, error); }
      }
    }
  }

  lemma {:induction false} SettledAgrees(b: Backend, m: Method, fatal: iset<string>, answers: string -> Outcome)
    requires SettledFor(b, m, fatal)
    ensures Agrees(Answer(b, answers), m, fatal)
    decreases b, 1
  {
    if b.Router? { AllSettledAgree(b.children, m, b.fatal, fatal, answers); }
  }

  lemma {:induction false} AllSettledAgree(bs: seq<Backend>, m: Method, own: iset<string>, fatal: iset<string>,
                                           answers: string -> Outcome)
    requires AllSettledFor(bs, m, own, fatal)
    ensures AgreesAmong(AnswerAll(bs, answers), m, own, fatal)
    decreases bs, 0
  {
    if bs != [] {
      var head, tail := bs[0], bs[1..];
      assert AnswerAll(bs, answers)[1..] == AnswerAll(tail, answers);
      AnswersKeepSupport(head, m, answers);
      AnswersKeepAnySupport(tail, m, answers);
      if !Supports(head, m) {
        AllSettledAgree(tail, m, own, fatal, answers);
      } else {
        SettledAgrees(head, m, fatal, answers);
        if !RefusesAll(fatal) {
          AllSettledAgree(tail, m, own, fatal, answers);
        } else if Call(Answer(head, answers), m).result.Err? {
          FailureHasAnError(Answer(head, answers), m);
        }
      }
    }
  }

  // ---------- answers that tell an unsettled tree from a flat one ----------

  /** Everybody fails: some providers with `error`, the others with `neutral`. */
  function Blame(culprits: set<string>, error: string, neutral: string): string -> Outcome {
    id => Failure(if id in culprits then error else neutral)
  }

  predicate AllAnswer(ids: set<string>, answers: string -> Outcome, error: string) {
    forall id | id in ids :: answers(id) == Failure(error)
  }

  /** When everybody fails with the same error, so does the wrapper, whatever anybody refuses. */
  lemma {:induction false} OneErrorForAll(b: Backend, m: Method, answers: string -> Outcome, error: string)
    requires Supports(b, m) && AllAnswer(Ids(Leaves(b)), answers, error)
    ensures Call(Answer(b, answers), m).result == Err(Some(error))
    decreases b, 1
  {
    match b
    case Leaf(id, _, _, _) => assert b in Leaves(b) && id in Ids(Leaves(b));
    case Router(_, children, own) =>
      assert AnySupports(children, m);
      OneErrorAmong(children, m, own, Some(error), answers, error);
      AnswersKeepAnySupport(children, m, answers);
      LastIsForgotten(AnswerAll(children, answers), m, own, Some(error));
  }

  lemma {:induction false} OneErrorAmong(bs: seq<Backend>, m: Method, own: iset<string>, last: Option<string>,
                                         answers: string -> Outcome, error: string)
    requires AllAnswer(Ids(AllLeaves(bs)), answers, error) && last == Some(error)
    ensures TryEach(AnswerAll(bs, answers), m, own, last).result == Err(Some(error))
    decreases bs, 0
  {
    if bs != [] {
      var head, tail := bs[0], bs[1..];
      assert AnswerAll(bs, answers)[1..] == AnswerAll(tail, answers);
      assert bs == [head] + tail;
      forall x ensures x in Ids(AllLeaves(bs)) <==> x in Ids(Leaves(head)) || x in Ids(AllLeaves(tail)) {
        InEitherPart(head, tail, x);
      }
      AnswersKeepSupport(head, m, answers);
      OneErrorAmong(tail, m, own, last, answers, error);
      if Supports(head, m) { OneErrorForAll(head, m, answers, error); }
    }
  }

  lemma InEitherPart(head: Backend, tail: seq<Backend>, x: string)
    ensures x in Ids(AllLeaves([head] + tail)) <==> x in Ids(Leaves(head)) || x in Ids(AllLeaves(tail))
  {
    assert ([head] + tail)[1..] == tail;
    assert forall l :: l in AllLeaves([head] + tail) <==> l in Leaves(head) || l in AllLeaves(tail);
  }

  /** Answers on which a tree that is not settled disagrees with the flat wrapper. */
  lemma {:induction false} Provoke(b: Backend, m: Method, fatal: iset<string>, neutral: string)
    returns (culprits: set<string>, error: string)
    requires !SettledFor(b, m, fatal) && DistinctIds(Leaves(b)) && (neutral in fatal ==> RefusesAll(fatal))
    ensures !Agrees(Answer(b, Blame(culprits, error, neutral)), m, fatal)
    ensures culprits <= Ids(Leaves(b))
    decreases b, 1
  {
    culprits, error := ProvokeAmong(b.children, m, b.fatal, fatal, neutral);
  }

  lemma {:induction false} ProvokeAmong(bs: seq<Backend>, m: Method, own: iset<string>, fatal: iset<string>,
                                        neutral: string)
    returns (culprits: set<string>, error: string)
    requires !AllSettledFor(bs, m, own, fatal) && DistinctIds(AllLeaves(bs))
    requires neutral in fatal ==> RefusesAll(fatal)
    ensures !AgreesAmong(AnswerAll(bs, Blame(culprits, error, neutral)), m, own, fatal)
    ensures culprits <= Ids(AllLeaves(bs)) && AnySupports(bs, m)
    decreases bs, 0
  {
    var head, tail := bs[0], bs[1..];
    SupportSplit(bs, m);
    DistinctParts(Leaves(head), AllLeaves(tail));
    assert bs == [head] + tail;
    if !Supports(head, m) {
      culprits, error := ProvokeAmong(tail, m, own, fatal, neutral);
      ProvokedTail(head, tail, m, own, fatal, Blame(culprits, error, neutral));
    } else if !SettledFor(head, m, fatal) {
      culprits, error := Provoke(head, m, fatal, neutral);
      ProvokedHead(head, tail, m, own, fatal, Blame(culprits, error, neutral));
    } else if own != fatal && AnySupports(tail, m) {
      culprits := Ids(Leaves(head));
      error := OneRefuses(own, fatal);
      OneErrorForAll(head, m, Blame(culprits, error, neutral), error);
      ProvokedChoice(head, tail, m, own, fatal, Blame(culprits, error, neutral));
    } else {
      culprits, error := ProvokeAmong(tail, m, own, fatal, neutral);
      OneErrorForAll(head, m, Blame(culprits, error, neutral), neutral);
      ProvokedTail(head, tail, m, own, fatal, Blame(culprits, error, neutral));
    }
    forall x | x in culprits ensures x in Ids(AllLeaves(bs)) { InEitherPart(head, tail, x); }
  }

  lemma OneRefuses(a: iset<string>, b: iset<string>) returns (e: string)
    requires a != b
    ensures e in a <==> e !in b
  {
    if x :| x in a && x !in b { e := x; } else { e :| e in b && e !in a; }
  }

  lemma AnsweredPair(head: Backend, tail: seq<Backend>, answers: string -> Outcome)
    ensures var r := AnswerAll([head] + tail, answers);
            r[0] == Answer(head, answers) && r[1..] == AnswerAll(tail, answers)
  {
    assert ([head] + tail)[1..] == tail;
  }

  lemma ProvokedHead(head: Backend, tail: seq<Backend>, m: Method, own: iset<string>, fatal: iset<string>,
                     answers: string -> Outcome)
    requires Supports(head, m) && !Agrees(Answer(head, answers), m, fatal)
    ensures !AgreesAmong(AnswerAll([head] + tail, answers), m, own, fatal)
  {
    AnsweredPair(head, tail, answers);
    AnswersKeepSupport(head, m, answers);
  }

  lemma ProvokedChoice(head: Backend, tail: seq<Backend>, m: Method, own: iset<string>, fatal: iset<string>,
                       answers: string -> Outcome)
    requires Supports(head, m) && AnySupports(tail, m) && Call(Answer(head, answers), m).result.Err?
    requires var e := Call(Answer(head, answers), m).result.error; Refused(own, e) <==> !Refused(fatal, e)
    ensures !AgreesAmong(AnswerAll([head] + tail, answers), m, own, fatal)
  {
    AnsweredPair(head, tail, answers);
    AnswersKeepSupport(head, m, answers);
    AnswersKeepAnySupport(tail, m, answers);
  }

  lemma ProvokedTail(head: Backend, tail: seq<Backend>, m: Method, own: iset<string>, fatal: iset<string>,
                     answers: string -> Outcome)
    requires AnySupports(tail, m) && !AgreesAmong(AnswerAll(tail, answers), m, own, fatal)
    requires Supports(head, m) ==>
               var r := Call(Answer(head, answers), m).result;
               r.Err? && !Refused(own, r.error) && !Refused(fatal, r.error)
    ensures !AgreesAmong(AnswerAll([head] + tail, answers), m, own, fatal)
  {
    AnsweredPair(head, tail, answers);
    AnswersKeepSupport(head, m, answers);
    AnswersKeepAnySupport(tail, m, answers);
  }

  /** An error outside `fatal`, unless there is none. */
  lemma NotRefused(fatal: iset<string>) returns (neutral: string)
    ensures neutral in fatal ==> RefusesAll(fatal)
  {
    if e :| e !in fatal { neutral := e; } else { neutral := ""; }
  }

  ghost predicate FlatFor(b: Backend, m: Method, fatal: iset<string>, id: string, answers: string -> Outcome) {
    var answered := Answer(b, answers);
    Call(answered, m) == Call(Router(id, Leaves(answered), fatal), m)
  }

  /**
   * For providers with distinct ids: whatever they answer, a tree of wrappers behaves like one wrapper that refuses
   * `fatal` over its leaves, exactly when every wrapper that can be reached and has two children with the method
   * refuses just `fatal`.
   */
  lemma FlattensForAllAnswersIff(b: Backend, m: Method, fatal: iset<string>, id: string)
    requires DistinctIds(Leaves(b))
    ensures (forall answers :: FlatFor(b, m, fatal, id, answers)) <==> SettledFor(b, m, fatal)
  {
    if SettledFor(b, m, fatal) {
      forall answers ensures FlatFor(b, m, fatal, id, answers) {
        SettledAgrees(b, m, fatal, answers);
        CallIsFlat(Answer(b, answers), m, fatal);
      }
    } else {
      var neutral := NotRefused(fatal);
      var culprits, error := Provoke(b, m, fatal, neutral);
      var answers := Blame(culprits, error, neutral);
      AnswersKeepIds(b, answers);
      DistinctById(Leaves(b), Leaves(Answer(b, answers)));
      FlattensIff(Answer(b, answers), m, fatal, id);
      assert !FlatFor(b, m, fatal, id, answers);
    }
  }

  // ---------- a tree that no single wrapper replaces ----------

  /** An inner wrapper that refuses "e", inside a default one with a further provider. */
  function MixedTree(): Backend {
    var caps := Capabilities(true, true, true, true, true, true, Native, None, None);
    var p := Leaf("p", caps, Some(Failure("e")), None);
    var q := Leaf("q", caps, Some(Success("v")), None);
    var r := Leaf("r", caps, Some(Success("w")), None);
    Router("outer", [Router("inner", [p, q], iset{"e"}), r], iset{})
  }

  /** "p" fails with "e": the inner wrapper gives up on "q", the outer one goes on to "r"; a flat one cannot do both. */
  lemma MixedRetryablesDoNotFlatten(fatal: iset<string>, id: string)
    ensures Call(MixedTree(), Inference) == Attempt(["p", "r"], Ok("w"))
    ensures Call(MixedTree(), Inference) != Call(Router(id, Leaves(MixedTree()), fatal), Inference)
  {
    var outer := MixedTree();
    var inner, r := outer.children[0], outer.children[1];
    var p, q := inner.children[0], inner.children[1];
    assert inner.children[1..] == [q] && outer.children[1..] == [r] && [r][1..] == [] && [q][1..] == [];
    assert p in inner.children && Supports(p, Inference) && Supports(q, Inference) && Supports(r, Inference);
    assert Call(inner, Inference) == Attempt(["p"], Err(Some("e")));
    assert TryEach([r], Inference, iset{}, Some("e")) == Attempt(["r"], Ok("w"));
    assert ["p"] + ["r"] == ["p", "r"];
    assert Leaves(inner) == [p, q] by { assert AllLeaves([q]) == [q]; }
    assert Leaves(outer) == [p, q, r] by { assert AllLeaves([r]) == [r]; }
    FirstTwo(p, q, [r], fatal);
    assert [p, q, r] == [p, q] + [r];
  }

  /** A flat wrapper either stops at the first failure or goes on to the very next provider. */
  lemma FirstTwo(p: Backend, q: Backend, rest: seq<Backend>, fatal: iset<string>)
    requires p.Leaf? && p.inference == Some(Failure("e")) && q.Leaf? && q.inference == Some(Success("v"))
    ensures TryEach([p, q] + rest, Inference, fatal, None).result.Err?
            || TryEach([p, q] + rest, Inference, fatal, None).result == Ok("v")
  {
    var all := [p, q] + rest;
    assert all[0] == p && all[1..][0] == q;
    assert Supports(p, Inference) && Supports(q, Inference);
    assert Call(p, Inference).result == Err(Some("e")) && Call(q, Inference).result == Ok("v");
    assert TryEach(all[1..], Inference, fatal, Some("e")).result == Ok("v");
  }
}
