/** What the step builders return or report, and which wait they name (packages/core/src/builders.ts). */
module BuilderAnswers {
  import opened Common

  import opened Steps
  import opened WaitPlacement

  // ---------- the wait that is named ----------

  /** Comes earlier in the order in which the children are listed, or above. */
  predicate Before(a: seq<nat>, b: seq<nat>) {
    if b == [] then false
    else if a == [] then true
    else a[0] < b[0] || (a[0] == b[0] && Before(a[1..], b[1..]))
  }

  /** The wait at the path comes before any other that is statically reachable. */
  ghost predicate FirstAt(s: Step, path: seq<nat>, id: string) {
    NodeAt(s, path, false) == Some(Wait(id)) && forall other :: Before(other, path) ==> !WaitAt(s, other, false)
  }

  lemma {:induction false} FirstAmong(steps: seq<Step>) returns (i: nat)
    requires FirstWaitAmong(steps).Some?
    ensures i < |steps| && FirstWait(steps[i]) == FirstWaitAmong(steps)
    ensures forall j | 0 <= j < i :: FirstWait(steps[j]).None?
  {
    if FirstWait(steps[0]).Some? {
      i := 0;
    } else {
      var k := FirstAmong(steps[1..]);
      i := k + 1;
      assert forall j | 0 < j < i :: steps[j] == steps[1..][j - 1];
    }
  }

  /** The walk goes through the static children in order. */
  lemma FirstChild(s: Step) returns (i: nat)
    requires FirstWait(s).Some? && !s.Wait?
    ensures i < |StaticChildren(s)| && FirstWait(StaticChildren(s)[i]) == FirstWait(s)
    ensures forall j | 0 <= j < i :: FirstWait(StaticChildren(s)[j]).None?
  {
    match s
    case Parallel(_, steps) => i := FirstAmong(steps);
    case Nested(_, pipeline) => i := FirstAmong(pipeline.steps);
    case Branch(_, _, cases, fallback) =>
      if FirstWaitAmong(cases).Some? {
        i := FirstAmong(cases);
      } else {
        i := |cases|;
        NoneAmong(cases);
      }
    case Loop(_, _) => i := 0;
    case Idempotent(_, _) => i := 0;
  }

  /** The check names the first wait, in the order of the tree. */
  lemma {:induction false} NamesTheFirstWait(s: Step) returns (path: seq<nat>)
    requires FirstWait(s).Some?
    ensures FirstAt(s, path, FirstWait(s).value)
    decreases s
  {
    if s.Wait? {
      path := [];
    } else {
      var i := FirstChild(s);
      var children := StaticChildren(s);
      ChildIsSmaller(s, i);
      var below := NamesTheFirstWait(children[i]);
      path := [i] + below;
      assert path[1..] == below;
      forall other | Before(other, path) ensures !WaitAt(s, other, false) {
        if WaitAt(s, other, false) && other != [] {
          assert Children(s, false) == children && WaitAt(children[other[0]], other[1..], false);
          if other[0] < i { PathImpliesWait(children[other[0]], other[1..]); }
        }
      }
    }
  }

  // ---------- siblings ----------

  /** The k-th sibling is the first with a problem: an id already taken, or else a wait inside. */
  ghost predicate ProblemAt(steps: seq<Step>, k: int, e: BuildError) {
    && 0 <= k < |steps|
    && DistinctIds(steps[..k], {}) && NoneReachable(steps[..k])
    && if exists j | 0 <= j < k :: steps[j].id == steps[k].id then e == DuplicateId(steps[k].id)
       else e.WaitInside? && exists path :: FirstAt(steps[k], path, e.wait)
  }

  ghost predicate ProblemFrom(steps: seq<Step>, seen: set<string>, k: int, e: BuildError) {
    && 0 <= k < |steps|
    && DistinctIds(steps[..k], seen) && (forall j | 0 <= j < k :: FirstWait(steps[j]).None?)
    && if steps[k].id in seen || exists j | 0 <= j < k :: steps[j].id == steps[k].id then e == DuplicateId(steps[k].id)
       else FirstWait(steps[k]).Some? && e == WaitInside(FirstWait(steps[k]).value)
  }

  lemma {:induction false} FirstProblem(steps: seq<Step>, seen: set<string>) returns (k: int)
    requires SiblingProblem(steps, seen).Some?
    ensures ProblemFrom(steps, seen, k, SiblingProblem(steps, seen).value)
  {
    var head, tail := steps[0], steps[1..];
    if head.id in seen || FirstWait(head).Some? {
      k := 0;
    } else {
      var i := FirstProblem(tail, seen + {head.id});
      k := i + 1;
      assert forall j | 0 < j <= k :: steps[j] == tail[j - 1];
      assert steps[..k] == [head] + tail[..i];
      if steps[k].id !in seen && steps[k].id != head.id { assert tail[i] == steps[k]; }
      assert (exists j | 0 <= j < k :: steps[j].id == steps[k].id)
             <==> head.id == steps[k].id || exists j | 0 <= j < i :: tail[j].id == tail[i].id by {
        if j :| 0 <= j < k && steps[j].id == steps[k].id { if j > 0 { assert tail[j - 1].id == tail[i].id; } }
        if j :| 0 <= j < i && tail[j].id == tail[i].id { assert steps[j + 1].id == steps[k].id; }
        if head.id == steps[k].id { assert steps[0].id == steps[k].id; }
      }
    }
  }

  /** parallel() reports the first sibling that has a problem. */
  lemma SiblingProblemMeaning(steps: seq<Step>) returns (k: int)
    requires SiblingProblem(steps, {}).Some?
    ensures ProblemAt(steps, k, SiblingProblem(steps, {}).value)
  {
    k := FirstProblem(steps, {});
    NoneReachableIff(steps[..k]);
    if FirstWait(steps[k]).Some? {
      var path := NamesTheFirstWait(steps[k]);
    }
  }

  /** The k-th step is the first whose id an earlier one has. */
  ghost predicate RepeatAt(steps: seq<Step>, k: int) {
    0 <= k < |steps| && DistinctIds(steps[..k], {}) && exists j | 0 <= j < k :: steps[j].id == steps[k].id
  }

  lemma {:induction false} FirstRepeat(steps: seq<Step>, seen: set<string>) returns (k: int)
    requires FirstDuplicate(steps, seen).Some?
    ensures 0 <= k < |steps| && FirstDuplicate(steps, seen).value == steps[k].id && DistinctIds(steps[..k], seen)
    ensures steps[k].id in seen || exists j | 0 <= j < k :: steps[j].id == steps[k].id
  {
    var head, tail := steps[0], steps[1..];
    if head.id in seen {
      k := 0;
    } else {
      var i := FirstRepeat(tail, seen + {head.id});
      k := i + 1;
      assert forall j | 0 < j <= k :: steps[j] == tail[j - 1];
      assert steps[..k] == [head] + tail[..i];
      if steps[k].id !in seen {
        if head.id == steps[k].id {
          assert steps[0].id == steps[k].id;
        } else {
          var j :| 0 <= j < i && tail[j].id == tail[i].id;
          assert steps[j + 1].id == steps[k].id;
        }
      }
    }
  }

  // ---------- answers ----------

  /** A retry policy makes at least one attempt, and neither waits a negative time nor shortens its waits. */
  predicate GoodRetry(retry: Option<Retry>) {
    match retry
    case None => true
    case Some(Retry(attempts, delay, factor)) =>
      attempts > 0 && (delay.None? || delay.value >= 0) && (factor.None? || factor.value >= 1.0)
  }

  /** The wait named is the first in the step. */
  ghost predicate BlamesFirstWait(s: Step, e: BuildError) {
    e.WaitInside? && exists path :: FirstAt(s, path, e.wait)
  }

  lemma Blame(s: Step)
    requires FirstWait(s).Some?
    ensures BlamesFirstWait(s, WaitInside(FirstWait(s).value))
  {
    var path := NamesTheFirstWait(s);
  }

  /** parallel(): the step with its children, or the first of: no id, no steps, a bad configuration, a bad sibling. */
  lemma ParallelAnswers(id: string, steps: seq<Step>, retry: Option<Retry>, waitFor: Option<string>)
    ensures var r := BuildParallel(id, steps, retry, waitFor);
            && (r.Ok? ==> r.value == Parallel(id, steps))
            && (r == Err(MissingId) <==> id == "")
            && (r == Err(NoSteps) <==> id != "" && steps == [])
            && (r == Err(BadConfig) <==>
                  id != "" && steps != [] && !(GoodRetry(retry) && waitFor in [None, Some("all")]))
            && (r.Err? && (r.error.DuplicateId? || r.error.WaitInside?) ==>
                  exists k :: ProblemAt(steps, k, r.error))
  {
    if SiblingProblem(steps, {}).Some? { var k := SiblingProblemMeaning(steps); }
  }

  /** loop(), wait() and forEach(): the step, or the first of: no id, a bad configuration, and for a loop a wait. */
  lemma SimpleAnswers(id: string, step: Step, made: seq<Step>, max: int, timeout: Option<int>, concurrency: Option<int>,
                      retry: Option<Retry>)
    ensures var r := BuildLoop(id, step, max, retry);
            && (r.Ok? ==> r.value == Loop(id, step))
            && (r == Err(MissingId) <==> id == "")
            && (r == Err(BadConfig) <==> id != "" && !(GoodRetry(retry) && max >= 1))
            && (id != "" && GoodRetry(retry) && max >= 1 ==> r.Ok? || BlamesFirstWait(step, r.error))
    ensures var r := BuildWait(id, timeout, retry);
            && (r.Ok? ==> r.value == Wait(id))
            && (r == Err(MissingId) <==> id == "")
            && (r == Err(BadConfig) <==> id != "" && !(GoodRetry(retry) && (timeout.Some? ==> timeout.value >= 1)))
            && (r.Err? ==> r.error in [MissingId, BadConfig])
    ensures var r := BuildForEach(id, made, retry, concurrency);
            && (r.Ok? ==> r.value == ForEach(id, made))
            && (r == Err(MissingId) <==> id == "")
            && (r == Err(BadConfig) <==>
                  id != "" && !(GoodRetry(retry) && (concurrency.Some? ==> concurrency.value >= 1)))
            && (r.Err? ==> r.error in [MissingId, BadConfig])
  {
    if FirstWait(step).Some? { Blame(step); }
  }

  /** branch(), idempotent() and pipelineStep(). */
  lemma WrapperAnswers(id: string, name: Option<string>, labels: seq<string>, cases: seq<Step>, fallback: Option<Step>,
                       step: Step, pipeline: Pipeline, retry: Option<Retry>)
    ensures var r := BuildBranch(id, labels, cases, fallback, retry);
            && (r.Ok? ==> r.value == Branch(id, labels, cases, fallback))
            && (r == Err(MissingId) <==> id == "")
            && (r == Err(NoSteps) <==> id != "" && cases == [])
            && (r == Err(BadConfig) <==> id != "" && cases != [] && !GoodRetry(retry))
            && (r.Err? ==> r.error in [MissingId, NoSteps, BadConfig])
    ensures var r := BuildIdempotent(name, step);
            var own := if name.Some? then name.value else step.id;
            && (r.Ok? ==> r.value == Idempotent(own, step))
            && (r == Err(MissingId) <==> own == "")
            && (own != "" ==> r.Ok? || BlamesFirstWait(step, r.error))
    ensures var r := BuildNested(id, pipeline, retry);
            && (r.Ok? ==> r.value == Nested(id, pipeline))
            && (r == Err(MissingId) <==> id == "")
            && (r == Err(BadConfig) <==> id != "" && !GoodRetry(retry))
            && (id != "" && GoodRetry(retry) ==>
                  r.Ok? || exists k | 0 <= k < |pipeline.steps| ::
                             BlamesFirstWait(pipeline.steps[k], r.error) && NoneReachable(pipeline.steps[..k]))
  {
    if FirstWait(step).Some? { Blame(step); }
    if FirstWaitAmong(pipeline.steps).Some? {
      var k := FirstAmong(pipeline.steps);
      Blame(pipeline.steps[k]);
      NoneReachableIff(pipeline.steps[..k]);
    }
  }

  /** pipeline(): the pipeline with what it was given, or the first of: no id, no steps, the first repeated id. */
  lemma PipelineAnswers(id: string, steps: seq<Step>, description: Option<string>, version: Option<string>)
    ensures var r := BuildPipeline(id, steps, description, version);
            && (r.Ok? ==> r.value == Pipeline(id, steps, description, version))
            && (r == Err(MissingId) <==> id == "")
            && (r == Err(NoSteps) <==> id != "" && steps == [])
            && (r.Err? && id != "" && steps != [] ==>
                  exists k :: RepeatAt(steps, k) && r.error == DuplicateId(steps[k].id))
  {
    if FirstDuplicate(steps, {}).Some? {
      var k := FirstRepeat(steps, {});
      assert RepeatAt(steps, k);
    }
  }

  /** A forEach factory that wraps its children hands out exactly those without a reachable wait, in order. */
  lemma {:induction false} YieldsMeaning(a: seq<Step>, c: Step)
    ensures Yields([]) == []
    ensures Yields([c] + a) == (if WaitReachable(c) then [] else [c]) + Yields(a)
  {
    assert ([c] + a)[1..] == a;
    ThrowsIffReachable(c);
  }
}
