/** Pipelines and their steps, as far as the builders and the tree passes look at them (packages/core/src/types.ts). */
module Steps {
  import opened Common

  /**
   * A code step is Plain. The i-th label of a Branch selects its i-th case. A ForEach holds what its factory returns,
   * call by call. An agent's permissions are the summary that describing it shows.
   */
  datatype Step =
    | Plain(id: string)
    | Infer(id: string, backend: Option<string>)
    | Agent(id: string, backend: Option<string>, permissions: seq<string>)
    | Wait(id: string)
    | Parallel(id: string, steps: seq<Step>)
    | ForEach(id: string, made: seq<Step>)
    | Branch(id: string, labels: seq<string>, cases: seq<Step>, fallback: Option<Step>)
    | Loop(id: string, step: Step)
    | Nested(id: string, pipeline: Pipeline)
    | Invoke(id: string)
    | Idempotent(id: string, step: Step)

  datatype Pipeline = Pipeline(id: string, steps: seq<Step>, description: Option<string>, version: Option<string>)

  function StaticChildren(s: Step): seq<Step> {
    match s
    case Parallel(_, steps) => steps
    case Branch(_, _, cases, fallback) => cases + if fallback.Some? then [fallback.value] else []
    case Loop(_, step) => [step]
    case Idempotent(_, step) => [step]
    case Nested(_, pipeline) => pipeline.steps
    case _ => []
  }
}
