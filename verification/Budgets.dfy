/** Cumulative usage budgets (packages/core/src/budgets.ts). Costs are reals. */
module Budgets {
  import opened Common

  datatype TokenCost = TokenCost(input: real, output: real)

  datatype Budget = Budget(
    tokenBudget: Option<int>, maxCostUsd: Option<real>, maxToolCalls: Option<int>, maxWallClockMs: Option<int>)

  datatype Dimension = Tokens | Cost | ToolCalls | WallClock

  datatype Usage = Usage(inputTokens: Option<int>, outputTokens: Option<int>, costUsd: Option<real>)

  /** The running totals of a tracker. */
  datatype Tally = Tally(tokens: int, costUsd: real, toolCalls: int)

  function Or<T>(x: Option<T>, default: T): T {
    if x.Some? then x.value else default
  }

  function ComputeTurnCost(input: int, output: int, cost: Option<TokenCost>, upstream: Option<real>): real {
    if cost.Some?
    then (input as real / 1000.0) * cost.value.input + (output as real / 1000.0) * cost.value.output
    else Or(upstream, 0.0)
  }

  function UsageTokens(u: Option<Usage>): int {
    if u.None? then 0 else Or(u.value.inputTokens, 0) + Or(u.value.outputTokens, 0)
  }

  function UsageCost(u: Option<Usage>, cost: Option<TokenCost>): real {
    if u.None? then 0.0
    else ComputeTurnCost(Or(u.value.inputTokens, 0), Or(u.value.outputTokens, 0), cost, u.value.costUsd)
  }

  /** The first ceiling that the totals exceed. */
  function Exceeded(budget: Option<Budget>, t: Tally, elapsedMs: int): Option<Dimension> {
    if budget.None? then None
    else
      var b := budget.value;
      if b.tokenBudget.Some? && t.tokens > b.tokenBudget.value then Some(Tokens)
      else if b.maxCostUsd.Some? && t.costUsd > b.maxCostUsd.value then Some(Cost)
      else if b.maxToolCalls.Some? && t.toolCalls > b.maxToolCalls.value then Some(ToolCalls)
      else if b.maxWallClockMs.Some? && elapsedMs > b.maxWallClockMs.value then Some(WallClock)
      else None
  }

  predicate WithinCeilings(budget: Option<Budget>, t: Tally) {
    budget.Some? ==>
      && (budget.value.tokenBudget.Some? ==> t.tokens <= budget.value.tokenBudget.value)
      && (budget.value.maxCostUsd.Some? ==> t.costUsd <= budget.value.maxCostUsd.value)
      && (budget.value.maxToolCalls.Some? ==> t.toolCalls <= budget.value.maxToolCalls.value)
  }

  predicate WithinWallClock(budget: Option<Budget>, elapsedMs: int) {
    budget.Some? && budget.value.maxWallClockMs.Some? ==> elapsedMs <= budget.value.maxWallClockMs.value
  }

  /** A report counts its input and its output tokens, as far as it states them. */
  lemma ReportedTokens(input: int, output: int, cost: Option<real>)
    ensures UsageTokens(None) == 0 && UsageTokens(Some(Usage(None, None, cost))) == 0
    ensures UsageTokens(Some(Usage(Some(input), None, cost))) == input
    ensures UsageTokens(Some(Usage(None, Some(output), cost))) == output
    ensures UsageTokens(Some(Usage(Some(input), Some(output), cost))) == input + output
  {
  }

  /**
   * With prices, a thousand reported input tokens cost the input price and a thousand output tokens the output price,
   * in proportion, whatever the provider says the turn cost; without prices it is what the provider says, if anything.
   */
  lemma ReportedCost(n: int, m: int, prices: TokenCost, upstream: Option<real>, more: int)
    ensures UsageCost(None, Some(prices)) == 0.0 && UsageCost(None, None) == 0.0
    ensures UsageCost(Some(Usage(Some(1000), None, upstream)), Some(prices)) == prices.input
    ensures UsageCost(Some(Usage(None, Some(1000), upstream)), Some(prices)) == prices.output
    ensures UsageCost(Some(Usage(Some(n + more), Some(m), upstream)), Some(prices))
            == UsageCost(Some(Usage(Some(n), Some(m), upstream)), Some(prices))
               + UsageCost(Some(Usage(Some(more), None, upstream)), Some(prices))
    ensures UsageCost(Some(Usage(Some(n), Some(m + more), upstream)), Some(prices))
            == UsageCost(Some(Usage(Some(n), Some(m), upstream)), Some(prices))
               + UsageCost(Some(Usage(None, Some(more), upstream)), Some(prices))
    ensures UsageCost(Some(Usage(Some(n), Some(m), upstream)), None)
            == if upstream.Some? then upstream.value else 0.0
  {
    PerThousand(n, more, prices.input);
    PerThousand(m, more, prices.output);
  }

  lemma PerThousand(n: int, more: int, price: real)
    ensures ((n + more) as real / 1000.0) * price == (n as real / 1000.0) * price + (more as real / 1000.0) * price
  {
    assert (n + more) as real / 1000.0 == n as real / 1000.0 + more as real / 1000.0;
  }

  /** The reported ceiling is exceeded and those looked at before it are not: tokens, cost, calls, then the clock. */
  lemma FirstExceeded(b: Budget, t: Tally, elapsedMs: int)
    ensures Exceeded(None, t, elapsedMs) == None
    ensures var tokens := b.tokenBudget.Some? && t.tokens > b.tokenBudget.value;
            var cost := b.maxCostUsd.Some? && t.costUsd > b.maxCostUsd.value;
            var calls := b.maxToolCalls.Some? && t.toolCalls > b.maxToolCalls.value;
            var clock := b.maxWallClockMs.Some? && elapsedMs > b.maxWallClockMs.value;
            var hit := Exceeded(Some(b), t, elapsedMs);
            && (hit == Some(Tokens) <==> tokens)
            && (hit == Some(Cost) <==> cost && !tokens)
            && (hit == Some(ToolCalls) <==> calls && !tokens && !cost)
            && (hit == Some(WallClock) <==> clock && !tokens && !cost && !calls)
  {
  }

  class BudgetTracker {
    const budget: Option<Budget>
    const cost: Option<TokenCost>
    const startedAt: int
    var tokens: int
    var costUsd: real
    var toolCalls: int

    constructor (budget: Option<Budget>, cost: Option<TokenCost>, now: int)
      ensures this.budget == budget && this.cost == cost && startedAt == now
      ensures Total() == Tally(0, 0.0, 0)
    {
      this.budget := budget;
      this.cost := cost;
      startedAt := now;
      tokens, costUsd, toolCalls := 0, 0.0, 0;
    }

    function Total(): Tally
      reads this
    {
      Tally(tokens, costUsd, toolCalls)
    }

    method AddUsage(usage: Option<Usage>)
      modifies this`tokens, this`costUsd
      ensures Total() == old(Total()).(tokens := old(tokens) + UsageTokens(usage),
                                       costUsd := old(costUsd) + UsageCost(usage, cost))
    {
      if usage.None? { return; }
      var input := Or(usage.value.inputTokens, 0);
      var output := Or(usage.value.outputTokens, 0);
      tokens := tokens + input + output;
      costUsd := costUsd + ComputeTurnCost(input, output, cost, usage.value.costUsd);
    }

    method AddToolCall()
      modifies this`toolCalls
      ensures Total() == old(Total()).(toolCalls := old(toolCalls) + 1)
    {
      toolCalls := toolCalls + 1;
    }

    /** No ceiling is reported exactly when all four hold. */
    method CheckBudget(now: int) returns (hit: Option<Dimension>)
      ensures hit == Exceeded(budget, Total(), now - startedAt)
      ensures hit.None? <==>
                WithinCeilings(budget, Total()) && WithinWallClock(budget, now - startedAt)
    {
      if budget.None? { return None; }
      var b := budget.value;
      if b.tokenBudget.Some? && tokens > b.tokenBudget.value { return Some(Tokens); }
      if b.maxCostUsd.Some? && costUsd > b.maxCostUsd.value { return Some(Cost); }
      if b.maxToolCalls.Some? && toolCalls > b.maxToolCalls.value { return Some(ToolCalls); }
      if b.maxWallClockMs.Some? && now - startedAt > b.maxWallClockMs.value { return Some(WallClock); }
      return None;
    }
  }
}
