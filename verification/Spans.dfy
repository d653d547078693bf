/** The trace of one task, and the totals of a run. */
module Spans {
  import opened Values
  import opened Graphs

  datatype Status = Succeeded | Failed | Skipped

  datatype Decision = Decision(atMs: int, summary: string, rationale: string, data: Option<Value>)

  datatype Usage = Usage(provider: string, model: string, tokensIn: int, tokensOut: int)

  datatype Span = Span(
    id: Id,
    status: Status,
    durationMs: int,
    attempts: int,
    llm: Option<Usage>,
    decisions: seq<Decision>,
    error: string,
    output: Value)

  /** The span given to a task that never ran. */
  function SkippedSpan(id: Id): Span {
    Span(id, Skipped, 0, 0, None, [], "", Null)
  }

  /** Everything a span says apart from how long the task took. */
  function Core(s: Span): Span {
    s.(durationMs := 0)
  }

  datatype Totals = Totals(retries: int, tokensIn: int, tokensOut: int)

  const NO_TOTALS := Totals(0, 0, 0)

  function Plus(a: Totals, b: Totals): Totals {
    Totals(a.retries + b.retries, a.tokensIn + b.tokensIn, a.tokensOut + b.tokensOut)
  }

  /** What one received span adds to the totals. */
  function Contribution(s: Span): Totals {
    Totals(s.attempts - 1,
           if s.llm.Some? then s.llm.value.tokensIn else 0,
           if s.llm.Some? then s.llm.value.tokensOut else 0)
  }
}
