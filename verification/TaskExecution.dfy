/** One task from start to span: resolve the inputs, then attempt until success, exhaustion or
    cancellation.  The skill is an arbitrary function of task, resolved inputs and attempt;
    `gates` says at which of the engine's cancellation points, if any, an attempt is cut off. */
module TaskExecution {
  import opened Values
  import opened Graphs
  import opened Workflows
  import opened Spans
  import Templates
  import TemplateMeaning

  datatype SkillError = SkillError(kind: string, message: string, retryable: bool)

  /** What one executor call returns. */
  datatype Attempt = Attempt(
    execErr: Option<string>,
    err: Option<SkillError>,
    output: Value,
    decisions: seq<Decision>,
    llm: Option<Usage>)

  type Skill = (Id, Value, nat) -> Attempt

  datatype Gate = Pass | CancelledAtSemaphore | CancelledAtGlobal | CancelledAtProvider

  predicate Failing(r: Attempt) {
    r.execErr.Some? || r.err.Some?
  }

  function Message(r: Attempt): string
    requires Failing(r)
  {
    if r.execErr.Some? then r.execErr.value else r.err.value.kind + ": " + r.err.value.message
  }

  // ---------- scope ----------

  function ScopeOf(inputs: map<string, Value>, results: map<Id, Value>): Scope {
    map["input" := Obj(inputs)] + map id | id in results :: Obj(map["output" := results[id]])
  }

  /** What references find in a scope: the output of each task under its id, the run's inputs under
      "input" unless a task has that name, and no other root. */
  ghost predicate ReadsOutputs(scope: Scope, inputs: map<string, Value>, results: map<Id, Value>) {
    && scope.Keys == {"input"} + results.Keys
    && (forall id :: id in results && '.' !in id ==>
          Templates.LookupSpec(id + ".output", scope) == Some(results[id]))
    && (forall id, path :: id in results && '.' !in id ==>
          Templates.LookupSpec(id + ".output." + path, scope) == Templates.Descend(results[id], Templates.Parts(path)))
    && ("input" !in results ==>
          && (forall k :: k in inputs && '.' !in k ==> Templates.LookupSpec("input." + k, scope) == Some(inputs[k]))
          && (forall path :: Templates.LookupSpec("input." + path, scope) ==
                             Templates.Descend(Obj(inputs), Templates.Parts(path))))
  }

  lemma OutputFound(id: Id, inputs: map<string, Value>, results: map<Id, Value>)
    requires id in results && '.' !in id
    ensures Templates.LookupSpec(id + ".output", ScopeOf(inputs, results)) == Some(results[id])
  {
    OutputPath(id);
    TwoDown(id, inputs, results, []);
    assert ["output"] + [] == ["output"];
    hide Templates.Parts, ScopeOf;
  }

  lemma OutputPath(id: Id)
    requires '.' !in id
    ensures Templates.Parts(id + ".output") == [id] + ["output"]
  {
    TemplateMeaning.TwoParts(id, "output");
    hide *;
    assert id + "." + "output" == id + ".output";
  }

  lemma OutputFieldPath(id: Id, path: string)
    requires '.' !in id
    ensures Templates.Parts(id + ".output." + path) == [id] + (["output"] + Templates.Parts(path))
  {
    hide *;
    TemplateMeaning.ThreeParts(id, "output", path);
    Regroup(id, ".", "output", path);
    assert "." + "output" + "." == ".output.";
  }

  lemma Regroup(a: string, dot: string, b: string, c: string)
    ensures a + dot + (b + dot + c) == a + (dot + b + dot) + c
  {
  }

  lemma TwoDown(id: Id, inputs: map<string, Value>, results: map<Id, Value>, rest: seq<string>)
    requires id in results
    ensures Templates.Descend(Obj(ScopeOf(inputs, results)), [id] + (["output"] + rest)) ==
            Templates.Descend(results[id], rest)
  {
    var scope := ScopeOf(inputs, results);
    TemplateMeaning.DescendCons(Obj(scope), id, ["output"] + rest);
    TemplateMeaning.DescendCons(scope[id], "output", rest);
    hide Templates.Descend;
  }

  lemma OutputField(id: Id, path: string, inputs: map<string, Value>, results: map<Id, Value>)
    requires id in results && '.' !in id
    ensures Templates.LookupSpec(id + ".output." + path, ScopeOf(inputs, results)) ==
            Templates.Descend(results[id], Templates.Parts(path))
  {
    OutputFieldPath(id, path);
    TwoDown(id, inputs, results, Templates.Parts(path));
    hide Templates.Parts, Templates.Descend, ScopeOf;
  }

  lemma InputFound(path: string, inputs: map<string, Value>, results: map<Id, Value>)
    requires "input" !in results
    ensures Templates.LookupSpec("input." + path, ScopeOf(inputs, results)) ==
            Templates.Descend(Obj(inputs), Templates.Parts(path))
    ensures path in inputs && '.' !in path ==>
              Templates.LookupSpec("input." + path, ScopeOf(inputs, results)) == Some(inputs[path])
  {
    InputPath(path);
    TemplateMeaning.DescendCons(Obj(ScopeOf(inputs, results)), "input", Templates.Parts(path));
    if path in inputs && '.' !in path {
      TemplateMeaning.PlainParts(path);
      TemplateMeaning.DescendCons(Obj(inputs), path, []);
    }
    hide Templates.Parts;
  }

  lemma InputPath(path: string)
    ensures Templates.Parts("input." + path) == ["input"] + Templates.Parts(path)
  {
    TemplateMeaning.FirstPart("input", path);
    hide *;
    assert "input" + "." + path == "input." + path;
  }

  lemma ScopeReads(inputs: map<string, Value>, results: map<Id, Value>)
    ensures ReadsOutputs(ScopeOf(inputs, results), inputs, results)
  {
    var scope := ScopeOf(inputs, results);
    assert scope.Keys == {"input"} + results.Keys;
    hide ScopeOf, Templates.LookupSpec, Templates.Descend, Templates.Parts;
    forall id | id in results && '.' !in id ensures Templates.LookupSpec(id + ".output", scope) == Some(results[id]) {
      OutputFound(id, inputs, results);
    }
    forall id, path | id in results && '.' !in id
      ensures Templates.LookupSpec(id + ".output." + path, scope) == Templates.Descend(results[id], Templates.Parts(path))
    {
      OutputField(id, path, inputs, results);
    }
    if "input" !in results {
      forall k { InputFound(k, inputs, results); }
    }
  }

  /** The plain way to write a reference to a task's output. */
  lemma PlainOutput(id: Id)
    requires '}' !in id && (id != "" ==> !TemplateMeaning.White(id[0]))
    ensures TemplateMeaning.RefersTo("${" + id + ".output}", id + ".output")
  {
    var path := id + ".output";
    TemplateMeaning.PlainReference(path);
    hide TemplateMeaning.RefersTo;
    assert "${" + id + ".output}" == "${" + path + "}";
  }

  /** A template that is one reference to a task's output resolves to that output, of whatever kind. */
  lemma OutputReference(s: string, id: Id, inputs: map<string, Value>, results: map<Id, Value>, json: Printer)
    requires id in results && '.' !in id && TemplateMeaning.RefersTo(s, id + ".output")
    ensures Templates.Resolve(Str(s), ScopeOf(inputs, results), json) == Some(results[id])
  {
    hide *;
    TemplateMeaning.ResolveReference(s, id + ".output", ScopeOf(inputs, results), json);
    OutputFound(id, inputs, results);
  }

  method BuildScope(inputs: map<string, Value>, results: map<Id, Value>) returns (scope: Scope)
    ensures scope == ScopeOf(inputs, results)
    ensures ReadsOutputs(scope, inputs, results)
  {
    hide ReadsOutputs;
    ScopeReads(inputs, results);
    scope := map["input" := Obj(inputs)];
    var todo := results.Keys;
    while todo != {}
      invariant todo <= results.Keys
      invariant scope.Keys == {"input"} + (results.Keys - todo)
      invariant forall k :: k in scope ==> k !in todo || k == "input"
      invariant forall k :: k in results.Keys - todo ==> scope[k] == Obj(map["output" := results[k]])
      invariant "input" !in results.Keys - todo ==> scope["input"] == Obj(inputs)
      decreases todo
    {
      var id :| id in todo;
      scope := scope[id := Obj(map["output" := results[id]])];
      todo := todo - {id};
    }
  }

  // ---------- attempts ----------

  /** Usage accumulates; provider and model are those of the first report. */
  function AddUsage(a: Option<Usage>, b: Option<Usage>): Option<Usage> {
    match b
    case None => a
    case Some(u) =>
      match a
      case None => b
      case Some(v) => Some(v.(tokensIn := v.tokensIn + u.tokensIn, tokensOut := v.tokensOut + u.tokensOut))
  }

  /** The span after one executor call. */
  function AfterCall(span: Span, r: Attempt): Span {
    var s := span.(decisions := span.decisions + r.decisions, llm := AddUsage(span.llm, r.llm));
    if Failing(r) then s.(error := Message(r)) else s.(status := Succeeded, output := r.output)
  }

  function Cancelled(span: Span): Span {
    span.(status := Skipped, error := "cancelled")
  }

  /** The span that attempts `attempt`, `attempt`+1, ... produce from the span so far. */
  function RunFrom(id: Id, inputs: Value, max: int, skill: Skill, gates: nat -> Gate, attempt: nat, span: Span): Span
    decreases max + 1 - attempt
  {
    if attempt > max + 1 then span
    else
      var s := span.(attempts := attempt);
      if gates(attempt) != Pass then Cancelled(s)
      else
        var r := skill(id, inputs, attempt);
        var t := AfterCall(s, r);
        if Failing(r) && attempt <= max then RunFrom(id, inputs, max, skill, gates, attempt + 1, t) else t
  }

  lemma RunFromStep(id: Id, inputs: Value, max: int, skill: Skill, gates: nat -> Gate, attempt: nat, span: Span)
    requires attempt <= max + 1
    ensures var s := span.(attempts := attempt);
            var r := skill(id, inputs, attempt);
            RunFrom(id, inputs, max, skill, gates, attempt, span) ==
            if gates(attempt) != Pass then Cancelled(s)
            else if Failing(r) && attempt <= max
            then RunFrom(id, inputs, max, skill, gates, attempt + 1, AfterCall(s, r))
            else AfterCall(s, r)
  {
  }

  function FreshSpan(id: Id): Span {
    Span(id, Failed, 0, 0, None, [], "", Null)
  }

  /** Which reference is reported depends on map order in the engine; the text is not modelled. */
  const UNRESOLVED := "template: unresolved reference"

  function UnresolvedSpan(id: Id): Span {
    Span(id, Failed, 0, 1, None, [], UNRESOLVED, Null)
  }

  function TaskSpan(t: Task, max: int, inputs: map<string, Value>, snapshot: map<Id, Value>,
                    skill: Skill, gates: nat -> Gate, json: Printer): Span
  {
    match Templates.Resolve(Obj(t.inputs), ScopeOf(inputs, snapshot), json)
    case None => UnresolvedSpan(t.id)
    case Some(v) => RunFrom(t.id, v, max, skill, gates, 1, FreshSpan(t.id))
  }

  // ---------- what a span says about its attempts ----------

  function DecisionsOf(id: Id, inputs: Value, skill: Skill, n: nat): seq<Decision> {
    if n == 0 then [] else DecisionsOf(id, inputs, skill, n - 1) + skill(id, inputs, n).decisions
  }

  function TokensOf(u: Option<Usage>): (int, int) {
    if u.Some? then (u.value.tokensIn, u.value.tokensOut) else (0, 0)
  }

  function TokensUpTo(id: Id, inputs: Value, skill: Skill, n: nat): (int, int) {
    if n == 0 then (0, 0)
    else
      var a, b := TokensUpTo(id, inputs, skill, n - 1), TokensOf(skill(id, inputs, n).llm);
      (a.0 + b.0, a.1 + b.1)
  }

  /** How many executor calls stand behind a span. */
  function Calls(span: Span): int {
    if span.status == Skipped then span.attempts - 1 else span.attempts
  }

  /** Call k is the first to report usage. */
  ghost predicate FirstReport(id: Id, inputs: Value, skill: Skill, k: nat) {
    k >= 1 && skill(id, inputs, k).llm.Some? && forall j :: 1 <= j < k ==> skill(id, inputs, j).llm.None?
  }

  /** The span has seen the first n calls, and nothing else. */
  ghost predicate Accounts(span: Span, id: Id, inputs: Value, skill: Skill, n: nat) {
    && span.id == id
    && span.decisions == DecisionsOf(id, inputs, skill, n)
    && TokensOf(span.llm) == TokensUpTo(id, inputs, skill, n)
    && (span.llm.Some? <==> exists k :: 1 <= k <= n && skill(id, inputs, k).llm.Some?)
    && (span.llm.Some? ==> forall k :: FirstReport(id, inputs, skill, k) ==>
          && span.llm.value.provider == skill(id, inputs, k).llm.value.provider
          && span.llm.value.model == skill(id, inputs, k).llm.value.model)
  }

  /** A span tells the whole story of its attempts: which calls were made, that all but the
      last of them failed, why the attempts ended, and what they used. */
  ghost predicate TellsAll(span: Span, id: Id, inputs: Value, max: nat, skill: Skill, gates: nat -> Gate) {
    var n := span.attempts;
    && 1 <= n <= max + 1
    && Accounts(span, id, inputs, skill, Calls(span))
    && (forall k :: 1 <= k < n ==> gates(k) == Pass && Failing(skill(id, inputs, k)))
    && (!span.status.Succeeded? ==> span.output == Null)
    && match span.status
       case Succeeded => gates(n) == Pass && !Failing(skill(id, inputs, n)) && span.output == skill(id, inputs, n).output &&
                         span.error == ErrorBefore(id, inputs, skill, n)
       case Failed => gates(n) == Pass && n == max + 1 && Failing(skill(id, inputs, n)) &&
                      span.error == Message(skill(id, inputs, n))
       case Skipped => gates(n) != Pass && span.error == "cancelled"
  }

  /** The message an attempt finds in its span: that of the call before it, which success keeps. */
  function ErrorBefore(id: Id, inputs: Value, skill: Skill, attempt: nat): string {
    if attempt > 1 && Failing(skill(id, inputs, attempt - 1)) then Message(skill(id, inputs, attempt - 1)) else ""
  }

  lemma AccountsNext(span: Span, id: Id, inputs: Value, skill: Skill, n: nat)
    requires Accounts(span, id, inputs, skill, n)
    ensures Accounts(AfterCall(span, skill(id, inputs, n + 1)), id, inputs, skill, n + 1)
  {
    var u := skill(id, inputs, n + 1).llm;
    AddedTokens(span.llm, u);
    if u.Some? { assert 1 <= n + 1 <= n + 1 && skill(id, inputs, n + 1).llm.Some?; }
    forall k: nat | FirstReport(id, inputs, skill, k) && AddUsage(span.llm, u).Some?
      ensures AddUsage(span.llm, u).value.provider == skill(id, inputs, k).llm.value.provider
      ensures AddUsage(span.llm, u).value.model == skill(id, inputs, k).llm.value.model
    {
      FirstReportNext(span.llm, id, inputs, skill, n, k);
    }
    hide AddUsage, FirstReport, TokensOf;
  }

  lemma AddedTokens(a: Option<Usage>, b: Option<Usage>)
    ensures AddUsage(a, b).Some? <==> a.Some? || b.Some?
    ensures TokensOf(AddUsage(a, b)) == (TokensOf(a).0 + TokensOf(b).0, TokensOf(a).1 + TokensOf(b).1)
  {
  }

  lemma FirstReportNext(u: Option<Usage>, id: Id, inputs: Value, skill: Skill, n: nat, k: nat)
    requires FirstReport(id, inputs, skill, k) && AddUsage(u, skill(id, inputs, n + 1).llm).Some?
    requires u.Some? <==> exists j :: 1 <= j <= n && skill(id, inputs, j).llm.Some?
    requires u.Some? ==> u.value.provider == skill(id, inputs, k).llm.value.provider &&
                         u.value.model == skill(id, inputs, k).llm.value.model
    ensures AddUsage(u, skill(id, inputs, n + 1).llm).value.provider == skill(id, inputs, k).llm.value.provider
    ensures AddUsage(u, skill(id, inputs, n + 1).llm).value.model == skill(id, inputs, k).llm.value.model
  {
  }

  lemma {:induction false} RunFromTellsAll(id: Id, inputs: Value, max: nat, skill: Skill, gates: nat -> Gate,
                                           attempt: nat, span: Span)
    requires 1 <= attempt <= max + 1 && span.status == Failed && span.output == Null
    requires span.error == ErrorBefore(id, inputs, skill, attempt)
    requires Accounts(span, id, inputs, skill, attempt - 1)
    requires forall k :: 1 <= k < attempt ==> gates(k) == Pass && Failing(skill(id, inputs, k))
    ensures TellsAll(RunFrom(id, inputs, max, skill, gates, attempt, span), id, inputs, max, skill, gates)
    decreases max + 1 - attempt
  {
    hide Accounts;
    var s := span.(attempts := attempt);
    AccountsAgain(span, s, id, inputs, skill, attempt - 1);
    if gates(attempt) != Pass {
      AccountsAgain(s, Cancelled(s), id, inputs, skill, attempt - 1);
    } else {
      var r := skill(id, inputs, attempt);
      AccountsNext(s, id, inputs, skill, attempt - 1);
      if Failing(r) && attempt <= max {
        RunFromTellsAll(id, inputs, max, skill, gates, attempt + 1, AfterCall(s, r));
      }
    }
  }

  lemma AccountsAgain(s: Span, t: Span, id: Id, inputs: Value, skill: Skill, n: nat)
    requires Accounts(s, id, inputs, skill, n)
    requires t.id == s.id && t.decisions == s.decisions && t.llm == s.llm
    ensures Accounts(t, id, inputs, skill, n)
  {
  }

  /** Every span of a task whose inputs resolve accounts for all its attempts. */
  lemma SpanTellsAll(t: Task, max: nat, inputs: map<string, Value>, snapshot: map<Id, Value>, v: Value,
                     skill: Skill, gates: nat -> Gate, json: Printer)
    requires Templates.Resolve(Obj(t.inputs), ScopeOf(inputs, snapshot), json) == Some(v)
    ensures TellsAll(TaskSpan(t, max, inputs, snapshot, skill, gates, json), t.id, v, max, skill, gates)
  {
    assert Accounts(FreshSpan(t.id), t.id, v, skill, 0);
    RunFromTellsAll(t.id, v, max, skill, gates, 1, FreshSpan(t.id));
  }

  /** Without cancellation: a failed task has used max + 1 calls, a succeeded one ended on its
      first success, and no third outcome exists. */
  lemma UncancelledOutcome(t: Task, max: nat, inputs: map<string, Value>, snapshot: map<Id, Value>, v: Value,
                           skill: Skill, gates: nat -> Gate, json: Printer)
    requires Templates.Resolve(Obj(t.inputs), ScopeOf(inputs, snapshot), json) == Some(v)
    requires forall k :: gates(k) == Pass
    ensures var s := TaskSpan(t, max, inputs, snapshot, skill, gates, json);
            && (s.status == Failed <==> forall k :: 1 <= k <= max + 1 ==> Failing(skill(t.id, v, k)))
            && (s.status == Failed ==> Calls(s) == max + 1)
            && (s.status != Failed ==>
                  && s.status == Succeeded && s.attempts >= 1 && !Failing(skill(t.id, v, s.attempts))
                  && forall k :: 1 <= k < s.attempts ==> Failing(skill(t.id, v, k)))
  {
    SpanTellsAll(t, max, inputs, snapshot, v, skill, gates, json);
  }

  // ---------- backoff ----------

  function Pow2(n: nat): real {
    if n == 0 then 1.0 else 2.0 * Pow2(n - 1)
  }

  /** The exponential delay before jitter. */
  function Doubled(base: real, attempt: nat): real
    requires attempt >= 1
  {
    base * Pow2(attempt - 1)
  }

  function Jittered(x: real, factor: real): real {
    x * factor
  }

  /** How long the engine sleeps after failed attempt number `attempt`. */
  function SleepAfter(r: Retry, attempt: nat, jitter: nat -> real): real
    requires attempt >= 1
  {
    if r.backoff == "none" then 0.0
    else
      var base := if r.backoff == "fixed" then r.base else Doubled(r.base, attempt);
      var b := if r.jitter && base > 0.0 then Jittered(base, jitter(attempt)) else base;
      if b > 0.0 then b else 0.0
  }

  function TotalSleep(r: Retry, sleeps: nat, jitter: nat -> real): real {
    if sleeps == 0 then 0.0 else TotalSleep(r, sleeps - 1, jitter) + SleepAfter(r, sleeps, jitter)
  }

  ghost predicate JitterInRange(jitter: nat -> real) {
    forall k :: 0.5 <= jitter(k) < 1.0
  }

  /** base * (2^sleeps - 1) */
  function Budget(base: real, sleeps: nat): real {
    base * (Pow2(sleeps) - 1.0)
  }

  /** The sleeps come to the full amount, of which jitter, where it is on, keeps at least half. */
  ghost predicate Share(slept: real, full: real, r: Retry, jitter: nat -> real) {
    && (!r.jitter ==> slept == full)
    && (JitterInRange(jitter) ==> full / 2.0 <= slept <= full)
  }

  /** What a policy makes a task sleep over some number of retries: nothing, the base each time, or
      the base doubled from retry to retry. */
  ghost predicate BacksOff(r: Retry, slept: real, retries: nat, jitter: nat -> real) {
    && (r.backoff == "none" || r.base <= 0.0 ==> slept == 0.0)
    && (r.backoff == "fixed" && r.base >= 0.0 ==> Share(slept, retries as real * r.base, r, jitter))
    && (r.backoff != "none" && r.backoff != "fixed" && r.base >= 0.0 ==> Share(slept, Budget(r.base, retries), r, jitter))
  }

  lemma TotalBacksOff(r: Retry, retries: nat, jitter: nat -> real)
    ensures BacksOff(r, TotalSleep(r, retries, jitter), retries, jitter)
  {
    hide TotalSleep, Share, Times, Budget, Pow2;
    var slept := TotalSleep(r, retries, jitter);
    if r.backoff == "none" || r.base <= 0.0 {
      NoBackoff(r, retries, jitter);
    }
    if r.backoff == "fixed" && r.base >= 0.0 {
      FixedBackoff(r, retries, jitter);
      FixedShare(slept, retries, r, jitter);
    } else if r.backoff != "none" && r.base >= 0.0 {
      ExponentialBackoff(r, retries, jitter);
    }
  }

  lemma FixedShare(slept: real, n: nat, r: Retry, jitter: nat -> real)
    requires Share(slept, Times(n, r.base), r, jitter)
    ensures Share(slept, n as real * r.base, r, jitter)
  {
    hide JitterInRange;
  }

  lemma {:induction false} NoBackoff(r: Retry, retries: nat, jitter: nat -> real)
    requires r.backoff == "none" || r.base <= 0.0
    ensures TotalSleep(r, retries, jitter) == 0.0
    decreases retries
  {
    if retries > 0 {
      NoBackoff(r, retries - 1, jitter);
      NoSleep(r, retries, jitter);
      hide SleepAfter;
    }
  }

  lemma NoSleep(r: Retry, attempt: nat, jitter: nat -> real)
    requires attempt >= 1 && (r.backoff == "none" || r.base <= 0.0)
    ensures SleepAfter(r, attempt, jitter) == 0.0
  {
    if r.backoff != "none" && r.backoff != "fixed" {
      PowPositive(attempt - 1);
      ProductNonNegative(-r.base, Pow2(attempt - 1));
    }
    hide Jittered;
  }

  /** Fixed backoff sleeps the base after each failed attempt but the last, of which jitter keeps
      at least half. */
  lemma {:induction false} FixedBackoff(r: Retry, retries: nat, jitter: nat -> real)
    requires r.backoff == "fixed" && r.base >= 0.0
    ensures Share(TotalSleep(r, retries, jitter), Times(retries, r.base), r, jitter)
    decreases retries
  {
    if retries > 0 {
      FixedBackoff(r, retries - 1, jitter);
      OneMore(retries, r.base);
      FixedSleep(r, retries, jitter);
      ShareOfSum(TotalSleep(r, retries - 1, jitter), Times(retries - 1, r.base),
                 SleepAfter(r, retries, jitter), r.base, r, jitter);
      hide SleepAfter, Share, Times;
    }
  }

  lemma ShareOfSum(a: real, fa: real, b: real, fb: real, r: Retry, jitter: nat -> real)
    requires Share(a, fa, r, jitter) && Share(b, fb, r, jitter)
    ensures Share(a + b, fa + fb, r, jitter)
  {
    hide JitterInRange;
  }

  lemma FixedSleep(r: Retry, attempt: nat, jitter: nat -> real)
    requires attempt >= 1 && r.backoff == "fixed" && r.base >= 0.0
    ensures Share(SleepAfter(r, attempt, jitter), r.base, r, jitter)
  {
    if JitterInRange(jitter) { JitterKeepsHalf(r.base, jitter(attempt)); }
    hide Jittered;
  }

  function Times(n: nat, x: real): real {
    n as real * x
  }

  lemma OneMore(n: nat, x: real)
    requires n >= 1
    ensures Times(n, x) == Times(n - 1, x) + x
  {
    assert n as real == (n - 1) as real + 1.0;
  }

  /** Exponential backoff sleeps base * (2^retries - 1) in all, of which jitter keeps at least half. */
  lemma {:induction false} ExponentialBackoff(r: Retry, retries: nat, jitter: nat -> real)
    requires r.base >= 0.0 && r.backoff != "none" && r.backoff != "fixed"
    ensures Share(TotalSleep(r, retries, jitter), Budget(r.base, retries), r, jitter)
    decreases retries
  {
    if retries > 0 {
      ExponentialBackoff(r, retries - 1, jitter);
      BudgetStep(r.base, retries);
      SleepBounds(r, retries, jitter);
      ShareOfSum(TotalSleep(r, retries - 1, jitter), Budget(r.base, retries - 1),
                 SleepAfter(r, retries, jitter), Doubled(r.base, retries), r, jitter);
      hide SleepAfter, Budget, Doubled, Share;
    }
  }

  lemma BudgetStep(base: real, sleeps: nat)
    requires sleeps >= 1
    ensures Budget(base, sleeps) == Budget(base, sleeps - 1) + Doubled(base, sleeps)
  {
    var p := Pow2(sleeps - 1);
    assert base * (2.0 * p - 1.0) == base * (p - 1.0) + base * p;
  }

  lemma SleepBounds(r: Retry, k: nat, jitter: nat -> real)
    requires k >= 1 && r.base >= 0.0 && r.backoff != "none" && r.backoff != "fixed"
    ensures Share(SleepAfter(r, k, jitter), Doubled(r.base, k), r, jitter)
  {
    PowPositive(k - 1);
    ProductNonNegative(r.base, Pow2(k - 1));
    var x := Doubled(r.base, k);
    if JitterInRange(jitter) { JitterKeepsHalf(x, jitter(k)); }
    hide Doubled, Jittered;
  }

  lemma ProductNonNegative(a: real, b: real)
    requires a >= 0.0 && b >= 0.0
    ensures a * b >= 0.0
  {
  }

  lemma PowPositive(n: nat)
    ensures Pow2(n) >= 1.0
  {
  }

  lemma JitterKeepsHalf(x: real, f: real)
    requires x >= 0.0 && 0.5 <= f < 1.0
    ensures x / 2.0 <= Jittered(x, f) <= x
  {
    ProductNonNegative(x, f - 0.5);
    ProductNonNegative(x, 1.0 - f);
  }

  // ---------- the imperative task runner ----------

  /** The channel of permits shared by all tasks of a run. */
  class Semaphore {
    const slots: nat
    var held: nat

    constructor (slots: nat)
      requires slots >= 1
      ensures this.slots == slots && held == 0
    {
      this.slots := slots;
      held := 0;
    }

    /** Waits for a permit.  By the time one is free, other tasks have taken and given back permits
        that change the number held by `others`. */
    method Acquire(others: int)
      requires 0 <= held + others < slots
      modifies this
      ensures held == old(held) + others + 1
    {
      held := held + others;
      held := held + 1;
    }

    method Release()
      requires held > 0
      modifies this
      ensures held == old(held) - 1
    {
      held := held - 1;
    }
  }

  /** What other tasks do to the number of permits held, up to this task's n-th permit. */
  function Others(others: nat -> int, n: nat): int {
    if n == 0 then 0 else Others(others, n - 1) + others(n)
  }

  /** How many permits a task whose inputs resolve has taken. */
  function PermitsTaken(span: Span, gates: nat -> Gate): nat
    requires span.attempts >= 1
  {
    if gates(span.attempts) == CancelledAtSemaphore then span.attempts - 1 else span.attempts
  }

  /** Runs one task.  Whatever path an attempt takes, the permit it took is given back: apart from
      what other tasks do meanwhile, the number held is unchanged.  An attempt waits for its permit
      until one is free, unless it is cancelled first.  The span, apart from its duration, is the
      one specified and tells all about its attempts; between attempts the task sleeps as its retry
      policy, or else the workflow's, says. */
  method ExecuteTask(wf: Workflow, t: Task, inputs: map<string, Value>, snapshot: map<Id, Value>, sem: Semaphore,
                     others: nat -> int, skill: Skill, gates: nat -> Gate, jitter: nat -> real, elapsedMs: nat, json: Printer)
    returns (span: Span, calls: nat, slept: real)
    requires (if t.retry.Some? then t.retry.value else wf.defaultRetry).max >= 0
    requires forall n: nat ::
               (1 <= n <= (if t.retry.Some? then t.retry.value else wf.defaultRetry).max + 1 && gates(n) != CancelledAtSemaphore) ==>
               0 <= sem.held + Others(others, n) < sem.slots
    modifies sem
    ensures var r := if t.retry.Some? then t.retry.value else wf.defaultRetry;
            span.attempts >= 1 && BacksOff(r, slept, span.attempts - 1, jitter)
    ensures Templates.Resolve(Obj(t.inputs), ScopeOf(inputs, snapshot), json).Some? ==>
              sem.held == old(sem.held) + Others(others, PermitsTaken(span, gates))
    ensures Templates.Resolve(Obj(t.inputs), ScopeOf(inputs, snapshot), json).None? ==> sem.held == old(sem.held)
    ensures var max := (if t.retry.Some? then t.retry.value else wf.defaultRetry).max;
            && Core(span) == TaskSpan(t, max, inputs, snapshot, skill, gates, json)
            && match Templates.Resolve(Obj(t.inputs), ScopeOf(inputs, snapshot), json)
               case Some(v) =>
                 && TellsAll(Core(span), t.id, v, max, skill, gates)
                 && calls == Calls(span) && span.durationMs == elapsedMs
               case None =>
                 && span == Span(t.id, Failed, 0, 1, None, [], UNRESOLVED, Null) && calls == 0 && slept == 0.0
  {
    hide TellsAll, BacksOff;
    hide Templates.Resolve, ScopeOf, ReadsOutputs, SleepAfter, RunFrom, AddUsage, Doubled, Jittered;
    var retry := t.EffectiveRetry(wf.defaultRetry);
    forall n: nat { TotalBacksOff(retry, n, jitter); }
    calls, slept := 0, 0.0;
    var scope := BuildScope(inputs, snapshot);
    var resolved := Templates.Resolve(Obj(t.inputs), scope, json);
    assert BacksOff(retry, TotalSleep(retry, 0, jitter), 0, jitter);
    if resolved.None? {
      return UnresolvedSpan(t.id), 0, 0.0;
    }
    SpanTellsAll(t, retry.max, inputs, snapshot, resolved.value, skill, gates, json);
    span := FreshSpan(t.id);
    var attempt := 1;
    while attempt <= retry.max + 1
      invariant 1 <= attempt <= retry.max + 1
      invariant span.status == Failed && span.durationMs == 0
      invariant RunFrom(t.id, resolved.value, retry.max, skill, gates, attempt, span) ==
                TaskSpan(t, retry.max, inputs, snapshot, skill, gates, json)
      invariant calls == attempt - 1 && slept == TotalSleep(retry, attempt - 1, jitter)
      invariant sem.held == old(sem.held) + Others(others, attempt - 1)
      decreases retry.max + 1 - attempt
    {
      RunFromStep(t.id, resolved.value, retry.max, skill, gates, attempt, span);
      span := span.(attempts := attempt);
      if gates(attempt) == CancelledAtSemaphore {
        span := Cancelled(span).(durationMs := elapsedMs);
        return;
      }
      sem.Acquire(others(attempt));
      if gates(attempt) == CancelledAtGlobal {
        sem.Release();
        span := Cancelled(span).(durationMs := elapsedMs);
        return;
      }
      if gates(attempt) == CancelledAtProvider {
        sem.Release();
        span := Cancelled(span).(durationMs := elapsedMs);
        return;
      }
      var result := skill(t.id, resolved.value, attempt);
      calls := calls + 1;
      sem.Release();
      span := span.(decisions := span.decisions + result.decisions, llm := AddUsage(span.llm, result.llm));
      if result.execErr.Some? {
        span := span.(error := result.execErr.value);
        if attempt <= retry.max {
          slept := slept + SleepAfter(retry, attempt, jitter);
          attempt := attempt + 1;
          continue;
        }
        span := span.(durationMs := elapsedMs);
        return;
      }
      if result.err.Some? {
        span := span.(error := result.err.value.kind + ": " + result.err.value.message);
        var retryable := result.err.value.retryable || attempt <= retry.max;
        if retryable && attempt <= retry.max {
          slept := slept + SleepAfter(retry, attempt, jitter);
          attempt := attempt + 1;
          continue;
        }
        span := span.(durationMs := elapsedMs);
        return;
      }
      span := span.(status := Succeeded, output := result.output, durationMs := elapsedMs);
      return;
    }
  }
}
