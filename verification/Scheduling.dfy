/** The scheduler's main loop as a transition system.
    A state is what the loop keeps; an action is one thing it does.  The order of dispatches and
    receives is free, and a received span is arbitrary, so every interleaving of the task
    goroutines, every mix of error policies and both engines' batching are runs of this system. */
module Scheduling {
  import opened Values
  import opened Graphs
  import opened Spans

  /** The dependency lists and the tasks whose failure aborts the run. */
  datatype Config = Config(g: Graph, failFast: set<Id>)

  datatype Phase = Running | Draining | Finished

  datatype State = State(
    phase: Phase,
    runFailed: bool,
    indeg: map<Id, int>,
    ready: set<Id>,
    inFlight: map<Id, map<Id, Value>>,  // dispatched tasks with the results they can see
    results: map<Id, Value>,
    spans: map<Id, Span>,
    totals: Totals,
    errors: seq<string>)

  datatype Action =
    | Dispatch(id: Id)
    | Receive(span: Span)
    | Drain(span: Span)
    | EndDrain
    | Complete

  // ---------- counting dependency entries ----------

  function Count(ds: seq<Id>, x: Id): nat {
    if ds == [] then 0 else (if ds[0] == x then 1 else 0) + Count(ds[1..], x)
  }

  /** Dependency entries, with multiplicity, that are not in `done`. */
  function Missing(ds: seq<Id>, done: set<Id>): nat {
    if ds == [] then 0 else (if ds[0] in done then 0 else 1) + Missing(ds[1..], done)
  }

  lemma {:induction false} MissingAfter(ds: seq<Id>, done: set<Id>, x: Id)
    requires x !in done
    ensures Missing(ds, done + {x}) == Missing(ds, done) - Count(ds, x)
    decreases |ds|
  {
    if ds != [] { MissingAfter(ds[1..], done, x); }
  }

  lemma {:induction false} MissingZero(ds: seq<Id>, done: set<Id>)
    ensures Missing(ds, done) == 0 <==> forall d :: d in ds ==> d in done
    decreases |ds|
  {
    if ds != [] {
      MissingZero(ds[1..], done);
      assert forall d :: d in ds <==> d == ds[0] || d in ds[1..];
    }
  }

  lemma {:induction false} CountPositive(ds: seq<Id>, x: Id)
    ensures Count(ds, x) > 0 <==> x in ds
    decreases |ds|
  {
    if ds != [] {
      CountPositive(ds[1..], x);
      assert x in ds <==> x == ds[0] || x in ds[1..];
    }
  }

  lemma {:induction false} MissingNothing(ds: seq<Id>)
    ensures Missing(ds, {}) == |ds|
    decreases |ds|
  {
    if ds != [] { MissingNothing(ds[1..]); }
  }

  // ---------- steps ----------

  function Init(c: Config): State {
    State(Running, false,
          map id | id in c.g :: |c.g[id]|,
          set id | id in c.g && c.g[id] == [],
          map[], map[], map[], NO_TOTALS, [])
  }

  ghost predicate Enabled(c: Config, s: State, a: Action) {
    match a
    case Dispatch(id) => s.phase.Running? && id in s.ready
    case Receive(span) => s.phase.Running? && span.id in s.inFlight
    case Drain(span) => s.phase.Draining? && span.id in s.inFlight
    case EndDrain => s.phase.Draining? && s.inFlight == map[]
    case Complete => s.phase.Running? && s.ready == {} && s.inFlight == map[]
  }

  /** Success publishes the output and releases the dependents whose last missing entry it was. */
  function Released(g: Graph, indeg: map<Id, int>, id: Id): map<Id, int> {
    map k | k in indeg :: if k in g then indeg[k] - Count(g[k], id) else indeg[k]
  }

  function NewlyReady(g: Graph, indeg: map<Id, int>, id: Id): set<Id> {
    set k | k in indeg && k in g && id in g[k] && Released(g, indeg, id)[k] == 0
  }

  /** Every strict descendant of `from` that has no span yet is skipped. */
  ghost function WithDescendantsSkipped(g: Graph, spans: map<Id, Span>, from: Id): map<Id, Span> {
    map k | k in spans.Keys + g.Keys && (k in spans || DependsOn(g, k, from)) ::
      if k in spans then spans[k] else SkippedSpan(k)
  }

  ghost function WithAllSkipped(g: Graph, spans: map<Id, Span>): map<Id, Span> {
    map k | k in spans.Keys + g.Keys :: if k in spans then spans[k] else SkippedSpan(k)
  }

  /** The part of a receive that does not depend on the outcome. */
  function Recorded(s: State, span: Span): State {
    s.(inFlight := s.inFlight - {span.id},
       spans := s.spans[span.id := span],
       totals := Plus(s.totals, Contribution(span)))
  }

  function AfterSuccess(c: Config, s: State, span: Span): State {
    Recorded(s, span).(
      results := s.results[span.id := span.output],
      indeg := Released(c.g, s.indeg, span.id),
      ready := s.ready + NewlyReady(c.g, s.indeg, span.id))
  }

  function AfterFatal(s: State, span: Span): State {
    Recorded(s, span).(errors := s.errors + [span.error], phase := Draining, runFailed := true)
  }

  ghost function AfterFailure(c: Config, s: State, span: Span): State {
    Recorded(s, span).(
      errors := s.errors + [span.error],
      spans := WithDescendantsSkipped(c.g, s.spans[span.id := span], span.id))
  }

  ghost function Apply(c: Config, s: State, a: Action): State
    requires Enabled(c, s, a)
  {
    match a
    case Dispatch(id) => s.(ready := s.ready - {id}, inFlight := s.inFlight[id := s.results])
    case Receive(span) =>
      if span.status.Succeeded? then AfterSuccess(c, s, span)
      else if span.id in c.failFast then AfterFatal(s, span)
      else AfterFailure(c, s, span)
    case Drain(span) => s.(inFlight := s.inFlight - {span.id}, spans := s.spans[span.id := span])
    case EndDrain => s.(phase := Finished, ready := {}, spans := WithAllSkipped(c.g, s.spans))
    case Complete => s.(phase := Finished)
  }

  // ---------- runs ----------

  ghost predicate StepAt(c: Config, tr: seq<State>, acts: seq<Action>, i: nat) {
    i < |acts| && i + 1 < |tr| && Enabled(c, tr[i], acts[i]) && tr[i + 1] == Apply(c, tr[i], acts[i])
  }

  /** A run starts in the initial state and takes enabled actions. */
  ghost predicate Run(c: Config, tr: seq<State>, acts: seq<Action>) {
    && |tr| == |acts| + 1
    && tr[0] == Init(c)
    && forall i: nat :: i < |acts| ==> StepAt(c, tr, acts, i)
  }

  lemma RunExtend(c: Config, tr: seq<State>, acts: seq<Action>, a: Action)
    requires Run(c, tr, acts) && Enabled(c, tr[|acts|], a)
    ensures Run(c, tr + [Apply(c, tr[|acts|], a)], acts + [a])
  {
    var tr', acts' := tr + [Apply(c, tr[|acts|], a)], acts + [a];
    forall i: nat | i < |acts'| ensures StepAt(c, tr', acts', i) {
      if i < |acts| { assert StepAt(c, tr, acts, i); }
    }
  }

  /** The actions lead from the initial state to s. */
  ghost predicate Reaches(c: Config, acts: seq<Action>, s: State) {
    exists tr :: Run(c, tr, acts) && tr[|acts|] == s
  }

  lemma ReachesInit(c: Config)
    ensures Reaches(c, [], Init(c))
  {
    assert Run(c, [Init(c)], []);
  }

  lemma ReachesStep(c: Config, acts: seq<Action>, s: State, a: Action)
    requires Reaches(c, acts, s) && Enabled(c, s, a)
    ensures Reaches(c, acts + [a], Apply(c, s, a))
  {
    var tr :| Run(c, tr, acts) && tr[|acts|] == s;
    RunExtend(c, tr, acts, a);
    var tr' := tr + [Apply(c, s, a)];
    assert tr'[|acts + [a]|] == Apply(c, s, a);
  }
}
