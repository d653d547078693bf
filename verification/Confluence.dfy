/** Confluence: under `continue`, without cancellation, and with templates that name only run
    inputs and transitive dependencies, every completion order yields the spans of a plain
    sequential evaluator. */
module Confluence {
  import opened Values
  import opened Graphs
  import opened Workflows
  import opened Spans
  import opened Scheduling
  import opened SchedulerInvariant
  import opened SchedulerProperties
  import TaskExecution
  import Templates
  import TemplateLocality

  /** Everything that determines what a task does, apart from what it can see. */
  datatype World = World(wf: Workflow, inputs: map<string, Value>, skill: TaskExecution.Skill, json: Printer)

  function G(w: World): Graph {
    DependencyGraph(w.wf.tasks)
  }

  function AlwaysPass(): nat -> TaskExecution.Gate {
    _ => TaskExecution.Pass
  }

  /** The span of a task that runs with the given results in view. */
  function SpanIn(w: World, id: Id, seen: map<Id, Value>): Span
    requires id in G(w)
  {
    var t := TaskMap(w.wf.tasks)[id];
    TaskExecution.TaskSpan(t, t.EffectiveRetry(w.wf.defaultRetry).max, w.inputs, seen, w.skill, AlwaysPass(), w.json)
  }

  ghost function Ancestors(g: Graph, id: Id): set<Id> {
    set d | d in g && DependsOn(g, id, d)
  }

  /** Each task's template mentions only `input` and tasks it transitively depends on. */
  ghost predicate LocalTemplates(w: World) {
    && "input" !in G(w)
    && forall id :: id in G(w) ==>
         TemplateLocality.MentionsOnly(Obj(TaskMap(w.wf.tasks)[id].inputs), {"input"} + Ancestors(G(w), id))
  }

  ghost predicate SoundWorld(w: World) {
    Closed(G(w)) && Acyclic(G(w)) && LocalTemplates(w)
  }

  ghost predicate SameFor(w: World, id: Id, a: map<Id, Value>, b: map<Id, Value>) {
    forall d :: d in G(w) && DependsOn(G(w), id, d) ==> d in a && d in b && a[d] == b[d]
  }

  lemma ScopesAgree(w: World, id: Id, a: map<Id, Value>, b: map<Id, Value>)
    requires SameFor(w, id, a, b) && "input" !in a && "input" !in b
    ensures TemplateLocality.AgreeOn(TaskExecution.ScopeOf(w.inputs, a), TaskExecution.ScopeOf(w.inputs, b),
                                     {"input"} + Ancestors(G(w), id))
  {
    hide DependencyGraph, DependsOn;
  }

  /** What a task does depends only on the outputs of its transitive dependencies. */
  lemma SpanLocal(w: World, id: Id, a: map<Id, Value>, b: map<Id, Value>)
    requires SoundWorld(w) && id in G(w) && SameFor(w, id, a, b) && "input" !in a && "input" !in b
    ensures SpanIn(w, id, a) == SpanIn(w, id, b)
  {
    var v := Obj(TaskMap(w.wf.tasks)[id].inputs);
    hide TemplateLocality.MentionsOnly, TemplateLocality.AgreeOn, TaskExecution.ScopeOf, Ancestors, Templates.Resolve;
    ScopesAgree(w, id, a, b);
    TemplateLocality.ResolveLocal(v, TaskExecution.ScopeOf(w.inputs, a), TaskExecution.ScopeOf(w.inputs, b),
                                  {"input"} + Ancestors(G(w), id), w.json);
  }

  /** Without cancellation a task ends succeeded or failed, under its own id. */
  lemma SpanRan(w: World, id: Id, seen: map<Id, Value>)
    requires id in G(w)
    ensures SpanIn(w, id, seen).id == id && !SpanIn(w, id, seen).status.Skipped?
    ensures SpanIn(w, id, seen).durationMs == 0
  {
    var t := TaskMap(w.wf.tasks)[id];
    TaskMapKeys(w.wf.tasks);
    var r := Templates.Resolve(Obj(t.inputs), TaskExecution.ScopeOf(w.inputs, seen), w.json);
    if r.Some? {
      RunFromRan(t.id, r.value, t.EffectiveRetry(w.wf.defaultRetry).max, w.skill, 1, TaskExecution.FreshSpan(t.id));
    }
  }

  lemma {:induction false} RunFromRan(id: Id, v: Value, max: int, skill: TaskExecution.Skill, attempt: nat, span: Span)
    requires !span.status.Skipped?
    ensures var s := TaskExecution.RunFrom(id, v, max, skill, AlwaysPass(), attempt, span);
            s.id == span.id && !s.status.Skipped? && s.durationMs == span.durationMs
    decreases max + 1 - attempt
  {
    if attempt <= max + 1 {
      var r := skill(id, v, attempt);
      var t := TaskExecution.AfterCall(span.(attempts := attempt), r);
      if TaskExecution.Failing(r) && attempt <= max { RunFromRan(id, v, max, skill, attempt + 1, t); }
    }
  }

  // ---------- the sequential evaluator ----------

  function Outputs(spans: map<Id, Span>): map<Id, Value> {
    map id | id in spans && spans[id].status.Succeeded? :: spans[id].output
  }

  predicate DepsSucceeded(g: Graph, spans: map<Id, Span>, id: Id)
    requires id in g
  {
    forall i :: 0 <= i < |g[id]| ==> g[id][i] in spans && spans[g[id][i]].status.Succeeded?
  }

  /** What the evaluator does when a task's turn comes, given the result so far. */
  function TurnOf(w: World, before: map<Id, Span>, id: Id): Span {
    if id in G(w) && DepsSucceeded(G(w), before, id) then SpanIn(w, id, Outputs(before)) else SkippedSpan(id)
  }

  /** Runs the tasks one after the other: a task runs if its dependencies succeeded. */
  function Sequential(w: World, order: seq<Id>): map<Id, Span>
  {
    if order == [] then map[]
    else
      var n := |order| - 1;
      var id, before := order[n], Sequential(w, order[..n]);
      before[id := TurnOf(w, before, id)]
  }

  /** A topological order of all tasks. */
  ghost predicate Topological(g: Graph, order: seq<Id>) {
    && Distinct(order)
    && (forall id :: id in order <==> id in g)
    && (forall i, d :: 0 <= i < |order| && Edge(g, order[i], d) ==> d in order[..i])
  }

  ghost predicate TopologicalOn(g: Graph, S: set<Id>, order: seq<Id>) {
    && Distinct(order)
    && (forall id :: id in order <==> id in S)
    && (forall i, d :: 0 <= i < |order| && Edge(g, order[i], d) && d in S ==> d in order[..i])
  }

  lemma {:induction false} OrderOf(g: Graph, S: set<Id>) returns (order: seq<Id>)
    requires Acyclic(g) && S <= g.Keys
    ensures TopologicalOn(g, S, order)
    decreases |S|
  {
    if S == {} {
      order := [];
    } else {
      var n := BottomExists(g, S);
      var rest := OrderOf(g, S - {n});
      order := [n] + rest;
      forall i, d | 0 <= i < |order| && Edge(g, order[i], d) && d in S ensures d in order[..i] {
        assert i > 0 by { assert DependsInside(g, S, order[i]); }
        assert order[..i] == [n] + rest[..i - 1];
        if d != n {
          assert order[i] == rest[i - 1] && Edge(g, rest[i - 1], d) && d in S - {n};
          assert d in rest[..i - 1];
        }
      }
    }
  }

  /** Every acyclic graph has a topological order. */
  lemma TopologicalOrder(g: Graph) returns (order: seq<Id>)
    requires Acyclic(g) && Closed(g)
    ensures Topological(g, order)
  {
    order := OrderOf(g, g.Keys);
  }

  lemma {:induction false} SequentialKeys(w: World, order: seq<Id>)
    ensures forall id :: id in Sequential(w, order) <==> id in order
    decreases |order|
  {
    if order != [] {
      var n := |order| - 1;
      SequentialKeys(w, order[..n]);
      assert order == order[..n] + [order[n]];
    }
  }

  /** Later tasks do not touch earlier spans. */
  lemma {:induction false} SequentialPrefix(w: World, order: seq<Id>, n: nat, id: Id)
    requires Distinct(order) && n <= |order|
    requires id in order[..n]
    ensures id in Sequential(w, order[..n]) && id in Sequential(w, order)
    ensures Sequential(w, order)[id] == Sequential(w, order[..n])[id]
    decreases |order|
  {
    hide DependencyGraph, SpanIn;
    SequentialKeys(w, order[..n]);
    if n == |order| {
      assert order[..n] == order;
    } else {
      var m := |order| - 1;
      assert order[..m][..n] == order[..n];
      SequentialPrefix(w, order[..m], n, id);
      var k :| 0 <= k < n && order[k] == id;
      assert order[m] != id;
    }
  }

  /** What the sequential evaluator gives each task, in terms of its final result alone. */
  ghost predicate Explained(w: World, e: map<Id, Span>, id: Id) {
    && id in e && id in G(w)
    && (DepsSucceeded(G(w), e, id) ==>
          forall seen | "input" !in seen && SameFor(w, id, seen, Outputs(e)) :: e[id] == SpanIn(w, id, seen))
    && (!DepsSucceeded(G(w), e, id) ==> e[id] == SkippedSpan(id))
  }

  /** When a task's turn comes, the spans of its dependencies are final. */
  lemma DepsFinal(w: World, order: seq<Id>, i: nat, d: Id)
    requires SoundWorld(w) && Topological(G(w), order) && i < |order| && d in G(w)[order[i]]
    ensures var e, before := Sequential(w, order), Sequential(w, order[..i]);
            d in before && d in e && e[d] == before[d]
  {
    hide DependencyGraph, SpanIn, Acyclic, LocalTemplates, Sequential;
    assert Edge(G(w), order[i], d);
    SequentialPrefix(w, order, i, d);
  }

  lemma DepsSame(w: World, order: seq<Id>, i: nat)
    requires SoundWorld(w) && Topological(G(w), order) && i < |order|
    ensures order[i] in G(w)
    ensures DepsSucceeded(G(w), Sequential(w, order[..i]), order[i]) <==> DepsSucceeded(G(w), Sequential(w, order), order[i])
  {
    assert order[i] in G(w);
    hide DependencyGraph, SpanIn, SoundWorld, Topological, Sequential;
    forall k | 0 <= k < |G(w)[order[i]]|
      ensures var d := G(w)[order[i]][k];
              d in Sequential(w, order[..i]) && d in Sequential(w, order)
              && Sequential(w, order)[d] == Sequential(w, order[..i])[d]
    {
      DepsFinal(w, order, i, G(w)[order[i]][k]);
    }
  }

  lemma SequentialTurn(w: World, order: seq<Id>, i: nat)
    requires i < |order|
    ensures Sequential(w, order[..i + 1]) == Sequential(w, order[..i])[order[i] := TurnOf(w, Sequential(w, order[..i]), order[i])]
  {
    hide DependencyGraph, SpanIn, DepsSucceeded;
    assert order[..i + 1][..i] == order[..i] && order[..i + 1][i] == order[i];
  }

  lemma SequentialStep(w: World, order: seq<Id>, i: nat)
    requires SoundWorld(w) && Topological(G(w), order) && i < |order|
    ensures var e, before := Sequential(w, order), Sequential(w, order[..i]);
            var id := order[i];
            && id in e && e[id] == TurnOf(w, before, id)
            && (DepsSucceeded(G(w), before, id) <==> DepsSucceeded(G(w), e, id))
  {
    DepsSame(w, order, i);
    hide DependencyGraph, SpanIn, SoundWorld, Sequential, DepsSucceeded, Distinct, TurnOf;
    SequentialTurn(w, order, i);
    assert order[..i + 1][i] == order[i];
    SequentialPrefix(w, order, i + 1, order[i]);
  }

  /** In the evaluator's result, a succeeded task has succeeded dependencies, all the way down. */
  lemma {:induction false} SequentialClosed(w: World, order: seq<Id>, id: Id, d: Id, p: seq<Id>)
    requires SoundWorld(w) && Topological(G(w), order)
    requires id in G(w) && WalkFromTo(G(w), p, id, d)
    requires |p| >= 2 ==> id in Sequential(w, order) && DepsSucceeded(G(w), Sequential(w, order), id)
    ensures |p| >= 2 ==> d in Sequential(w, order) && Sequential(w, order)[d].status.Succeeded?
    decreases |p|
  {
    hide DependencyGraph, SpanIn, Acyclic, LocalTemplates, Sequential, Distinct;
    if |p| >= 2 {
      assert LinkAt(G(w), p, 1);
      var b := p[1];
      var k :| 0 <= k < |G(w)[id]| && G(w)[id][k] == b;
      var i :| 0 <= i < |order| && order[i] == b;
      SequentialStep(w, order, i);
      SliceWalk(G(w), p, 1, |p|);
      SequentialClosed(w, order, b, d, p[1..|p|]);
    }
  }

  lemma AncestorsEarlier(w: World, order: seq<Id>, i: nat, d: Id, p: seq<Id>)
    requires Topological(G(w), order) && i < |order| && WalkFromTo(G(w), p, order[i], d) && |p| >= 2
    ensures d in order[..i]
    decreases |p|
  {
    assert LinkAt(G(w), p, 1);
    var b := p[1];
    assert b in order[..i];
    if |p| > 2 {
      var j :| 0 <= j < i && order[j] == b;
      SliceWalk(G(w), p, 1, |p|);
      AncestorsEarlier(w, order, j, d, p[1..|p|]);
    }
  }

  /** When a task runs, the outputs of its transitive dependencies are already final. */
  lemma AncestorOutput(w: World, order: seq<Id>, i: nat, d: Id)
    requires SoundWorld(w) && Topological(G(w), order) && i < |order|
    requires order[i] in Sequential(w, order) && DepsSucceeded(G(w), Sequential(w, order), order[i])
    requires DependsOn(G(w), order[i], d)
    ensures var e, before := Outputs(Sequential(w, order)), Outputs(Sequential(w, order[..i]));
            d in before && d in e && before[d] == e[d]
  {
    var p :| WalkFromTo(G(w), p, order[i], d) && |p| >= 2;
    hide DependencyGraph, SpanIn, Sequential, DepsSucceeded, Acyclic, LocalTemplates;
    SequentialClosed(w, order, order[i], d, p);
    AncestorsEarlier(w, order, i, d, p);
    SequentialPrefix(w, order, i, d);
  }

  /** A task that ran did what any view of the same ancestors' outputs would have made it do. */
  lemma RanAsSeen(w: World, order: seq<Id>, i: nat, seen: map<Id, Value>)
    requires SoundWorld(w) && Topological(G(w), order) && i < |order|
    requires order[i] in Sequential(w, order) && DepsSucceeded(G(w), Sequential(w, order), order[i])
    requires "input" !in seen && SameFor(w, order[i], seen, Outputs(Sequential(w, order)))
    ensures SpanIn(w, order[i], seen) == SpanIn(w, order[i], Outputs(Sequential(w, order[..i])))
  {
    hide DependencyGraph, SpanIn, DependsOn, Sequential, DepsSucceeded, Closed, Acyclic;
    forall d | d in G(w) && DependsOn(G(w), order[i], d)
      ensures var e, before := Outputs(Sequential(w, order)), Outputs(Sequential(w, order[..i]));
              d in before && d in e && before[d] == e[d]
    {
      AncestorOutput(w, order, i, d);
    }
    SequentialKeys(w, order[..i]);
    SpanLocal(w, order[i], seen, Outputs(Sequential(w, order[..i])));
  }

  lemma SequentialExplained(w: World, order: seq<Id>, id: Id)
    requires SoundWorld(w) && Topological(G(w), order) && id in G(w)
    ensures Explained(w, Sequential(w, order), id)
  {
    var i :| 0 <= i < |order| && order[i] == id;
    SequentialStep(w, order, i);
    hide DependencyGraph, SpanIn, Sequential, DepsSucceeded, SoundWorld, SameFor, Topological, Outputs;
    var e := Sequential(w, order);
    if DepsSucceeded(G(w), e, id) {
      forall seen | "input" !in seen && SameFor(w, id, seen, Outputs(e)) ensures e[id] == SpanIn(w, id, seen) {
        RanAsSeen(w, order, i, seen);
      }
    }
  }

  // ---------- concurrent runs ----------

  /** The received span is what the task does with the results it could see; only its duration
      is free. */
  ghost predicate Faithful(w: World, s: State, a: Action) {
    a.Receive? && a.span.id in s.inFlight && a.span.id in G(w) ==>
      Core(a.span) == SpanIn(w, a.span.id, s.inFlight[a.span.id])
  }

  /** The run agrees so far with a reference result. */
  ghost predicate Agrees(s: State, e: map<Id, Span>) {
    forall id :: id in s.spans ==> id in e && Core(s.spans[id]) == e[id]
  }

  /** The tasks that succeeded so far did what the reference says. */
  ghost predicate SuccessesAgree(s: State, e: map<Id, Span>) {
    forall id :: id in s.spans && s.spans[id].status.Succeeded? ==> id in e && Core(s.spans[id]) == e[id]
  }

  lemma AgreesMeans(s: State, e: map<Id, Span>)
    requires Agrees(s, e)
    ensures SuccessesAgree(s, e)
  {
  }

  ghost predicate Reference(w: World, e: map<Id, Span>) {
    forall id :: id in G(w) ==> Explained(w, e, id)
  }

  /** What a dispatched task sees covers all its transitive dependencies. */
  lemma SnapshotCovers(c: Config, s: State, id: Id, snap: map<Id, Value>, d: Id)
    requires SnapshotOk(c, s, id, snap) && DependsOn(c.g, id, d)
    ensures d in snap
  {
    var p :| WalkFromTo(c.g, p, id, d) && |p| >= 2;
    assert LinkAt(c.g, p, 1);
    SliceWalk(c.g, p, 1, |p|);
    ClosedUnderDepends(c.g, snap.Keys, p[1], d, p[1..|p|]);
  }

  lemma SnapshotMatches(c: Config, s: State, id: Id, snap: map<Id, Value>, e: map<Id, Span>, d: Id)
    requires ResultsMatch(c, s) && Partition(c, s) && SuccessesAgree(s, e) && SnapshotOk(c, s, id, snap) && d in snap
    ensures d in e && e[d].status.Succeeded? && e[d].output == snap[d] && d in c.g
  {
    assert d in s.results && Core(s.spans[d]) == e[d];
  }

  lemma CoveredIsSame(w: World, id: Id, snap: map<Id, Value>, e: map<Id, Span>)
    requires id in G(w) && "input" !in G(w)
    requires forall d :: d in snap ==> d in e && e[d].status.Succeeded? && e[d].output == snap[d] && d in G(w)
    requires forall k :: 0 <= k < |G(w)[id]| ==> G(w)[id][k] in snap
    requires forall d :: d in G(w) && DependsOn(G(w), id, d) ==> d in snap
    ensures DepsSucceeded(G(w), e, id) && SameFor(w, id, snap, Outputs(e)) && "input" !in snap
  {
    hide DependencyGraph, DependsOn;
  }

  /** ... as the reference has them. */
  lemma SeesReference(w: World, c: Config, s: State, e: map<Id, Span>, id: Id)
    requires SoundWorld(w) && c.g == G(w) && Inv(c, s) && SuccessesAgree(s, e) && id in s.inFlight
    ensures DepsSucceeded(G(w), e, id) && SameFor(w, id, s.inFlight[id], Outputs(e)) && "input" !in s.inFlight[id]
  {
    InFlightSnapshot(c, s, id);
    hide *;
    var snap := s.inFlight[id];
    forall d | d in snap ensures d in e && e[d].status.Succeeded? && e[d].output == snap[d] && d in c.g {
      SnapshotMatches(c, s, id, snap, e, d);
    }
    forall d | d in c.g && DependsOn(c.g, id, d) ensures d in snap {
      SnapshotCovers(c, s, id, snap, d);
    }
    NoTaskIsInput(w);
    CoveredIsSame(w, id, snap, e);
  }

  lemma NoTaskIsInput(w: World)
    requires SoundWorld(w)
    ensures "input" !in G(w)
  {
  }

  lemma InFlightSnapshot(c: Config, s: State, id: Id)
    requires Closed(c.g) && Inv(c, s) && id in s.inFlight
    ensures id in c.g && SnapshotOk(c, s, id, s.inFlight[id]) && ResultsMatch(c, s) && Partition(c, s)
    ensures forall k :: 0 <= k < |c.g[id]| ==> c.g[id][k] in s.inFlight[id]
  {
    forall k | 0 <= k < |c.g[id]| ensures c.g[id][k] in s.inFlight[id] {
      assert Edge(c.g, id, c.g[id][k]) && SnapshotOk(c, s, id, s.inFlight[id]);
    }
    hide CountsExact, StartedIffZero, SkipClosed, SkippedBlocked, Ending;
  }

  /** In a reference result, everything above an unsuccessful task is skipped. */
  lemma {:induction false} ReferenceSkips(w: World, e: map<Id, Span>, id: Id, f: Id, p: seq<Id>)
    requires SoundWorld(w) && Reference(w, e) && f in e && !e[f].status.Succeeded?
    requires WalkFromTo(G(w), p, id, f) && |p| >= 2
    ensures id in e && e[id] == SkippedSpan(id)
    decreases |p|
  {
    hide DependencyGraph, SpanIn, Acyclic, LocalTemplates;
    assert LinkAt(G(w), p, 1);
    var b := p[1];
    if |p| > 2 {
      SliceWalk(G(w), p, 1, |p|);
      ReferenceSkips(w, e, b, f, p[1..|p|]);
    }
    var k :| 0 <= k < |G(w)[id]| && G(w)[id][k] == b;
    assert Explained(w, e, id);
    assert !DepsSucceeded(G(w), e, id);
  }

  lemma StepAgrees(w: World, c: Config, s: State, a: Action, e: map<Id, Span>)
    requires SoundWorld(w) && c.g == G(w) && c.failFast == {} && Inv(c, s) && !s.runFailed
    requires Enabled(c, s, a) && Faithful(w, s, a) && Reference(w, e) && Agrees(s, e)
    ensures Agrees(Apply(c, s, a), e) && !Apply(c, s, a).runFailed
  {
    hide DependencyGraph, SpanIn, Acyclic, LocalTemplates, DependsOn, Released, NewlyReady, DepsSucceeded;
    hide CountsExact, StartedIffZero, SkipClosed, SkippedBlocked, SnapshotsOk, ResultsMatch, WithDescendantsSkipped;
    if a.Receive? {
      var id := a.span.id;
      AgreesMeans(s, e);
      hide SuccessesAgree;
      SeesReference(w, c, s, e, id);
      assert Explained(w, e, id);
      assert Core(a.span) == e[id];
      if !a.span.status.Succeeded? {
        FailureAgrees(w, c, s, a.span, e);
      }
    }
  }

  lemma FailureAgrees(w: World, c: Config, s: State, span: Span, e: map<Id, Span>)
    requires SoundWorld(w) && c.g == G(w) && Reference(w, e) && Agrees(s, e)
    requires span.id in e && Core(span) == e[span.id] && !span.status.Succeeded?
    ensures Agrees(AfterFailure(c, s, span), e)
  {
    var t := AfterFailure(c, s, span);
    forall k | k in t.spans ensures k in e && Core(t.spans[k]) == e[k] {
      if k != span.id && k !in s.spans {
        var p :| WalkFromTo(c.g, p, k, span.id) && |p| >= 2;
        ReferenceSkips(w, e, k, span.id, p);
      }
    }
  }

  ghost predicate FaithfulRun(w: World, tr: seq<State>, acts: seq<Action>) {
    forall i :: 0 <= i < |acts| && i < |tr| ==> Faithful(w, tr[i], acts[i])
  }

  lemma {:induction false} RunAgrees(w: World, c: Config, tr: seq<State>, acts: seq<Action>, e: map<Id, Span>, i: nat)
    requires SoundWorld(w) && c == Config(G(w), {}) && Run(c, tr, acts) && FaithfulRun(w, tr, acts)
    requires Reference(w, e) && i < |tr|
    ensures Agrees(tr[i], e) && !tr[i].runFailed
    decreases i
  {
    if i > 0 {
      RunAgrees(w, c, tr, acts, e, i - 1);
      RunInv(c, tr, acts, i - 1);
      assert StepAt(c, tr, acts, i - 1);
      assert Faithful(w, tr[i - 1], acts[i - 1]);
      StepAgrees(w, c, tr[i - 1], acts[i - 1], e);
      hide *;
    }
  }

  function Cores(spans: map<Id, Span>): map<Id, Span> {
    map id | id in spans :: Core(spans[id])
  }

  /** Confluence: at every moment the spans so far are those of the sequential evaluator, and a
      finished run has exactly its result, durations aside, for any topological order. */
  lemma Confluent(w: World, order: seq<Id>, tr: seq<State>, acts: seq<Action>)
    requires SoundWorld(w) && Topological(G(w), order)
    requires Run(Config(G(w), {}), tr, acts) && FaithfulRun(w, tr, acts)
    ensures forall i :: 0 <= i < |tr| ==> Agrees(tr[i], Sequential(w, order))
    ensures tr[|acts|].phase.Finished? ==> Cores(tr[|acts|].spans) == Sequential(w, order)
  {
    hide DependencyGraph, SpanIn, Acyclic, LocalTemplates, Sequential, Explained, StepAt;
    hide CountsExact, StartedIffZero, SkipClosed, SkippedBlocked, SnapshotsOk, ResultsMatch;
    var c, e := Config(G(w), {}), Sequential(w, order);
    forall id | id in G(w) ensures Explained(w, e, id) {
      SequentialExplained(w, order, id);
    }
    forall i | 0 <= i < |tr| ensures Agrees(tr[i], e) {
      RunAgrees(w, c, tr, acts, e, i);
    }
    RunInv(c, tr, acts, |acts|);
    SequentialKeys(w, order);
  }

  /** Two finished runs of the same workflow tell the same story, whatever order their tasks
      completed in. */
  lemma TwoRunsAgree(w: World, tr1: seq<State>, acts1: seq<Action>, tr2: seq<State>, acts2: seq<Action>)
    requires SoundWorld(w)
    requires Run(Config(G(w), {}), tr1, acts1) && FaithfulRun(w, tr1, acts1) && tr1[|acts1|].phase.Finished?
    requires Run(Config(G(w), {}), tr2, acts2) && FaithfulRun(w, tr2, acts2) && tr2[|acts2|].phase.Finished?
    ensures Cores(tr1[|acts1|].spans) == Cores(tr2[|acts2|].spans)
    ensures tr1[|acts1|].results == tr2[|acts2|].results
  {
    var order := TopologicalOrder(G(w));
    Confluent(w, order, tr1, acts1);
    Confluent(w, order, tr2, acts2);
    PublishedOutputs(w, tr1, acts1);
    PublishedOutputs(w, tr2, acts2);
  }

  // ---------- reports ----------

  /** No task's retry limit is negative. */
  ghost predicate RetriesMakeSense(w: World) {
    forall id :: id in G(w) ==> TaskMap(w.wf.tasks)[id].EffectiveRetry(w.wf.defaultRetry).max >= 0
  }

  lemma SpanAttempted(w: World, id: Id, seen: map<Id, Value>)
    requires id in G(w) && RetriesMakeSense(w)
    ensures SpanIn(w, id, seen).attempts >= 1
  {
    var t := TaskMap(w.wf.tasks)[id];
    var r := Templates.Resolve(Obj(t.inputs), TaskExecution.ScopeOf(w.inputs, seen), w.json);
    hide TaskMap, Templates.Resolve, TaskExecution.ScopeOf;
    if r.Some? {
      TaskExecution.SpanTellsAll(t, t.EffectiveRetry(w.wf.defaultRetry).max, w.inputs, seen, r.value, w.skill,
                                 AlwaysPass(), w.json);
    }
  }

  /** In a run under `continue` each action is survived, so it is no drain, and what is received is
      the span of a task that ran. */
  lemma FaithfulAction(w: World, c: Config, s: State, a: Action)
    requires c == Config(G(w), {}) && Inv(c, s) && !s.runFailed && Enabled(c, s, a) && Faithful(w, s, a)
    ensures !a.Drain?
    ensures a.Receive? ==> !a.span.status.Skipped? && (RetriesMakeSense(w) ==> a.span.attempts >= 1)
  {
    if a.Receive? {
      InFlightInGraph(c, s, a.span.id);
      SpanRan(w, a.span.id, s.inFlight[a.span.id]);
      if RetriesMakeSense(w) { SpanAttempted(w, a.span.id, s.inFlight[a.span.id]); }
    }
    hide SpanIn, DependencyGraph, RetriesMakeSense;
    hide Partition, ResultsMatch, CountsExact, StartedIffZero, SkipClosed, SkippedBlocked, SnapshotsOk;
  }

  lemma InFlightInGraph(c: Config, s: State, id: Id)
    requires Inv(c, s) && id in s.inFlight
    ensures id in c.g
  {
    hide ResultsMatch, CountsExact, StartedIffZero, SkipClosed, SkippedBlocked, SnapshotsOk, Ending;
  }

  lemma FaithfulActs(w: World, tr: seq<State>, acts: seq<Action>, order: seq<Id>)
    requires SoundWorld(w) && Topological(G(w), order) && Run(Config(G(w), {}), tr, acts) && FaithfulRun(w, tr, acts)
    ensures Uncancelled(acts) && Drained(acts) == NO_TOTALS && (RetriesMakeSense(w) ==> Attempted(acts))
    ensures !tr[|acts|].runFailed
  {
    hide SoundWorld, Topological, RetriesMakeSense, DependencyGraph, Inv, Apply, Enabled, Sequential, Reference, Faithful, Init;
    var c, e := Config(G(w), {}), Sequential(w, order);
    ReferenceOf(w, order);
    SoundOf(w);
    forall i: nat | i < |acts|
      ensures !acts[i].Drain?
      ensures acts[i].Receive? ==> !acts[i].span.status.Skipped? && (RetriesMakeSense(w) ==> acts[i].span.attempts >= 1)
    {
      RunInv(c, tr, acts, i);
      RunAgrees(w, c, tr, acts, e, i);
      assert StepAt(c, tr, acts, i);
      assert Faithful(w, tr[i], acts[i]);
      FaithfulAction(w, c, tr[i], acts[i]);
    }
    RunAgrees(w, c, tr, acts, e, |acts|);
    NoDrains(acts);
  }

  lemma {:induction false} NoDrains(acts: seq<Action>)
    requires forall i :: 0 <= i < |acts| ==> !acts[i].Drain?
    ensures Drained(acts) == NO_TOTALS
    decreases |acts|
  {
    if acts != [] { NoDrains(acts[..|acts| - 1]); }
  }

  lemma SoundOf(w: World)
    requires SoundWorld(w)
    ensures Sound(Config(G(w), {}))
  {
  }

  lemma ReferenceOf(w: World, order: seq<Id>)
    requires SoundWorld(w) && Topological(G(w), order)
    ensures Reference(w, Sequential(w, order))
  {
    hide SoundWorld, Sequential, DependencyGraph, Topological, Explained;
    forall id | id in G(w) ensures Explained(w, Sequential(w, order), id) {
      SequentialExplained(w, order, id);
    }
  }

  lemma CoreKeeps(a: map<Id, Span>, b: map<Id, Span>, id: Id)
    requires Cores(a) == Cores(b)
    ensures id in a <==> id in b
    ensures id in a ==> a[id].status == b[id].status
    ensures Tally(a, id) == Tally(b, id) && FailureText(a, id) == FailureText(b, id)
  {
    assert id in a <==> id in Cores(a);
    assert id in b <==> id in Cores(b);
    if id in a { assert Cores(a)[id] == Cores(b)[id]; }
  }

  /** What a finished run reports besides its spans, as a function of them. */
  lemma ReportOf(w: World, order: seq<Id>, tr: seq<State>, acts: seq<Action>)
    requires SoundWorld(w) && Topological(G(w), order) && Run(Config(G(w), {}), tr, acts) && FaithfulRun(w, tr, acts)
    ensures var s := tr[|acts|];
            && !s.runFailed
            && multiset(s.errors) == FailureTexts(order, s.spans)
            && (RetriesMakeSense(w) ==> s.totals == SumOver(order, s.spans))
  {
    hide *;
    FaithfulActs(w, tr, acts, order);
    SoundOf(w);
    OrderLists(w, order);
    LengthOf(w, tr, acts);
    var c := Config(G(w), {});
    ErrorsAreFailures(c, order, tr, acts, |acts|);
    if RetriesMakeSense(w) {
      TotalsAreSums(c, order, tr, acts, |acts|);
      assert acts[..|acts|] == acts;
      PlusNothing(tr[|acts|].totals);
    }
  }

  lemma PlusNothing(t: Totals)
    ensures Plus(t, NO_TOTALS) == t
  {
  }

  lemma LengthOf(w: World, tr: seq<State>, acts: seq<Action>)
    requires Run(Config(G(w), {}), tr, acts)
    ensures |tr| == |acts| + 1
  {
    hide StepAt, Init, DependencyGraph;
  }

  lemma OrderLists(w: World, order: seq<Id>)
    requires Topological(G(w), order)
    ensures Distinct(order) && forall id :: id in order <==> id in Config(G(w), {}).g
  {
    hide DependencyGraph, Distinct;
  }

  /** Two finished runs of the same workflow report the same, durations aside: spans, results,
      status, and errors up to their order; and, with retry limits that are not negative, totals. */
  lemma ReportsAgree(w: World, tr1: seq<State>, acts1: seq<Action>, tr2: seq<State>, acts2: seq<Action>)
    requires SoundWorld(w)
    requires Run(Config(G(w), {}), tr1, acts1) && FaithfulRun(w, tr1, acts1) && tr1[|acts1|].phase.Finished?
    requires Run(Config(G(w), {}), tr2, acts2) && FaithfulRun(w, tr2, acts2) && tr2[|acts2|].phase.Finished?
    ensures Cores(tr1[|acts1|].spans) == Cores(tr2[|acts2|].spans) && tr1[|acts1|].results == tr2[|acts2|].results
    ensures SchedulerProperties.Status(tr1[|acts1|]) == SchedulerProperties.Status(tr2[|acts2|])
    ensures multiset(tr1[|acts1|].errors) == multiset(tr2[|acts2|].errors)
    ensures RetriesMakeSense(w) ==> tr1[|acts1|].totals == tr2[|acts2|].totals
  {
    TwoRunsAgree(w, tr1, acts1, tr2, acts2);
    var s, t := tr1[|acts1|], tr2[|acts2|];
    var order := SomeOrder(w);
    ReportOf(w, order, tr1, acts1);
    ReportOf(w, order, tr2, acts2);
    hide *;
    forall id
      ensures (id in s.spans <==> id in t.spans) && (id in s.spans ==> s.spans[id].status == t.spans[id].status)
      ensures Tally(s.spans, id) == Tally(t.spans, id) && FailureText(s.spans, id) == FailureText(t.spans, id)
    {
      CoreKeeps(s.spans, t.spans, id);
    }
    SumSame(order, s.spans, t.spans);
    TextsSame(order, s.spans, t.spans);
    StatusSame(s, t);
  }

  lemma SomeOrder(w: World) returns (order: seq<Id>)
    requires SoundWorld(w)
    ensures Topological(G(w), order)
  {
    order := TopologicalOrder(G(w));
  }

  lemma StatusSame(s: State, t: State)
    requires !s.runFailed && !t.runFailed
    requires forall id :: (id in s.spans <==> id in t.spans) && (id in s.spans ==> s.spans[id].status == t.spans[id].status)
    ensures SchedulerProperties.Status(s) == SchedulerProperties.Status(t)
  {
  }

  /** What a run has published is what its spans say. */
  lemma PublishedOutputs(w: World, tr: seq<State>, acts: seq<Action>)
    requires SoundWorld(w) && Run(Config(G(w), {}), tr, acts) && FaithfulRun(w, tr, acts)
    ensures tr[|acts|].results == Outputs(Cores(tr[|acts|].spans))
  {
    hide DependencyGraph, SpanIn, Acyclic, LocalTemplates, Sequential, Explained, StepAt, Topological;
    hide CountsExact, StartedIffZero, SkipClosed, SkippedBlocked, SnapshotsOk;
    var order := TopologicalOrder(G(w));
    forall id | id in G(w) ensures Explained(w, Sequential(w, order), id) {
      SequentialExplained(w, order, id);
    }
    RunAgrees(w, Config(G(w), {}), tr, acts, Sequential(w, order), |acts|);
    RunInv(Config(G(w), {}), tr, acts, |acts|);
  }
}
