/** The Go and the Python main loop side by side: under `continue`, with the same tasks doing the
    same for what they see, both end with the spans of the sequential evaluator. */
module SchedulersAgree {
  import opened Values
  import opened Graphs
  import opened Workflows
  import opened Spans
  import Scheduling
  import SI = SchedulerInvariant
  import MainLoop
  import opened Confluence
  import opened SchedulerRun
  import Py = PythonScheduler

  /** Whenever a task comes back, its span is what the task does with what it saw; only the
      duration is free. */
  ghost predicate OutcomeOf(w: World, outcome: Outcome) {
    forall n, id, seen :: id in G(w) ==> Core(outcome(n, id, seen)) == SpanIn(w, id, seen)
  }

  lemma RunIsFaithful(w: World, outcome: Outcome, tr: seq<Scheduling.State>, acts: seq<Scheduling.Action>)
    requires OutcomeOf(w, outcome) && AllFromOutcome(outcome, tr, acts)
    ensures FaithfulRun(w, tr, acts)
  {
    hide SpanIn, DependencyGraph;
    forall i | 0 <= i < |acts| && i < |tr| ensures Faithful(w, tr[i], acts[i]) {
      assert FromOutcome(outcome, tr[i], acts[i]);
    }
  }

  /** Any finished run of the transition system with such outcomes has the evaluator's spans. */
  lemma ReachedIsSequential(w: World, order: seq<Id>, outcome: Outcome, acts: seq<Scheduling.Action>, s: Scheduling.State)
    requires SoundWorld(w) && Topological(G(w), order) && OutcomeOf(w, outcome)
    requires ReachesBy(Scheduling.Config(G(w), {}), outcome, acts, s) && s.phase.Finished?
    ensures Cores(s.spans) == Sequential(w, order) && s.results == Outputs(Sequential(w, order))
  {
    var c := Scheduling.Config(G(w), {});
    var tr :| Scheduling.Run(c, tr, acts) && tr[|acts|] == s && AllFromOutcome(outcome, tr, acts);
    hide *;
    RunIsFaithful(w, outcome, tr, acts);
    Confluent(w, order, tr, acts);
    PublishedOutputs(w, tr, acts);
  }

  // ---------- tasks that agree in status and output only ----------

  /** What the scheduling of other tasks depends on: the status, and the output of a success. */
  function Slim(s: Span): Span {
    Span(s.id, s.status, 0, 0, None, [], "", if s.status.Succeeded? then s.output else Null)
  }

  function Slims(spans: map<Id, Span>): map<Id, Span> {
    map id | id in spans :: Slim(spans[id])
  }

  /** Whenever a task comes back, its status and output are those of what the task does with what it
      saw; usage, decisions, attempts and error texts may be anything. */
  ghost predicate SameEffect(w: World, outcome: Outcome) {
    forall n, id, seen :: id in G(w) ==> Slim(outcome(n, id, seen)) == Slim(SpanIn(w, id, seen))
  }

  /** Two states that differ in totals, error texts and the rest of the spans at most. */
  ghost predicate Like(s: Scheduling.State, t: Scheduling.State) {
    && s.phase == t.phase && s.runFailed == t.runFailed && s.indeg == t.indeg && s.ready == t.ready
    && s.inFlight == t.inFlight && s.results == t.results && LikeSpans(s.spans, t.spans)
  }

  ghost predicate LikeSpans(a: map<Id, Span>, b: map<Id, Span>) {
    a.Keys == b.Keys && forall id :: id in a ==> Slim(a[id]) == Slim(b[id])
  }

  ghost predicate LikeActions(a: Scheduling.Action, b: Scheduling.Action) {
    match a
    case Receive(span) => b.Receive? && Slim(span) == Slim(b.span)
    case Drain(span) => b.Drain? && Slim(span) == Slim(b.span)
    case _ => a == b
  }

  lemma SlimMeans(a: Span, b: Span)
    requires Slim(a) == Slim(b)
    ensures a.id == b.id && a.status == b.status && (a.status.Succeeded? ==> a.output == b.output)
  {
  }

  lemma LikeEnabled(c: Scheduling.Config, s: Scheduling.State, t: Scheduling.State, a: Scheduling.Action, b: Scheduling.Action)
    requires Like(s, t) && LikeActions(a, b) && Scheduling.Enabled(c, s, a)
    ensures Scheduling.Enabled(c, t, b)
  {
    if a.Receive? || a.Drain? { SlimMeans(a.span, b.span); }
    hide Slim, LikeSpans;
  }

  lemma LikeUpdate(a: map<Id, Span>, b: map<Id, Span>, x: Span, y: Span)
    requires LikeSpans(a, b) && Slim(x) == Slim(y)
    ensures LikeSpans(a[x.id := x], b[y.id := y])
  {
    SlimMeans(x, y);
    hide Slim;
  }

  lemma LikeMarks(g: Graph, a: map<Id, Span>, b: map<Id, Span>, from: Id)
    requires LikeSpans(a, b)
    ensures LikeSpans(Scheduling.WithDescendantsSkipped(g, a, from), Scheduling.WithDescendantsSkipped(g, b, from))
    ensures LikeSpans(Scheduling.WithAllSkipped(g, a), Scheduling.WithAllSkipped(g, b))
  {
    hide Slim, DependsOn;
  }

  lemma LikeReceive(c: Scheduling.Config, s: Scheduling.State, t: Scheduling.State, x: Span, y: Span)
    requires Like(s, t) && Slim(x) == Slim(y)
    ensures x.status.Succeeded? ==> Like(Scheduling.AfterSuccess(c, s, x), Scheduling.AfterSuccess(c, t, y))
    ensures Like(Scheduling.AfterFatal(s, x), Scheduling.AfterFatal(t, y))
    ensures Like(Scheduling.AfterFailure(c, s, x), Scheduling.AfterFailure(c, t, y))
  {
    SlimMeans(x, y);
    LikeUpdate(s.spans, t.spans, x, y);
    LikeMarks(c.g, s.spans[x.id := x], t.spans[y.id := y], x.id);
    hide Slim, LikeSpans, Contribution, Scheduling.Released, Scheduling.NewlyReady, Scheduling.WithDescendantsSkipped;
  }

  lemma LikeRest(c: Scheduling.Config, s: Scheduling.State, t: Scheduling.State, a: Scheduling.Action, b: Scheduling.Action)
    requires Like(s, t) && LikeActions(a, b) && !a.Receive? && Scheduling.Enabled(c, s, a) && Scheduling.Enabled(c, t, b)
    ensures Like(Scheduling.Apply(c, s, a), Scheduling.Apply(c, t, b))
  {
    if a.Drain? {
      SlimMeans(a.span, b.span);
      LikeUpdate(s.spans, t.spans, a.span, b.span);
    }
    LikeMarks(c.g, s.spans, t.spans, "");
    hide Slim, LikeSpans, Scheduling.WithAllSkipped;
  }

  /** Like actions lead from like states to like states. */
  lemma LikeApply(c: Scheduling.Config, s: Scheduling.State, t: Scheduling.State, a: Scheduling.Action, b: Scheduling.Action)
    requires Like(s, t) && LikeActions(a, b) && Scheduling.Enabled(c, s, a) && Scheduling.Enabled(c, t, b)
    ensures Like(Scheduling.Apply(c, s, a), Scheduling.Apply(c, t, b))
  {
    hide Slim, Like, Scheduling.AfterSuccess, Scheduling.AfterFatal, Scheduling.AfterFailure;
    if a.Receive? {
      SlimMeans(a.span, b.span);
      LikeReceive(c, s, t, a.span, b.span);
    } else {
      LikeRest(c, s, t, a, b);
    }
  }

  /** The action with the span the task's own retry loop would have sent. */
  ghost function Proper(w: World, s: Scheduling.State, a: Scheduling.Action): Scheduling.Action {
    match a
    case Receive(span) =>
      if span.id in G(w) && span.id in s.inFlight then Scheduling.Receive(SpanIn(w, span.id, s.inFlight[span.id])) else a
    case Drain(span) =>
      if span.id in G(w) && span.id in s.inFlight then Scheduling.Drain(SpanIn(w, span.id, s.inFlight[span.id])) else a
    case _ => a
  }

  lemma ProperLike(w: World, outcome: Outcome, s: Scheduling.State, t: Scheduling.State, a: Scheduling.Action)
    requires SameEffect(w, outcome) && FromOutcome(outcome, s, a) && Like(s, t)
    ensures LikeActions(a, Proper(w, t, a)) && Faithful(w, t, Proper(w, t, a))
  {
    if (a.Receive? || a.Drain?) && a.span.id in s.inFlight && a.span.id in G(w) {
      var seen := s.inFlight[a.span.id];
      SpanRan(w, a.span.id, seen);
      var n :| a.span == outcome(n, a.span.id, seen);
      assert Slim(outcome(n, a.span.id, seen)) == Slim(SpanIn(w, a.span.id, seen));
    }
    hide SpanIn, G, Slim, LikeSpans;
  }

  /** A run with such outcomes is shadowed by one with the tasks' own spans. */
  lemma {:induction false} Shadow(w: World, outcome: Outcome, tr: seq<Scheduling.State>, acts: seq<Scheduling.Action>, n: nat)
    returns (tr': seq<Scheduling.State>, acts': seq<Scheduling.Action>)
    requires SameEffect(w, outcome) && AllFromOutcome(outcome, tr, acts) && n <= |acts|
    requires Scheduling.Run(Scheduling.Config(G(w), {}), tr, acts)
    ensures Scheduling.Run(Scheduling.Config(G(w), {}), tr', acts') && |acts'| == n
    ensures FaithfulRun(w, tr', acts') && Like(tr[n], tr'[n])
    decreases n
  {
    var c := Scheduling.Config(G(w), {});
    hide SameEffect, Like, Faithful, Proper, LikeActions, Scheduling.Enabled, Scheduling.Apply, FromOutcome, Scheduling.Init, G;
    if n == 0 {
      tr', acts' := [Scheduling.Init(c)], [];
      LikeSelf(Scheduling.Init(c));
    } else {
      var front, before := Shadow(w, outcome, tr, acts, n - 1);
      assert Scheduling.StepAt(c, tr, acts, n - 1);
      var s, t, a := tr[n - 1], front[n - 1], acts[n - 1];
      var b := Proper(w, t, a);
      assert FromOutcome(outcome, s, a);
      ProperLike(w, outcome, s, t, a);
      LikeEnabled(c, s, t, a, b);
      LikeApply(c, s, t, a, b);
      Scheduling.RunExtend(c, front, before, b);
      tr', acts' := front + [Scheduling.Apply(c, t, b)], before + [b];
      assert FaithfulRun(w, tr', acts');
    }
  }

  lemma LikeSelf(s: Scheduling.State)
    ensures Like(s, s)
  {
  }

  lemma SlimOfCore(a: map<Id, Span>, b: map<Id, Span>, e: map<Id, Span>)
    requires LikeSpans(a, b) && Cores(b) == e
    ensures Slims(a) == Slims(e)
  {
    forall id | id in a ensures id in e && Slim(a[id]) == Slim(e[id]) {
      assert id in b && Cores(b)[id] == e[id];
    }
    assert forall id :: id in e ==> id in Cores(b);
  }

  /** Any finished run whose tasks agree in status and output ends with the statuses and outputs of
      the sequential evaluator, and with its results. */
  lemma ReachedIsAlike(w: World, order: seq<Id>, outcome: Outcome, acts: seq<Scheduling.Action>, s: Scheduling.State)
    requires SoundWorld(w) && Topological(G(w), order) && SameEffect(w, outcome)
    requires ReachesBy(Scheduling.Config(G(w), {}), outcome, acts, s) && s.phase.Finished?
    ensures Slims(s.spans) == Slims(Sequential(w, order)) && s.results == Outputs(Sequential(w, order))
  {
    var c := Scheduling.Config(G(w), {});
    var tr :| Scheduling.Run(c, tr, acts) && tr[|acts|] == s && AllFromOutcome(outcome, tr, acts);
    hide *;
    var tr', acts' := Shadow(w, outcome, tr, acts, |acts|);
    var t := tr'[|acts'|];
    LikeParts(s, t);
    Confluent(w, order, tr', acts');
    PublishedOutputs(w, tr', acts');
    SlimOfCore(s.spans, t.spans, Sequential(w, order));
  }

  lemma LikeParts(s: Scheduling.State, t: Scheduling.State)
    requires Like(s, t)
    ensures s.phase == t.phase && s.results == t.results && LikeSpans(s.spans, t.spans)
  {
  }

  lemma ConfigIs(w: World)
    requires MainLoop.FatalIds(w.wf) == {}
    ensures MainLoop.ConfigOf(w.wf) == Scheduling.Config(G(w), {})
  {
  }

  /** Both loops on the same workflow, each with its own completion order, its own batches and its
      own durations, and the Python tasks with usage, decisions and error texts of their own: each
      task ends with the same status and output, the published results agree, and all are those
      of the sequential evaluator in any topological order. */
  method BothSchedulers(w: World, go: Loop, py: Loop, goOutcome: Outcome, pyOutcome: Outcome,
                        choice: (nat, set<Id>) -> set<Id>, ghost order: seq<Id>)
    requires SoundWorld(w) && MainLoop.FatalIds(w.wf) == {} && Topological(G(w), order)
    requires go != py && go.wf == w.wf && py.wf == w.wf
    requires go.Valid() && go.Abs() == Scheduling.Init(go.C()) && Plausible(goOutcome) && OutcomeOf(w, goOutcome)
    requires py.Valid() && py.Abs() == Scheduling.Init(py.C()) && Plausible(pyOutcome) && SameEffect(w, pyOutcome)
    modifies go, py
    ensures go.phase.Finished? && py.phase.Finished?
    ensures Cores(go.spans) == Sequential(w, order)
    ensures Slims(py.spans) == Slims(Sequential(w, order)) == Slims(go.spans)
    ensures OutcomeOf(w, pyOutcome) ==> Cores(py.spans) == Sequential(w, order)
    ensures go.results == py.results == Outputs(Sequential(w, order))
  {
    hide SoundWorld, Topological, OutcomeOf, SameEffect, Sequential, SI.Inv, ReachesBy, Cores, Slims, Outputs, Plausible;
    hide WellFormed, MainLoop.ChildrenExact, MainLoop.NoRepeats, NonNegative, Scheduling.Init, MainLoop.FatalIds;
    ConfigIs(w);
    ghost var goActs, pyActs;
    var unused, errors;
    goActs, unused := SchedulerRun.RunLoop(go, goOutcome);
    pyActs, unused, errors := Py.RunLoop(py, pyOutcome, choice);
    hide MainLoop.ConfigOf, G;
    ReachedIsSequential(w, order, goOutcome, goActs, go.Abs());
    ReachedIsAlike(w, order, pyOutcome, pyActs, py.Abs());
    LikeCores(go.spans, Sequential(w, order));
    if OutcomeOf(w, pyOutcome) { ReachedIsSequential(w, order, pyOutcome, pyActs, py.Abs()); }
  }

  lemma LikeCores(a: map<Id, Span>, e: map<Id, Span>)
    requires Cores(a) == e
    ensures Slims(a) == Slims(e)
  {
    SlimOfCore(a, a, e);
  }
}
