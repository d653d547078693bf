/** Properties of whole scheduler runs: termination, dispatch discipline, exact skipping, the
    reported status and the totals. */
module SchedulerProperties {
  import opened Graphs
  import opened Spans
  import opened Scheduling
  import opened SchedulerInvariant

  // ---------- termination ----------

  function PhaseWeight(p: Phase): nat {
    match p case Running => 2 case Draining => 1 case Finished => 0
  }

  /** Work left: two steps per untouched task, one per task in flight, and the phase changes. */
  function WorkLeft(c: Config, s: State): int {
    2 * (|c.g.Keys| - |s.spans.Keys| - |s.inFlight.Keys|) + |s.inFlight.Keys| + PhaseWeight(s.phase)
  }

  lemma Sizes(c: Config, s: State)
    requires Partition(c, s)
    ensures |s.spans.Keys| + |s.inFlight.Keys| <= |c.g.Keys|
  {
    assert |s.spans.Keys + s.inFlight.Keys| == |s.spans.Keys| + |s.inFlight.Keys|;
    SubsetSize(s.spans.Keys + s.inFlight.Keys, c.g.Keys);
  }

  lemma {:induction false} SubsetSize<T>(a: set<T>, b: set<T>)
    requires a <= b
    ensures |a| <= |b|
    decreases |a|
  {
    if x :| x in a { SubsetSize(a - {x}, b - {x}); }
  }

  lemma UnionSize<T>(a: set<T>, b: set<T>)
    requires a !! b
    ensures |a + b| == |a| + |b|
  {
  }

  lemma MovedSize<T>(b: set<T>, taken: set<T>, sent: set<T>)
    requires taken <= b && sent !! b
    ensures |b - taken + sent| == |b| - |taken| + |sent|
  {
    UnionSize(b - taken, taken);
    assert b - taken + taken == b;
    UnionSize(b - taken, sent);
  }

  /** The work left depends on how many tasks have a span, how many are in flight, and the phase. */
  lemma WorkFalls(c: Config, s: State, t: State, taken: set<Id>, sent: set<Id>)
    requires t.inFlight.Keys == s.inFlight.Keys - taken + sent && s.spans.Keys + taken <= t.spans.Keys
    requires taken <= s.inFlight.Keys && taken !! s.spans.Keys && sent !! s.inFlight.Keys
    requires PhaseWeight(t.phase) <= PhaseWeight(s.phase)
    requires |taken| + |sent| > 0 || PhaseWeight(t.phase) < PhaseWeight(s.phase)
    ensures WorkLeft(c, t) < WorkLeft(c, s)
  {
    SubsetSize(s.spans.Keys + taken, t.spans.Keys);
    UnionSize(s.spans.Keys, taken);
    MovedSize(s.inFlight.Keys, taken, sent);
    hide PhaseWeight;
  }

  lemma ReceiveShrinks(c: Config, s: State, t: State, span: Span)
    requires span.id in s.inFlight && span.id !in s.spans && PhaseWeight(t.phase) <= PhaseWeight(s.phase)
    requires t.inFlight == s.inFlight - {span.id} && s.spans.Keys + {span.id} <= t.spans.Keys
    ensures WorkLeft(c, t) < WorkLeft(c, s)
  {
    hide WorkLeft, PhaseWeight;
    assert t.inFlight.Keys == s.inFlight.Keys - {span.id} + {};
    assert |{span.id}| == 1;
    WorkFalls(c, s, t, {span.id}, {});
  }

  lemma DispatchShrinks(c: Config, s: State, t: State, id: Id)
    requires id !in s.inFlight && t.inFlight.Keys == s.inFlight.Keys + {id} && t.spans == s.spans && t.phase == s.phase
    ensures WorkLeft(c, t) < WorkLeft(c, s)
  {
    hide WorkLeft, PhaseWeight;
    assert t.inFlight.Keys == s.inFlight.Keys - {} + {id};
    assert |{id}| == 1;
    WorkFalls(c, s, t, {}, {id});
  }

  lemma PhaseShrinks(c: Config, s: State, t: State)
    requires t.inFlight == s.inFlight && s.spans.Keys <= t.spans.Keys && PhaseWeight(t.phase) < PhaseWeight(s.phase)
    ensures WorkLeft(c, t) < WorkLeft(c, s)
  {
    hide WorkLeft, PhaseWeight;
    assert t.inFlight.Keys == s.inFlight.Keys - {} + {};
    WorkFalls(c, s, t, {}, {});
  }

  lemma StepShrinks(c: Config, s: State, a: Action)
    requires Sound(c) && Inv(c, s) && Enabled(c, s, a)
    ensures WorkLeft(c, Apply(c, s, a)) < WorkLeft(c, s)
  {
    hide WorkLeft, DependsOn, Released, NewlyReady, Contribution, Sound;
    hide ResultsMatch, CountsExact, StartedIffZero, SkipClosed, SkippedBlocked, SnapshotsOk, Ending;
    var t := Apply(c, s, a);
    match a {
      case Dispatch(id) => DispatchShrinks(c, s, t, id);
      case Receive(span) => ReceiveShrinks(c, s, t, span);
      case Drain(span) => ReceiveShrinks(c, s, t, span);
      case EndDrain => PhaseShrinks(c, s, t);
      case Complete => PhaseShrinks(c, s, t);
    }
  }

  lemma {:induction false} WorkBound(c: Config, tr: seq<State>, acts: seq<Action>, i: nat)
    requires Sound(c) && Run(c, tr, acts) && i < |tr|
    ensures WorkLeft(c, tr[i]) + i <= 2 * |c.g.Keys| + 2
    decreases i
  {
    hide Inv, Apply, Enabled, WorkLeft;
    if i == 0 {
      InitialWork(c);
    } else {
      WorkBound(c, tr, acts, i - 1);
      RunInv(c, tr, acts, i - 1);
      assert StepAt(c, tr, acts, i - 1);
      StepShrinks(c, tr[i - 1], acts[i - 1]);
    }
  }

  lemma InitialWork(c: Config)
    ensures WorkLeft(c, Init(c)) == 2 * |c.g.Keys| + 2
  {
  }

  /** Every run is short: a dispatch and a receive per task and at most two changes of phase. */
  lemma RunsTerminate(c: Config, tr: seq<State>, acts: seq<Action>)
    requires Sound(c) && Run(c, tr, acts)
    ensures |acts| <= 2 * |c.g.Keys| + 2
  {
    var i := |acts|;
    WorkBound(c, tr, acts, i);
    RunInv(c, tr, acts, i);
    Sizes(c, tr[i]);
  }

  /** A finished run has given every task exactly one span. */
  lemma FinishedIsComplete(c: Config, tr: seq<State>, acts: seq<Action>)
    requires Sound(c) && Run(c, tr, acts) && tr[|acts|].phase.Finished?
    ensures tr[|acts|].spans.Keys == c.g.Keys
    ensures forall id :: id in c.g ==> tr[|acts|].spans[id].id == id
  {
    RunInv(c, tr, acts, |acts|);
  }

  // ---------- each task is dispatched and received at most once ----------

  ghost predicate Touched(s: State, id: Id) {
    id in s.inFlight || id in s.spans
  }

  lemma StepKeepsTouched(c: Config, s: State, a: Action, id: Id)
    requires Enabled(c, s, a)
    ensures Touched(s, id) ==> Touched(Apply(c, s, a), id)
    ensures id in s.spans ==> id in Apply(c, s, a).spans
  {
  }

  lemma {:induction false} RunKeepsTouched(c: Config, tr: seq<State>, acts: seq<Action>, i: nat, j: nat, id: Id)
    requires Run(c, tr, acts) && i <= j < |tr|
    ensures Touched(tr[i], id) ==> Touched(tr[j], id)
    ensures id in tr[i].spans ==> id in tr[j].spans
    decreases j
  {
    hide Apply, Enabled;
    if i < j {
      RunKeepsTouched(c, tr, acts, i, j - 1, id);
      assert StepAt(c, tr, acts, j - 1);
      StepKeepsTouched(c, tr[j - 1], acts[j - 1], id);
    }
  }

  lemma DispatchTouches(c: Config, tr: seq<State>, acts: seq<Action>, i: nat, id: Id)
    requires Sound(c) && Run(c, tr, acts) && i < |acts| && acts[i] == Dispatch(id)
    ensures !Touched(tr[i], id) && Touched(tr[i + 1], id)
    ensures forall d :: Edge(c.g, id, d) ==> d in tr[i].results
  {
    assert StepAt(c, tr, acts, i);
    RunInv(c, tr, acts, i);
    ZeroMeansDepsDone(c, tr[i], id);
  }

  lemma StepTakes(c: Config, s: State, a: Action, id: Id)
    requires Partition(c, s) && Enabled(c, s, a) && TakesSpanOf(a, id)
    ensures id !in s.spans && id in Apply(c, s, a).spans
  {
    hide Released, NewlyReady, DependsOn, Contribution;
  }

  lemma TakingRecords(c: Config, tr: seq<State>, acts: seq<Action>, i: nat, id: Id)
    requires Sound(c) && Run(c, tr, acts) && i < |acts| && TakesSpanOf(acts[i], id)
    ensures id !in tr[i].spans && id in tr[i + 1].spans
  {
    hide Partition, ResultsMatch, CountsExact, StartedIffZero, SkipClosed, SkippedBlocked, SnapshotsOk, Apply, TakesSpanOf;
    assert StepAt(c, tr, acts, i);
    RunInv(c, tr, acts, i);
    StepTakes(c, tr[i], acts[i], id);
  }

  /** No task is dispatched twice, and each dispatch sees the outputs of all dependencies. */
  lemma DispatchedOnce(c: Config, tr: seq<State>, acts: seq<Action>, i: nat, id: Id)
    requires Sound(c) && Run(c, tr, acts) && i < |acts| && acts[i] == Dispatch(id)
    ensures forall d :: Edge(c.g, id, d) ==> d in tr[i].results
    ensures forall j :: 0 <= j < |acts| && acts[j] == Dispatch(id) ==> j == i
  {
    hide Inv, Touched, StepAt;
    DispatchTouches(c, tr, acts, i, id);
    forall j | 0 <= j < |acts| && acts[j] == Dispatch(id) ensures j == i {
      DispatchTouches(c, tr, acts, j, id);
      if i < j { RunKeepsTouched(c, tr, acts, i + 1, j, id); }
      if j < i { RunKeepsTouched(c, tr, acts, j + 1, i, id); }
    }
  }

  ghost predicate TakesSpanOf(a: Action, id: Id) {
    (a.Receive? || a.Drain?) && a.span.id == id
  }

  /** At most one span per task is ever taken from the channel, drain included. */
  lemma ReceivedOnce(c: Config, tr: seq<State>, acts: seq<Action>, i: nat, j: nat, id: Id)
    requires Sound(c) && Run(c, tr, acts) && i < |acts| && j < |acts|
    requires TakesSpanOf(acts[i], id) && TakesSpanOf(acts[j], id)
    ensures i == j
  {
    TakingRecords(c, tr, acts, i, id);
    TakingRecords(c, tr, acts, j, id);
    hide StepAt, TakesSpanOf;
    if i < j { RunKeepsTouched(c, tr, acts, i + 1, j, id); }
    if j < i { RunKeepsTouched(c, tr, acts, j + 1, i, id); }
  }

  /** Dependency entries, with multiplicity, of tasks that have not succeeded. */
  ghost function Unsuccessful(spans: map<Id, Span>, ds: seq<Id>): nat {
    if ds == [] then 0
    else (if ds[0] in spans && spans[ds[0]].status.Succeeded? then 0 else 1) + Unsuccessful(spans, ds[1..])
  }

  lemma {:induction false} UnsuccessfulIsMissing(spans: map<Id, Span>, ds: seq<Id>, done: set<Id>)
    requires forall d :: d in done <==> d in spans && spans[d].status.Succeeded?
    ensures Unsuccessful(spans, ds) == Missing(ds, done)
    decreases |ds|
  {
    if ds != [] { UnsuccessfulIsMissing(spans, ds[1..], done); }
  }

  /** In every state a run reaches before a fatal failure, a task's counter is the number of its
      dependency entries, repeats included, that have not succeeded; it is zero exactly when the
      task is ready, in flight, or has come back from running. */
  lemma CounterExact(c: Config, tr: seq<State>, acts: seq<Action>, i: nat, id: Id)
    requires Sound(c) && Run(c, tr, acts) && i < |tr| && !tr[i].runFailed && id in c.g
    ensures id in tr[i].indeg && tr[i].indeg[id] == Unsuccessful(tr[i].spans, c.g[id])
    ensures id in tr[i].ready || id in tr[i].inFlight ==> tr[i].indeg[id] == 0
    ensures tr[i].indeg[id] == 0 ==> id in tr[i].ready || id in tr[i].inFlight || id in tr[i].spans
    ensures id in tr[i].spans && tr[i].indeg[id] != 0 ==> tr[i].spans[id].status.Skipped?
  {
    RunInv(c, tr, acts, i);
    UnsuccessfulIsMissing(tr[i].spans, c.g[id], tr[i].results.Keys);
  }

  // ---------- what a report keeps ----------

  /** In every reachable state, drains included, a succeeded task has only succeeded dependencies. */
  lemma SucceededClosed(c: Config, s: State, id: Id, d: Id)
    requires Inv(c, s) && id in s.spans && s.spans[id].status.Succeeded? && Edge(c.g, id, d)
    ensures d in s.spans && s.spans[d].status.Succeeded?
  {
    ZeroMeansDepsDone(c, s, id);
  }

  /** Marking descendants touches waiting tasks only: nothing ready, in flight or finished. */
  lemma MarksOnlyWaiting(c: Config, s: State, span: Span, k: Id)
    requires Sound(c) && Inv(c, s) && s.phase.Running? && span.id in s.inFlight && !span.status.Succeeded?
    requires k in AfterFailure(c, s, span).spans && k != span.id
    ensures k in s.spans ==> AfterFailure(c, s, span).spans[k] == s.spans[k]
    ensures k !in s.spans ==> k !in s.ready && k !in s.inFlight && AfterFailure(c, s, span).spans[k] == SkippedSpan(k)
  {
    FailureInv(c, s, span);
    if k !in s.spans { DescendantsBlocked(c, s, span.id, k); }
  }

  /** No received span says the task was cancelled. */
  ghost predicate Uncancelled(acts: seq<Action>) {
    forall i :: 0 <= i < |acts| && acts[i].Receive? ==> !acts[i].span.status.Skipped?
  }

  ghost predicate BelowFailure(c: Config, s: State, id: Id) {
    exists f :: f in s.spans && s.spans[f].status.Failed? && DependsOn(c.g, id, f)
  }

  ghost predicate SkipsExplained(c: Config, s: State) {
    !s.runFailed ==> forall id :: id in s.spans && s.spans[id].status.Skipped? ==> BelowFailure(c, s, id)
  }

  lemma StillBelow(c: Config, s: State, t: State, id: Id)
    requires BelowFailure(c, s, id) && forall f :: f in s.spans ==> f in t.spans && t.spans[f] == s.spans[f]
    ensures BelowFailure(c, t, id)
  {
    var f :| f in s.spans && s.spans[f].status.Failed? && DependsOn(c.g, id, f);
    assert f in t.spans && t.spans[f] == s.spans[f];
  }

  lemma StepExplains(c: Config, s: State, a: Action)
    requires Sound(c) && Inv(c, s) && Enabled(c, s, a) && SkipsExplained(c, s)
    requires a.Receive? ==> !a.span.status.Skipped?
    ensures SkipsExplained(c, Apply(c, s, a))
  {
    hide DependsOn, BelowFailure, Released, NewlyReady, Contribution, WithDescendantsSkipped, WithAllSkipped;
    if a.Receive? && a.span.status.Failed? && a.span.id !in c.failFast {
      FailureExplains(c, s, a.span);
    } else if !Apply(c, s, a).runFailed {
      var t := Apply(c, s, a);
      forall id | id in t.spans && t.spans[id].status.Skipped? ensures BelowFailure(c, t, id) {
        StillBelow(c, s, t, id);
      }
    }
  }

  lemma FailureExplains(c: Config, s: State, span: Span)
    requires SkipsExplained(c, s) && span.status.Failed? && span.id !in s.spans
    ensures SkipsExplained(c, AfterFailure(c, s, span))
  {
    hide DependsOn, BelowFailure;
    var t := AfterFailure(c, s, span);
    if !t.runFailed {
      forall id | id in t.spans && t.spans[id].status.Skipped? ensures BelowFailure(c, t, id) {
        if id in s.spans { StillBelow(c, s, t, id); } else { MarkedBelow(c, s, span, id); }
      }
    }
  }

  lemma MarkedBelow(c: Config, s: State, span: Span, id: Id)
    requires id !in s.spans && id in AfterFailure(c, s, span).spans && id != span.id && span.status.Failed?
    ensures BelowFailure(c, AfterFailure(c, s, span), id)
  {
    assert AfterFailure(c, s, span).spans[span.id] == span;
  }

  lemma {:induction false} RunExplains(c: Config, tr: seq<State>, acts: seq<Action>, i: nat)
    requires Sound(c) && Run(c, tr, acts) && Uncancelled(acts) && i < |tr|
    ensures SkipsExplained(c, tr[i])
    decreases i
  {
    hide Inv, Apply, Enabled;
    if i > 0 {
      RunExplains(c, tr, acts, i - 1);
      RunInv(c, tr, acts, i - 1);
      assert StepAt(c, tr, acts, i - 1);
      StepExplains(c, tr[i - 1], acts[i - 1]);
    }
  }

  /** Everything above an unsuccessful task has a span and did not succeed. */
  lemma {:induction false} AboveUnsuccessful(c: Config, s: State, p: seq<Id>, id: Id, f: Id)
    requires Sound(c) && Inv(c, s) && !s.runFailed
    requires f in s.spans && !s.spans[f].status.Succeeded? && WalkFromTo(c.g, p, id, f)
    ensures id in s.spans && !s.spans[id].status.Succeeded?
    decreases |p|
  {
    if |p| > 1 {
      assert LinkAt(c.g, p, 1);
      SliceWalk(c.g, p, 1, |p|);
      AboveUnsuccessful(c, s, p[1..|p|], p[1], f);
      assert SkipClosed(c, s);
      if s.spans[id].status.Succeeded? { SucceededClosed(c, s, id, p[1]); }
    }
  }

  /** Skipping is exact: with `continue` throughout and no cancellation, at every moment the
      skipped tasks are exactly the strict descendants of the failed ones. */
  lemma SkippedExactly(c: Config, tr: seq<State>, acts: seq<Action>, i: nat, id: Id)
    requires Sound(c) && Run(c, tr, acts) && Uncancelled(acts) && i < |tr| && !tr[i].runFailed
    ensures id in tr[i].spans && tr[i].spans[id].status.Skipped? <==> BelowFailure(c, tr[i], id)
  {
    var s := tr[i];
    RunInv(c, tr, acts, i);
    RunExplains(c, tr, acts, i);
    if BelowFailure(c, s, id) {
      var f :| f in s.spans && s.spans[f].status.Failed? && DependsOn(c.g, id, f);
      var p :| WalkFromTo(c.g, p, id, f) && |p| >= 2;
      AboveUnsuccessful(c, s, p, id, f);
      DescendantsBlocked(c, s, f, id);
    }
  }

  // ---------- status ----------

  /** The main loop takes the span of a task that did not succeed and whose failure is fatal. */
  ghost predicate TakesFatal(c: Config, a: Action) {
    a.Receive? && !a.span.status.Succeeded? && a.span.id in c.failFast
  }

  /** A run has failed exactly when it has taken such a span. */
  lemma {:induction false} FailedExactly(c: Config, tr: seq<State>, acts: seq<Action>, n: nat)
    requires Run(c, tr, acts) && n <= |acts|
    ensures tr[n].runFailed <==> exists i :: 0 <= i < n && TakesFatal(c, acts[i])
    decreases n
  {
    hide Enabled, Apply, TakesFatal;
    if n > 0 {
      FailedExactly(c, tr, acts, n - 1);
      assert StepAt(c, tr, acts, n - 1);
      StepFailed(c, tr[n - 1], acts[n - 1]);
    }
  }

  lemma StepFailed(c: Config, s: State, a: Action)
    requires Enabled(c, s, a)
    ensures Apply(c, s, a).runFailed <==> s.runFailed || TakesFatal(c, a)
  {
    hide Released, NewlyReady, DependsOn, Contribution, WithDescendantsSkipped, WithAllSkipped;
  }

  /** The status the report shows. */
  ghost function Status(s: State): Spans.Status {
    if s.runFailed || exists id :: id in s.spans && s.spans[id].status.Failed? then Failed else Succeeded
  }

  ghost predicate AllSucceeded(c: Config, s: State) {
    forall id :: id in c.g ==> id in s.spans && s.spans[id].status.Succeeded?
  }

  /** Without cancellation a finished run is reported as succeeded exactly when every task
      succeeded, whatever the error policies. */
  lemma StatusExact(c: Config, tr: seq<State>, acts: seq<Action>)
    requires Sound(c) && Run(c, tr, acts) && Uncancelled(acts) && tr[|acts|].phase.Finished?
    ensures Status(tr[|acts|]).Succeeded? <==> AllSucceeded(c, tr[|acts|])
  {
    var s := tr[|acts|];
    RunInv(c, tr, acts, |acts|);
    RunExplains(c, tr, acts, |acts|);
    if Status(s).Succeeded? {
      forall id | id in c.g ensures s.spans[id].status.Succeeded? {
        assert s.spans[id].status.Skipped? ==> BelowFailure(c, s, id);
      }
    }
  }

  /** Without a fatal failure, unsuccessful tasks are all outside the fail-fast set. */
  ghost predicate SurvivedOutside(c: Config, s: State) {
    !s.runFailed ==> forall id :: id in s.spans && id in c.failFast ==> s.spans[id].status.Succeeded?
  }

  /** When every task is fail-fast, an unsuccessful span ends the run at once, so nothing is
      ever marked while the run survives. */
  lemma StepSurvives(c: Config, s: State, a: Action)
    requires Sound(c) && Inv(c, s) && Enabled(c, s, a) && c.g.Keys <= c.failFast && SurvivedOutside(c, s)
    ensures SurvivedOutside(c, Apply(c, s, a))
  {
    hide DependsOn, Released, NewlyReady, Contribution, WithDescendantsSkipped, WithAllSkipped, Sound;
    hide ResultsMatch, CountsExact, StartedIffZero, SkipClosed, SkippedBlocked, SnapshotsOk;
  }

  lemma StartSurvives(c: Config)
    ensures SurvivedOutside(c, Init(c))
  {
  }

  lemma {:induction false} RunSurvives(c: Config, tr: seq<State>, acts: seq<Action>, i: nat)
    requires Sound(c) && Run(c, tr, acts) && c.g.Keys <= c.failFast && i < |tr|
    ensures SurvivedOutside(c, tr[i])
    decreases i
  {
    hide Inv, Apply, Enabled, SurvivedOutside;
    if i == 0 {
      StartSurvives(c);
    } else {
      RunSurvives(c, tr, acts, i - 1);
      RunInv(c, tr, acts, i - 1);
      assert StepAt(c, tr, acts, i - 1);
      StepSurvives(c, tr[i - 1], acts[i - 1]);
    }
  }

  /** The report tells the truth: it says succeeded exactly when every task succeeded. */
  ghost predicate Truthful(c: Config, s: State) {
    Status(s).Succeeded? <==> AllSucceeded(c, s)
  }

  ghost predicate AlwaysTruthful(c: Config) {
    forall acts, s :: Reaches(c, acts, s) && s.phase.Finished? ==> Truthful(c, s)
  }

  lemma TruthfulIfAllFatal(c: Config, acts: seq<Action>, s: State)
    requires Sound(c) && c.g.Keys <= c.failFast && Reaches(c, acts, s) && s.phase.Finished?
    ensures Truthful(c, s)
  {
    var tr :| Run(c, tr, acts) && tr[|acts|] == s;
    RunInv(c, tr, acts, |acts|);
    RunSurvives(c, tr, acts, |acts|);
  }

  /** Nothing failed so far, and x, if it has come back, was cancelled. */
  ghost predicate OnlyCancelled(s: State, x: Id) {
    && !s.runFailed
    && (forall id :: id in s.spans ==> !s.spans[id].status.Failed?)
    && (x in s.spans ==> s.spans[x].status.Skipped?)
  }

  /** The outcome that keeps a run going: x is cancelled, every other task succeeds. */
  function CancelOnly(x: Id, id: Id): Span {
    SkippedSpan(id).(status := if id == x then Skipped else Succeeded, attempts := 1)
  }

  lemma CancelStep(c: Config, s: State, x: Id) returns (a: Action)
    requires Inv(c, s) && !s.phase.Finished? && OnlyCancelled(s, x) && x !in c.failFast
    ensures Enabled(c, s, a) && OnlyCancelled(Apply(c, s, a), x)
  {
    hide DependsOn, Released, NewlyReady, Contribution;
    hide ResultsMatch, CountsExact, StartedIffZero, SkipClosed, SkippedBlocked, SnapshotsOk;
    if id :| id in s.inFlight {
      a := Receive(CancelOnly(x, id));
    } else if id :| id in s.ready {
      a := Dispatch(id);
    } else {
      assert s.inFlight == map[];
      a := Complete;
    }
  }

  /** From any state in which nothing has failed the run can end with only x cancelled. */
  lemma {:induction false} CancelToEnd(c: Config, acts: seq<Action>, s: State, x: Id) returns (more: seq<Action>, end: State)
    requires Sound(c) && Inv(c, s) && Reaches(c, acts, s) && OnlyCancelled(s, x) && x !in c.failFast
    ensures Reaches(c, more, end) && Inv(c, end) && OnlyCancelled(end, x) && end.phase.Finished?
    decreases WorkLeft(c, s)
  {
    hide Inv, Enabled, Apply, OnlyCancelled, Reaches;
    if s.phase.Finished? {
      more, end := acts, s;
    } else {
      var a := CancelStep(c, s, x);
      StepInv(c, s, a);
      StepShrinks(c, s, a);
      ReachesStep(c, acts, s, a);
      WorkStaysNatural(c, Apply(c, s, a));
      more, end := CancelToEnd(c, acts + [a], Apply(c, s, a), x);
    }
  }

  lemma WorkStaysNatural(c: Config, s: State)
    requires Inv(c, s)
    ensures WorkLeft(c, s) >= 0
  {
    Sizes(c, s);
  }

  /** For any dependency graph and error policies with a task under `continue`, a run in which that
      task's span says cancelled and every other received span says succeeded ends in a report
      that says succeeded.  Spans are arbitrary here; which workflows have such runs is a matter
      of their templates and executors. */
  lemma CancelledRunReportsSuccess(c: Config, x: Id) returns (acts: seq<Action>, s: State)
    requires Sound(c) && x in c.g && x !in c.failFast
    ensures Reaches(c, acts, s) && s.phase.Finished?
    ensures Status(s).Succeeded? && x in s.spans && s.spans[x].status.Skipped?
  {
    InitInv(c);
    ReachesInit(c);
    acts, s := CancelToEnd(c, [], Init(c), x);
  }

  /** Exactly when dependency graph and error policies alone make the reported status trustworthy,
      whatever spans come back: when every task is under `fail_fast`. */
  lemma TruthfulExactly(c: Config)
    requires Sound(c)
    ensures AlwaysTruthful(c) <==> c.g.Keys <= c.failFast
  {
    hide Reaches, Status;
    if c.g.Keys <= c.failFast {
      forall acts, s | Reaches(c, acts, s) && s.phase.Finished? ensures Truthful(c, s) {
        TruthfulIfAllFatal(c, acts, s);
      }
    } else {
      var x :| x in c.g && x !in c.failFast;
      var acts, s := CancelledRunReportsSuccess(c, x);
      assert !Truthful(c, s);
    }
  }

  /** The shortest such run: one task, dispatched, a span that says cancelled, and a report that
      says succeeded. */
  lemma LoneCancelledTask() returns (c: Config, acts: seq<Action>, s: State)
    ensures c == Config(map["a" := []], {}) && Sound(c) && Reaches(c, acts, s) && s.phase.Finished?
    ensures Status(s).Succeeded? && !AllSucceeded(c, s)
  {
    c := Config(map["a" := []], {});
    var r: map<Id, nat> := map["a" := 0];
    assert IsRank(c.g, r);
    RankMeansAcyclic(c.g, r);
    acts, s := CancelledRunReportsSuccess(c, "a");
  }

  // ---------- totals ----------

  /** What a span in the report stands for in the totals: marks count for nothing. */
  function Tally(spans: map<Id, Span>, id: Id): Totals {
    if id in spans && spans[id].attempts >= 1 then Contribution(spans[id]) else NO_TOTALS
  }

  function SumOver(order: seq<Id>, spans: map<Id, Span>): Totals {
    if order == [] then NO_TOTALS else Plus(Tally(spans, order[0]), SumOver(order[1..], spans))
  }

  ghost predicate Distinct(order: seq<Id>) {
    forall i, j :: 0 <= i < j < |order| ==> order[i] != order[j]
  }

  lemma {:induction false} SumSame(order: seq<Id>, a: map<Id, Span>, b: map<Id, Span>)
    requires forall id :: id in order ==> Tally(a, id) == Tally(b, id)
    ensures SumOver(order, a) == SumOver(order, b)
    decreases |order|
  {
    if order != [] { SumSame(order[1..], a, b); }
  }

  lemma {:induction false} SumUpdate(order: seq<Id>, spans: map<Id, Span>, span: Span)
    requires Distinct(order) && span.id in order && span.id !in spans && span.attempts >= 1
    ensures SumOver(order, spans[span.id := span]) == Plus(SumOver(order, spans), Contribution(span))
    decreases |order|
  {
    hide Contribution, Distinct, Tally;
    var after, rest := spans[span.id := span], order[1..];
    DistinctTail(order);
    forall id ensures Tally(after, id) == if id == span.id then Contribution(span) else Tally(spans, id) {
      TallyAfter(spans, span, id);
    }
    assert Tally(spans, span.id) == NO_TOTALS by { TallyAfter(spans, span, span.id); }
    if order[0] == span.id {
      SumSame(rest, spans, after);
    } else {
      SumUpdate(rest, spans, span);
    }
  }

  lemma TallyAfter(spans: map<Id, Span>, span: Span, id: Id)
    requires span.id !in spans && span.attempts >= 1
    ensures Tally(spans[span.id := span], id) == if id == span.id then Contribution(span) else Tally(spans, id)
    ensures id == span.id ==> Tally(spans, id) == NO_TOTALS
  {
  }

  lemma DistinctTail(order: seq<Id>)
    requires Distinct(order) && order != []
    ensures Distinct(order[1..]) && order[0] !in order[1..]
    ensures forall x :: x in order <==> x == order[0] || x in order[1..]
  {
    assert forall i :: 0 <= i < |order[1..]| ==> order[1..][i] == order[i + 1];
  }

  /** What the spans taken from the channel during a drain would have added to the totals. */
  function Drained(acts: seq<Action>): Totals {
    if acts == [] then NO_TOTALS
    else
      var n := |acts| - 1;
      if acts[n].Drain? then Plus(Drained(acts[..n]), Contribution(acts[n].span)) else Drained(acts[..n])
  }

  /** Executed tasks report at least one attempt. */
  ghost predicate Attempted(acts: seq<Action>) {
    forall i :: 0 <= i < |acts| && (acts[i].Receive? || acts[i].Drain?) ==> acts[i].span.attempts >= 1
  }

  /** Marks stand for nothing: only a span taken from the channel changes a tally. */
  lemma StepTallies(c: Config, s: State, a: Action, k: Id)
    requires Enabled(c, s, a)
    ensures var spans := if a.Receive? || a.Drain? then s.spans[a.span.id := a.span] else s.spans;
            Tally(Apply(c, s, a).spans, k) == Tally(spans, k)
  {
    hide DependsOn, Released, NewlyReady, Contribution;
  }

  lemma StepMoney(c: Config, s: State, a: Action)
    requires Enabled(c, s, a)
    ensures Apply(c, s, a).totals == if a.Receive? then Plus(s.totals, Contribution(a.span)) else s.totals
  {
    hide WithDescendantsSkipped, Released, NewlyReady, Contribution;
  }

  lemma StepTotals(c: Config, order: seq<Id>, s: State, a: Action, drained: Totals)
    requires Sound(c) && Inv(c, s) && Enabled(c, s, a)
    requires Distinct(order) && (forall id :: id in order <==> id in c.g)
    requires a.Receive? || a.Drain? ==> a.span.attempts >= 1
    requires Plus(s.totals, drained) == SumOver(order, s.spans)
    ensures var t := Apply(c, s, a);
            Plus(t.totals, if a.Drain? then Plus(drained, Contribution(a.span)) else drained) == SumOver(order, t.spans)
  {
    hide *;
    StepMoney(c, s, a);
    if a.Receive? || a.Drain? {
      TakenInFlight(c, s, a);
      StepSum(c, order, s, a);
      PlusMoves(s.totals, drained, Contribution(a.span));
    } else {
      StepSum(c, order, s, a);
    }
  }

  lemma PlusMoves(a: Totals, b: Totals, x: Totals)
    ensures Plus(Plus(a, x), b) == Plus(Plus(a, b), x) == Plus(a, Plus(b, x))
  {
  }

  lemma StepSum(c: Config, order: seq<Id>, s: State, a: Action)
    requires Distinct(order) && Enabled(c, s, a)
    requires a.Receive? || a.Drain? ==> a.span.id in order && a.span.id !in s.spans && a.span.attempts >= 1
    ensures SumOver(order, Apply(c, s, a).spans) ==
            if a.Receive? || a.Drain? then Plus(SumOver(order, s.spans), Contribution(a.span)) else SumOver(order, s.spans)
  {
    hide *;
    var spans := if a.Receive? || a.Drain? then s.spans[a.span.id := a.span] else s.spans;
    forall k ensures Tally(Apply(c, s, a).spans, k) == Tally(spans, k) {
      StepTallies(c, s, a, k);
    }
    SumSame(order, Apply(c, s, a).spans, spans);
    if a.Receive? || a.Drain? { SumUpdate(order, s.spans, a.span); }
  }

  lemma TakenInFlight(c: Config, s: State, a: Action)
    requires Inv(c, s) && Enabled(c, s, a) && (a.Receive? || a.Drain?)
    ensures a.span.id in c.g && a.span.id !in s.spans
  {
    hide ResultsMatch, CountsExact, StartedIffZero, SkipClosed, SkippedBlocked, SnapshotsOk, Ending;
  }

  /** In every reachable state the totals, plus what the spans of a drain leave out of them, are
      the sums over all executed tasks: retries, tokens in and tokens out. */
  lemma {:induction false} TotalsAreSums(c: Config, order: seq<Id>, tr: seq<State>, acts: seq<Action>, i: nat)
    requires Sound(c) && Run(c, tr, acts) && Attempted(acts) && i < |tr|
    requires Distinct(order) && (forall id :: id in order <==> id in c.g)
    ensures Plus(tr[i].totals, Drained(acts[..i])) == SumOver(order, tr[i].spans)
    decreases i
  {
    hide Inv, Apply, Enabled, SumOver, Contribution, Sound, Distinct, Plus, Init;
    if i == 0 {
      StartTotals(c, order);
    } else {
      TotalsAreSums(c, order, tr, acts, i - 1);
      RunInv(c, tr, acts, i - 1);
      assert StepAt(c, tr, acts, i - 1);
      StepTotals(c, order, tr[i - 1], acts[i - 1], Drained(acts[..i - 1]));
      assert acts[..i][..i - 1] == acts[..i - 1];
    }
  }

  lemma StartTotals(c: Config, order: seq<Id>)
    ensures Plus(Init(c).totals, Drained([])) == SumOver(order, Init(c).spans)
  {
    EmptySum(order);
    hide SumOver;
  }

  /** Nothing is drained before a fatal failure, so until then the totals are the sums. */
  lemma {:induction false} NothingDrained(c: Config, tr: seq<State>, acts: seq<Action>, i: nat)
    requires Sound(c) && Run(c, tr, acts) && i < |tr|
    ensures !tr[i].runFailed ==> Drained(acts[..i]) == NO_TOTALS
    decreases i
  {
    hide Inv, Apply, Enabled, Contribution, Sound;
    if i > 0 {
      NothingDrained(c, tr, acts, i - 1);
      RunInv(c, tr, acts, i - 1);
      assert StepAt(c, tr, acts, i - 1);
      assert acts[..i][..i - 1] == acts[..i - 1];
      DrainOnlyFailed(c, tr[i - 1], acts[i - 1]);
    }
  }

  /** Spans are drained only after a fatal failure, and a run that has failed stays failed. */
  lemma DrainOnlyFailed(c: Config, s: State, a: Action)
    requires Inv(c, s) && Enabled(c, s, a)
    ensures s.runFailed || a.Drain? ==> Apply(c, s, a).runFailed
  {
    hide WithDescendantsSkipped, Released, NewlyReady, Contribution;
    hide Partition, ResultsMatch, CountsExact, StartedIffZero, SkipClosed, SkippedBlocked, SnapshotsOk;
  }

  lemma {:induction false} EmptySum(order: seq<Id>)
    ensures SumOver(order, map[]) == NO_TOTALS
    decreases |order|
  {
    if order != [] { EmptySum(order[1..]); }
  }

  // ---------- errors ----------

  /** The error of a task that failed, if it did. */
  function FailureText(spans: map<Id, Span>, id: Id): multiset<string> {
    if id in spans && spans[id].status.Failed? then multiset{spans[id].error} else multiset{}
  }

  function FailureTexts(order: seq<Id>, spans: map<Id, Span>): multiset<string> {
    if order == [] then multiset{} else FailureText(spans, order[0]) + FailureTexts(order[1..], spans)
  }

  lemma {:induction false} TextsSame(order: seq<Id>, a: map<Id, Span>, b: map<Id, Span>)
    requires forall id :: id in order ==> FailureText(a, id) == FailureText(b, id)
    ensures FailureTexts(order, a) == FailureTexts(order, b)
    decreases |order|
  {
    if order != [] { TextsSame(order[1..], a, b); }
  }

  lemma {:induction false} TextsUpdate(order: seq<Id>, a: map<Id, Span>, b: map<Id, Span>, id: Id, text: multiset<string>)
    requires Distinct(order) && id in order && FailureText(a, id) == multiset{} && FailureText(b, id) == text
    requires forall k :: k != id ==> FailureText(b, k) == FailureText(a, k)
    ensures FailureTexts(order, b) == FailureTexts(order, a) + text
    decreases |order|
  {
    hide Distinct, FailureText;
    DistinctTail(order);
    if order[0] == id {
      TextsSame(order[1..], a, b);
    } else {
      TextsUpdate(order[1..], a, b, id, text);
    }
  }

  /** A step that the run survives adds the error of a failed task, and of no other. */
  lemma StepTexts(c: Config, s: State, a: Action, k: Id)
    requires Inv(c, s) && Enabled(c, s, a) && !Apply(c, s, a).runFailed && (a.Receive? ==> !a.span.status.Skipped?)
    ensures var t := Apply(c, s, a);
            var failed := a.Receive? && a.span.status.Failed?;
            && t.errors == s.errors + (if failed then [a.span.error] else [])
            && FailureText(t.spans, k) ==
               (if failed && k == a.span.id then multiset{a.span.error} else FailureText(s.spans, k))
            && (failed ==> a.span.id in c.g && FailureText(s.spans, a.span.id) == multiset{})
  {
    hide DependsOn, Released, NewlyReady, Contribution;
    hide ResultsMatch, CountsExact, StartedIffZero, SkipClosed, SkippedBlocked, SnapshotsOk;
  }

  lemma StepErrors(c: Config, order: seq<Id>, s: State, a: Action)
    requires Inv(c, s) && Enabled(c, s, a) && !Apply(c, s, a).runFailed && (a.Receive? ==> !a.span.status.Skipped?)
    requires Distinct(order) && (forall id :: id in order <==> id in c.g)
    requires multiset(s.errors) == FailureTexts(order, s.spans)
    ensures multiset(Apply(c, s, a).errors) == FailureTexts(order, Apply(c, s, a).spans)
  {
    hide *;
    var t := Apply(c, s, a);
    forall k
      ensures FailureText(t.spans, k) ==
              if a.Receive? && a.span.status.Failed? && k == a.span.id then multiset{a.span.error} else FailureText(s.spans, k)
    {
      StepTexts(c, s, a, k);
    }
    if a.Receive? && a.span.status.Failed? {
      StepTexts(c, s, a, a.span.id);
      TextsUpdate(order, s.spans, t.spans, a.span.id, multiset{a.span.error});
      assert multiset(s.errors + [a.span.error]) == multiset(s.errors) + multiset{a.span.error};
    } else {
      StepTexts(c, s, a, "");
      TextsSame(order, t.spans, s.spans);
      assert s.errors + [] == s.errors;
    }
  }

  /** Without cancellation and before a fatal failure, the recorded errors are those of the failed
      tasks, each as often as it occurs. */
  lemma {:induction false} ErrorsAreFailures(c: Config, order: seq<Id>, tr: seq<State>, acts: seq<Action>, i: nat)
    requires Sound(c) && Run(c, tr, acts) && Uncancelled(acts) && i < |tr|
    requires Distinct(order) && (forall id :: id in order <==> id in c.g)
    ensures !tr[i].runFailed ==> multiset(tr[i].errors) == FailureTexts(order, tr[i].spans)
    decreases i
  {
    hide Inv, Apply, Enabled, FailureTexts, Sound, Distinct, Init;
    if i == 0 {
      StartErrors(c, order);
    } else {
      ErrorsAreFailures(c, order, tr, acts, i - 1);
      RunInv(c, tr, acts, i - 1);
      assert StepAt(c, tr, acts, i - 1);
      DrainOnlyFailed(c, tr[i - 1], acts[i - 1]);
      if !tr[i].runFailed { StepErrors(c, order, tr[i - 1], acts[i - 1]); }
    }
  }

  lemma {:induction false} NoTexts(order: seq<Id>)
    ensures FailureTexts(order, map[]) == multiset{}
    decreases |order|
  {
    if order != [] { NoTexts(order[1..]); }
  }

  lemma StartErrors(c: Config, order: seq<Id>)
    ensures multiset(Init(c).errors) == FailureTexts(order, Init(c).spans)
  {
    NoTexts(order);
    hide FailureTexts;
  }
}
