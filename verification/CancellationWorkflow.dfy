/** One given workflow, with its templates, retries and executor: exactly when some run that is
    cancelled from outside reports success although not every task succeeded. */
module CancellationWorkflow {
  import opened Values
  import opened Graphs
  import opened Workflows
  import opened Spans
  import Scheduling
  import SI = SchedulerInvariant
  import SP = SchedulerProperties
  import MainLoop
  import TaskExecution
  import Templates
  import TemplateLocality
  import opened Confluence
  import opened Engine
  import opened EngineInvariant
  import opened EngineRuns
  import opened EngineProgress
  import opened EngineConfluence
  import opened EngineCancellation
  import opened CancellationExact

  // ---------- what cancellation cannot change ----------

  /** A goroutine is on its way to the span its snapshot determines, or it has been cancelled. */
  ghost predicate Tracked(w: World, id: Id, k: Worker)
    requires id in G(w)
  {
    OnTrack(w, id, k) || ((k.pc.Sending? || k.pc.Sent?) && k.span.status.Skipped?)
  }

  /** A goroutine that has got past its inputs could start, unless it has failed. */
  ghost predicate Launched(w: World, id: Id, k: Worker)
    requires id in G(w)
  {
    match k.pc
    case Start => true
    case Sending => k.span.status.Failed? || Starts(w, id, k.seen)
    case Sent => k.span.status.Failed? || Starts(w, id, k.seen)
    case _ => Starts(w, id, k.seen)
  }

  lemma MoveTracked(w: World, id: Id, k: Worker, m: Move)
    requires id in G(w) && CanMove(w, id, k, m) && Tracked(w, id, k)
    ensures Tracked(w, id, Moved(w, id, k, m))
  {
    if OnTrack(w, id, k) && !Quits(m) {
      MoveOnTrack(w, id, k, m);
    } else {
      hide OnTrack, DependencyGraph, Templates.Resolve, MaxRetries, UsesProvider;
    }
  }

  lemma MoveLaunched(w: World, id: Id, k: Worker, m: Move)
    requires id in G(w) && CanMove(w, id, k, m) && Launched(w, id, k)
    ensures Launched(w, id, Moved(w, id, k, m))
  {
    hide DependencyGraph, Templates.Resolve, TaskExecution.ScopeOf, UsesProvider, TaskExecution.AfterCall, TaskOf;
  }

  ghost predicate WorkerFacts(w: World, id: Id, k: Worker) {
    id in G(w) && Tracked(w, id, k) && Launched(w, id, k)
  }

  ghost predicate WorkersFacts(w: World, s: Sys) {
    forall id :: id in s.workers ==> WorkerFacts(w, id, s.workers[id])
  }

  /** A task that came back unfailed could start on what the reference shows it, and before a fatal
      failure the unsuccessful tasks under `fail_fast` are ones that never ran. */
  ghost predicate SpanFacts(w: World, s: Sys, e: map<Id, Span>, id: Id) {
    id in s.main.spans && !s.main.runFailed && !SI.Blocked(C(w), s.main, id) ==>
      && (id in MainLoop.FatalIds(w.wf) ==> s.main.spans[id].status.Succeeded?)
      && (!s.main.spans[id].status.Failed? ==> id in G(w) && Starts(w, id, Outputs(e)))
  }

  ghost predicate MainFacts(w: World, s: Sys, e: map<Id, Span>) {
    SuccessesAgree(s.main, e) && forall id :: SpanFacts(w, s, e, id)
  }

  ghost predicate Facts(w: World, s: Sys, e: map<Id, Span>) {
    WorkersFacts(w, s) && MainFacts(w, s, e)
  }

  /** Whether a task can start depends only on the outputs of its transitive dependencies. */
  lemma StartsLocal(w: World, id: Id, a: map<Id, Value>, b: map<Id, Value>)
    requires SoundWorld(w) && id in G(w) && SameFor(w, id, a, b) && "input" !in a && "input" !in b
    ensures Starts(w, id, a) <==> Starts(w, id, b)
  {
    var v := Obj(TaskMap(w.wf.tasks)[id].inputs);
    hide TemplateLocality.MentionsOnly, TemplateLocality.AgreeOn, TaskExecution.ScopeOf, Ancestors, Templates.Resolve;
    ScopesAgree(w, id, a, b);
    TemplateLocality.ResolveLocal(v, TaskExecution.ScopeOf(w.inputs, a), TaskExecution.ScopeOf(w.inputs, b),
                                  {"input"} + Ancestors(G(w), id), w.json);
  }

  // ---------- steps ----------

  lemma WorkFacts(w: World, s: Sys, x: Id, m: Move, e: map<Id, Span>)
    requires Facts(w, s, e) && Enabled(w, s, Work(x, m))
    ensures Facts(w, Apply(w, s, Work(x, m)), e)
  {
    hide *;
    WorkEnabled(w, s, x, m);
    WorkApply(w, s, x, m);
    WorkMoves(w, s, x, m);
    FactsAt(w, s, e, x);
    MoveTracked(w, x, s.workers[x], m);
    MoveLaunched(w, x, s.workers[x], m);
    MovedFacts(w, s, WorkStep(w, s, x, m), x, e);
  }

  lemma FactsAt(w: World, s: Sys, e: map<Id, Span>, id: Id)
    requires Facts(w, s, e) && id in s.workers
    ensures id in G(w) && Tracked(w, id, s.workers[id]) && Launched(w, id, s.workers[id])
  {
    assert WorkerFacts(w, id, s.workers[id]);
    hide Tracked, Launched, MainFacts, G;
  }

  lemma MovedFacts(w: World, s: Sys, t: Sys, x: Id, e: map<Id, Span>)
    requires Facts(w, s, e) && t.main == s.main && x in t.workers && t.workers == s.workers[x := t.workers[x]]
    requires x in G(w) && Tracked(w, x, t.workers[x]) && Launched(w, x, t.workers[x])
    ensures Facts(w, t, e)
  {
    hide Tracked, Launched, G, C, Starts, SI.Blocked;
    forall id ensures SpanFacts(w, t, e, id) { assert SpanFacts(w, s, e, id); }
  }

  lemma QuietFacts(w: World, s: Sys, t: Sys, e: map<Id, Span>)
    requires Facts(w, s, e) && t.main == s.main && t.workers == s.workers
    ensures Facts(w, t, e)
  {
    hide WorkerFacts, C, Starts, SI.Blocked;
    forall id ensures SpanFacts(w, t, e, id) { assert SpanFacts(w, s, e, id); }
  }

  /** A task that is marked in a run that goes on has an unsuccessful dependency. */
  lemma MarkBlocked(c: Scheduling.Config, m: Scheduling.State, b: Scheduling.Action, id: Id)
    requires SI.Sound(c) && SI.Inv(c, m) && Scheduling.Enabled(c, m, b) && !Scheduling.Apply(c, m, b).runFailed
    requires id in Scheduling.Apply(c, m, b).spans && id !in m.spans && !SP.TakesSpanOf(b, id)
    ensures SI.Blocked(c, Scheduling.Apply(c, m, b), id)
  {
    MarkedByFailure(c, m, b, id);
    SI.StepInv(c, m, b);
    SP.MarksOnlyWaiting(c, m, b.span, id);
    WaitingCounts(c, m, id, Scheduling.Apply(c, m, b));
    hide *;
  }

  lemma MarkedByFailure(c: Scheduling.Config, m: Scheduling.State, b: Scheduling.Action, id: Id)
    requires SI.Inv(c, m) && Scheduling.Enabled(c, m, b) && !Scheduling.Apply(c, m, b).runFailed
    requires id in Scheduling.Apply(c, m, b).spans && id !in m.spans && !SP.TakesSpanOf(b, id)
    ensures b.Receive? && !b.span.status.Succeeded? && m.phase.Running? && b.span.id in m.inFlight && id != b.span.id
    ensures Scheduling.Apply(c, m, b) == Scheduling.AfterFailure(c, m, b.span)
    ensures Scheduling.Apply(c, m, b).indeg == m.indeg
  {
    hide DependsOn, Scheduling.Released, Scheduling.NewlyReady, Contribution;
    hide SI.ResultsMatch, SI.CountsExact, SI.StartedIffZero, SI.SkipClosed, SI.SkippedBlocked, SI.SnapshotsOk;
  }

  lemma WaitingCounts(c: Scheduling.Config, m: Scheduling.State, id: Id, t: Scheduling.State)
    requires SI.Inv(c, m) && SI.Inv(c, t) && t.indeg == m.indeg && !t.runFailed
    requires id in t.spans && id !in m.spans && id !in m.ready && id !in m.inFlight
    ensures SI.Blocked(c, t, id)
  {
    hide SI.ResultsMatch, SI.CountsExact, SI.SkipClosed, SI.SnapshotsOk, SI.Ending, SI.Blocked;
  }

  lemma BlockedStays(c: Scheduling.Config, m: Scheduling.State, t: Scheduling.State, id: Id)
    requires SI.Blocked(c, m, id) && forall d :: d in m.spans ==> d in t.spans && t.spans[d] == m.spans[d]
    ensures SI.Blocked(c, t, id)
  {
    var d :| Edge(c.g, id, d) && d in m.spans && !m.spans[d].status.Succeeded?;
    assert d in t.spans && t.spans[d] == m.spans[d];
  }

  /** An unsuccessful span of a task under `fail_fast` ends the run. */
  lemma FatalEnds(c: Scheduling.Config, m: Scheduling.State, b: Scheduling.Action)
    requires SI.Inv(c, m) && Scheduling.Enabled(c, m, b) && (b.Receive? || b.Drain?)
    requires b.span.id in c.failFast && !b.span.status.Succeeded?
    ensures Scheduling.Apply(c, m, b).runFailed
  {
    hide SI.Partition, SI.ResultsMatch, SI.CountsExact, SI.StartedIffZero, SI.SkipClosed, SI.SkippedBlocked, SI.SnapshotsOk;
    hide Contribution;
  }

  /** What the span at the head of the channel says of its task. */
  lemma HeadFacts(w: World, s: Sys, e: map<Id, Span>)
    requires SoundWorld(w) && Reference(w, e) && "input" !in e && EInv(w, s) && Facts(w, s, e) && s.done != []
    ensures var span := s.done[0];
            && span.id in G(w)
            && (span.status.Succeeded? ==> span.id in e && Core(span) == e[span.id])
            && (!span.status.Failed? ==> Starts(w, span.id, Outputs(e)))
  {
    hide *;
    HeadMatches(w, s);
    var id := s.done[0].id;
    OwnSpan(w, s, id);
    FactsAt(w, s, e, id);
    SeesIt(w, s, e, id);
    ExplainedBy(w, e, id, s.workers[id].seen);
    StartsLocal(w, id, s.workers[id].seen, Outputs(e));
    SentFacts(w, id, s.workers[id]);
  }

  lemma SentFacts(w: World, id: Id, k: Worker)
    requires id in G(w) && k.pc.Sent? && Tracked(w, id, k) && Launched(w, id, k)
    ensures k.span.status.Succeeded? ==> Core(k.span) == SpanIn(w, id, k.seen)
    ensures !k.span.status.Failed? ==> Starts(w, id, k.seen)
  {
    hide Starts, SpanIn, G;
  }

  lemma ExplainedBy(w: World, e: map<Id, Span>, id: Id, seen: map<Id, Value>)
    requires Reference(w, e) && id in G(w) && DepsSucceeded(G(w), e, id) && SameFor(w, id, seen, Outputs(e)) && "input" !in seen
    ensures id in e && e[id] == SpanIn(w, id, seen)
  {
    assert Explained(w, e, id);
    hide SpanIn, G, DepsSucceeded, SameFor;
  }

  lemma SeesIt(w: World, s: Sys, e: map<Id, Span>, id: Id)
    requires SoundWorld(w) && EInv(w, s) && Facts(w, s, e) && "input" !in e && id in s.main.inFlight && id in G(w)
    ensures DepsSucceeded(G(w), e, id) && SameFor(w, id, s.main.inFlight[id], Outputs(e))
    ensures "input" !in s.main.inFlight[id] && "input" !in Outputs(e)
  {
    MainSees(w, s, e);
    hide *;
    KnownGraph(w);
    SeesReference(w, C(w), s.main, e, id);
    OutputsKeys(e);
  }

  lemma OutputsKeys(e: map<Id, Span>)
    ensures forall id :: id in Outputs(e) ==> id in e
  {
  }

  lemma MainSees(w: World, s: Sys, e: map<Id, Span>)
    requires EInv(w, s) && Facts(w, s, e)
    ensures SI.Inv(C(w), s.main) && SuccessesAgree(s.main, e)
  {
    hide SI.Inv, WorkersFacts, SpanFacts, C;
  }

  /** The main loop keeps the facts about one task. */
  lemma MainSpanFacts(w: World, s: Sys, a: Action, e: map<Id, Span>, id: Id)
    requires SoundWorld(w) && Sensible(w) && Reference(w, e) && "input" !in e
    requires EInv(w, s) && Facts(w, s, e) && Enabled(w, s, a) && (a.Dispatch? || a.Receive? || a.EndDrain? || a.Complete?)
    ensures SpanFacts(w, Apply(w, s, a), e, id)
    ensures var t := Apply(w, s, a);
            id in t.main.spans && t.main.spans[id].status.Succeeded? ==> id in e && Core(t.main.spans[id]) == e[id]
  {
    var t := Apply(w, s, a);
    hide *;
    MainStepSpans(w, s, a, id);
    AllSpansKept(w, s, a);
    FailedStays(w, s, a);
    if a.Receive? && s.done != [] && s.done[0].id == id {
      HeadFacts(w, s, e);
      TakenFacts(w, s, a, e);
    } else if id in s.main.spans {
      OldFacts(w, s, t, e, id);
    } else if id in t.main.spans {
      MarkFacts(w, s, a, e, id);
    } else {
      NoFacts(w, t, e, id);
    }
  }

  lemma NoFacts(w: World, t: Sys, e: map<Id, Span>, id: Id)
    requires id !in t.main.spans
    ensures SpanFacts(w, t, e, id)
  {
  }

  lemma AllSpansKept(w: World, s: Sys, a: Action)
    requires EInv(w, s) && Enabled(w, s, a) && (a.Dispatch? || a.Receive? || a.EndDrain? || a.Complete?)
    ensures forall d :: d in s.main.spans ==> d in Apply(w, s, a).main.spans && Apply(w, s, a).main.spans[d] == s.main.spans[d]
  {
    hide *;
    forall d | d in s.main.spans
      ensures d in Apply(w, s, a).main.spans && Apply(w, s, a).main.spans[d] == s.main.spans[d]
    {
      MainStepSpans(w, s, a, d);
    }
  }

  lemma FailedStays(w: World, s: Sys, a: Action)
    requires EInv(w, s) && Enabled(w, s, a) && (a.Dispatch? || a.Receive? || a.EndDrain? || a.Complete?)
    ensures s.main.runFailed ==> Apply(w, s, a).main.runFailed
  {
    StepRefines(w, s, a);
    InvOf(w, s);
    hide EInv, Apply, Enabled, SI.Inv, C, Scheduling.Apply, Scheduling.Enabled;
    SP.DrainOnlyFailed(C(w), s.main, MainAction(s, a).value);
  }

  lemma InvOf(w: World, s: Sys)
    requires EInv(w, s)
    ensures SI.Inv(C(w), s.main)
  {
    hide SI.Inv, C;
  }

  lemma OldFacts(w: World, s: Sys, t: Sys, e: map<Id, Span>, id: Id)
    requires Facts(w, s, e) && id in s.main.spans && (s.main.runFailed ==> t.main.runFailed)
    requires forall d :: d in s.main.spans ==> d in t.main.spans && t.main.spans[d] == s.main.spans[d]
    ensures SpanFacts(w, t, e, id)
    ensures t.main.spans[id].status.Succeeded? ==> id in e && Core(t.main.spans[id]) == e[id]
  {
    assert SpanFacts(w, s, e, id);
    hide SI.Blocked, Starts, C, WorkersFacts;
    if SI.Blocked(C(w), s.main, id) { BlockedStays(C(w), s.main, t.main, id); }
  }

  lemma TakenFacts(w: World, s: Sys, a: Action, e: map<Id, Span>)
    requires EInv(w, s) && Enabled(w, s, a) && a.Receive? && s.done != []
    requires s.done[0].id in Apply(w, s, a).main.spans && Apply(w, s, a).main.spans[s.done[0].id] == s.done[0]
    requires s.done[0].id in G(w) && (!s.done[0].status.Failed? ==> Starts(w, s.done[0].id, Outputs(e)))
    ensures SpanFacts(w, Apply(w, s, a), e, s.done[0].id)
  {
    StepRefines(w, s, a);
    InvOf(w, s);
    KnownConfig(w);
    hide EInv, Apply, Enabled, SI.Inv, C, Scheduling.Apply, Scheduling.Enabled, Starts, SI.Blocked, G, MainLoop.FatalIds;
    var span := s.done[0];
    if span.id in MainLoop.FatalIds(w.wf) && !span.status.Succeeded? {
      FatalEnds(C(w), s.main, Taking(s));
    }
  }

  lemma MarkFacts(w: World, s: Sys, a: Action, e: map<Id, Span>, id: Id)
    requires Sensible(w) && EInv(w, s) && Enabled(w, s, a) && (a.Dispatch? || a.Receive? || a.EndDrain? || a.Complete?)
    requires id !in s.main.spans && id in Apply(w, s, a).main.spans && Apply(w, s, a).main.spans[id] == SkippedSpan(id)
    requires !(a.Receive? && s.done != [] && s.done[0].id == id)
    ensures SpanFacts(w, Apply(w, s, a), e, id)
    ensures !Apply(w, s, a).main.spans[id].status.Succeeded?
  {
    StepRefines(w, s, a);
    InvOf(w, s);
    SoundConfig(w);
    if a.Receive? { ReceiveNeedsSpan(w, s); }
    hide EInv, Apply, Enabled, SI.Inv, SI.Sound, C, Sensible, Scheduling.Apply, Scheduling.Enabled, Starts, SI.Blocked;
    if !Apply(w, s, a).main.runFailed {
      MarkBlocked(C(w), s.main, MainAction(s, a).value, id);
    }
  }

  lemma MainWorkersFacts(w: World, s: Sys, a: Action, e: map<Id, Span>)
    requires EInv(w, s) && Facts(w, s, e) && Enabled(w, s, a) && (a.Dispatch? || a.Receive? || a.EndDrain? || a.Complete?)
    ensures WorkersFacts(w, Apply(w, s, a))
  {
    MainWorkers(w, s, a);
    if a.Dispatch? {
      DispatchKnown(w, s, a.id);
      NewFacts(w, a.id, s.main.results);
    }
    hide EInv, Apply, Enabled, WorkerFacts, MainFacts, G;
  }

  lemma NewFacts(w: World, id: Id, seen: map<Id, Value>)
    requires id in G(w)
    ensures WorkerFacts(w, id, NewWorker(id, seen))
  {
    hide G;
  }

  lemma StepFacts(w: World, s: Sys, a: Action, e: map<Id, Span>)
    requires SoundWorld(w) && Sensible(w) && Reference(w, e) && "input" !in e
    requires EInv(w, s) && Facts(w, s, e) && Enabled(w, s, a)
    ensures Facts(w, Apply(w, s, a), e)
  {
    match a {
      case Work(x, m) => hide *; WorkFacts(w, s, x, m, e);
      case Cancel => CancelIs(w, s); hide *; QuietFacts(w, s, Apply(w, s, a), e);
      case Tick(dt) => TickIs(w, s, dt); hide *; QuietFacts(w, s, Apply(w, s, a), e);
      case _ => hide *; MainStepFacts(w, s, a, e);
    }
  }

  lemma CancelIs(w: World, s: Sys)
    requires Enabled(w, s, Cancel)
    ensures Apply(w, s, Cancel).main == s.main && Apply(w, s, Cancel).workers == s.workers
  {
  }

  lemma TickIs(w: World, s: Sys, dt: real)
    requires Enabled(w, s, Tick(dt))
    ensures Apply(w, s, Tick(dt)).main == s.main && Apply(w, s, Tick(dt)).workers == s.workers
  {
  }

  lemma MainStepFacts(w: World, s: Sys, a: Action, e: map<Id, Span>)
    requires SoundWorld(w) && Sensible(w) && Reference(w, e) && "input" !in e
    requires EInv(w, s) && Facts(w, s, e) && Enabled(w, s, a) && (a.Dispatch? || a.Receive? || a.EndDrain? || a.Complete?)
    ensures Facts(w, Apply(w, s, a), e)
  {
    hide SoundWorld, Sensible, Reference, EInv, Facts, Enabled, Apply, SpanFacts, WorkersFacts;
    var t := Apply(w, s, a);
    MainWorkersFacts(w, s, a, e);
    forall id
      ensures SpanFacts(w, t, e, id)
      ensures id in t.main.spans && t.main.spans[id].status.Succeeded? ==> id in e && Core(t.main.spans[id]) == e[id]
    {
      MainSpanFacts(w, s, a, e, id);
    }
    FactsAre(w, t, e);
  }

  lemma FactsAre(w: World, t: Sys, e: map<Id, Span>)
    requires WorkersFacts(w, t) && SuccessesAgree(t.main, e) && forall id :: SpanFacts(w, t, e, id)
    ensures Facts(w, t, e)
  {
    hide WorkersFacts, SpanFacts, SuccessesAgree;
  }

  lemma {:induction false} RunFacts(w: World, tr: seq<Sys>, acts: seq<Action>, e: map<Id, Span>, i: nat)
    requires SoundWorld(w) && Sensible(w) && Reference(w, e) && "input" !in e && Run(w, tr, acts) && i < |tr|
    ensures Facts(w, tr[i], e)
    decreases i
  {
    hide SoundWorld, Sensible, Reference, EInv, Facts, Enabled, Apply, Init;
    if i == 0 {
      StartFacts(w, e);
    } else {
      RunFacts(w, tr, acts, e, i - 1);
      RunEInv(w, tr, acts, i - 1);
      assert StepAt(w, tr, acts, i - 1);
      StepFacts(w, tr[i - 1], acts[i - 1], e);
    }
  }

  lemma StartFacts(w: World, e: map<Id, Span>)
    ensures Facts(w, Init(w), e)
  {
    hide C, G;
  }

  // ---------- the condition ----------

  /** Everything the task transitively depends on is under `fail_fast`. */
  ghost predicate Exposed(w: World, id: Id) {
    forall d :: DependsOn(G(w), id, d) ==> d in MainLoop.FatalIds(w.wf)
  }

  /** What a cancelled run has to get past: an exposed task under `fail_fast` must succeed, and any
      other exposed task must get as far as waiting for its first permit. */
  ghost predicate Passable(w: World, e: map<Id, Span>, id: Id)
    requires id in G(w)
  {
    if id in MainLoop.FatalIds(w.wf) then id in e && e[id].status.Succeeded? else Starts(w, id, Outputs(e))
  }

  /** Some task is under `continue`, and every exposed task is passable. */
  ghost predicate CanLie(w: World, e: map<Id, Span>) {
    && !(G(w).Keys <= MainLoop.FatalIds(w.wf))
    && forall id :: id in G(w) && Exposed(w, id) ==> Passable(w, e, id)
  }

  // ---------- the condition suffices ----------

  ghost function Continuing(w: World): set<Id> {
    G(w).Keys - MainLoop.FatalIds(w.wf)
  }

  /** What a plan that cuts off every task under `continue` dispatches is exposed. */
  lemma DispatchedExposed(w: World, s: Sys, id: Id)
    requires EInv(w, s) && PlannedSpans(Continuing(w), s.main.spans) && id in s.main.inFlight && id in G(w)
    ensures Exposed(w, id)
  {
    hide EInv, G, C, MainLoop.FatalIds, DependsOn;
    KnownConfig(w);
    InvOf(w, s);
    forall d | DependsOn(G(w), id, d) ensures d in MainLoop.FatalIds(w.wf) {
      SeenSucceeded(C(w), s.main, id, d);
    }
  }

  lemma SeenSucceeded(c: Scheduling.Config, m: Scheduling.State, id: Id, d: Id)
    requires SI.Inv(c, m) && id in m.inFlight && DependsOn(c.g, id, d)
    ensures d in c.g && d in m.spans && m.spans[d].status.Succeeded?
  {
    assert SI.SnapshotOk(c, m, id, m.inFlight[id]);
    SnapshotCovers(c, m, id, m.inFlight[id], d);
    hide SI.CountsExact, SI.StartedIffZero, SI.SkipClosed, SI.SkippedBlocked, SI.Ending, DependsOn;
  }

  lemma DispatchEffect(w: World, s: Sys, id: Id)
    requires Enabled(w, s, Dispatch(id))
    ensures var t := Apply(w, s, Dispatch(id));
            t.main.spans == s.main.spans && id in t.main.inFlight && t.main.inFlight[id] == s.main.results
  {
    hide C;
  }

  lemma PlannedSpansOf(w: World, cut: set<Id>, s: Sys)
    requires Planned(w, cut, s)
    ensures PlannedSpans(cut, s.main.spans)
  {
    hide OnPlan, PlannedSpans;
  }

  lemma PassableFits(w: World, e: map<Id, Span>, id: Id, seen: map<Id, Value>)
    requires SoundWorld(w) && Reference(w, e) && id in G(w) && Passable(w, e, id)
    requires DepsSucceeded(G(w), e, id) && SameFor(w, id, seen, Outputs(e)) && "input" !in seen && "input" !in Outputs(e)
    ensures Fits(w, Continuing(w), id, seen)
  {
    ExplainedBy(w, e, id, seen);
    StartsLocal(w, id, seen, Outputs(e));
    hide SoundWorld, Reference, G, MainLoop.FatalIds, Starts, SpanIn, DepsSucceeded, SameFor;
  }

  lemma CutFits(w: World, e: map<Id, Span>, tr: seq<Sys>, acts: seq<Action>, id: Id)
    requires SoundWorld(w) && Sensible(w) && Reference(w, e) && "input" !in e && CanLie(w, e)
    requires Run(w, tr, acts) && |tr| == |acts| + 1 && Planned(w, Continuing(w), tr[|acts|])
    requires Enabled(w, tr[|acts|], Dispatch(id))
    ensures Fits(w, Continuing(w), id, tr[|acts|].main.results)
  {
    hide *;
    var s := tr[|acts|];
    var t := Apply(w, s, Dispatch(id));
    var tr1, acts1 := tr + [t], acts + [Dispatch(id)];
    RunExtend(w, tr, acts, Dispatch(id));
    RunEInv(w, tr, acts, |acts|);
    RunEInv(w, tr1, acts1, |acts1|);
    RunFacts(w, tr1, acts1, e, |acts1|);
    DispatchKnown(w, s, id);
    DispatchEffect(w, s, id);
    PlannedSpansOf(w, Continuing(w), s);
    DispatchedExposed(w, t, id);
    SeesIt(w, t, e, id);
    CanLieAt(w, e, id);
    PassableFits(w, e, id, s.main.results);
  }

  lemma CanLieAt(w: World, e: map<Id, Span>, id: Id)
    requires CanLie(w, e) && id in G(w) && Exposed(w, id)
    ensures Passable(w, e, id)
  {
    hide Passable, Exposed, G;
  }

  lemma CutPlanWorks(w: World, e: map<Id, Span>)
    requires SoundWorld(w) && Sensible(w) && Reference(w, e) && "input" !in e && CanLie(w, e)
    ensures PlanWorks(w, Continuing(w))
  {
    hide SoundWorld, Sensible, Reference, CanLie, Run, Planned, Enabled, Fits, Continuing;
    forall tr: seq<Sys>, acts: seq<Action>, id |
      Run(w, tr, acts) && |tr| == |acts| + 1 && Planned(w, Continuing(w), tr[|acts|])
      && Enabled(w, tr[|acts|], Dispatch(id))
      ensures Fits(w, Continuing(w), id, tr[|acts|].main.results)
    {
      CutFits(w, e, tr, acts, id);
    }
    forall tr: seq<Sys>, acts: seq<Action> | Run(w, tr, acts) ensures |tr| == |acts| + 1 { RunLength(w, tr, acts); }
  }

  // ---------- the condition is needed ----------

  /** A finished report that is untruthful says succeeded over an unsuccessful task. */
  lemma UntruthfulMeans(c: Scheduling.Config, m: Scheduling.State)
    requires SI.Inv(c, m) && m.phase.Finished? && !SP.Truthful(c, m)
    ensures !m.runFailed && m.spans.Keys == c.g.Keys && forall id :: id in m.spans ==> !m.spans[id].status.Failed?
  {
    hide SI.ResultsMatch, SI.CountsExact, SI.StartedIffZero, SI.SkipClosed, SI.SkippedBlocked, SI.SnapshotsOk;
  }

  lemma ExposedBelow(w: World, id: Id, d: Id)
    requires Exposed(w, id) && Edge(G(w), id, d)
    ensures Exposed(w, d) && d in MainLoop.FatalIds(w.wf)
  {
    EdgeDepends(G(w), id, d);
    forall x | DependsOn(G(w), d, x) ensures x in MainLoop.FatalIds(w.wf) {
      DependsTransitive(G(w), id, d, x);
    }
  }

  lemma PassedFacts(w: World, e: map<Id, Span>, s: Sys, id: Id)
    requires Facts(w, s, e) && id in G(w) && id in s.main.spans && !s.main.runFailed
    requires !s.main.spans[id].status.Failed? && !SI.Blocked(C(w), s.main, id)
    ensures Passable(w, e, id)
    ensures id in MainLoop.FatalIds(w.wf) ==> s.main.spans[id].status.Succeeded?
  {
    assert SpanFacts(w, s, e, id);
    hide WorkersFacts, G, C, Starts, SI.Blocked, MainLoop.FatalIds;
  }

  /** In a finished run in which nothing failed, the exposed tasks have all been passed. */
  lemma {:induction false} ExposedPassed(w: World, e: map<Id, Span>, s: Sys, r: map<Id, nat>, id: Id)
    requires Facts(w, s, e) && !s.main.runFailed && s.main.spans.Keys == G(w).Keys && IsRank(G(w), r)
    requires forall x :: x in s.main.spans ==> !s.main.spans[x].status.Failed?
    requires id in G(w) && Exposed(w, id)
    ensures Passable(w, e, id)
    ensures id in MainLoop.FatalIds(w.wf) ==> s.main.spans[id].status.Succeeded?
    decreases r[id]
  {
    hide Facts, G, C, Exposed, Passable, MainLoop.FatalIds;
    KnownConfig(w);
    if SI.Blocked(C(w), s.main, id) {
      var d :| Edge(G(w), id, d) && d in s.main.spans && !s.main.spans[d].status.Succeeded?;
      ExposedBelow(w, id, d);
      ExposedPassed(w, e, s, r, d);
    }
    PassedFacts(w, e, s, id);
  }

  lemma LieNeeds(w: World, e: map<Id, Span>, tr: seq<Sys>, acts: seq<Action>)
    requires SoundWorld(w) && Sensible(w) && Reference(w, e) && "input" !in e
    requires Run(w, tr, acts) && |tr| == |acts| + 1 && tr[|acts|].main.phase.Finished?
    requires !SP.Truthful(C(w), tr[|acts|].main)
    ensures CanLie(w, e)
  {
    var s := tr[|acts|];
    AcyclicIffRanked(G(w));
    var r :| IsRank(G(w), r);
    hide SoundWorld, Sensible, Reference, Run, SP.Truthful, EInv, SI.Inv, C, G, MainLoop.FatalIds, Passable, Exposed, Facts;
    RunEInv(w, tr, acts, |acts|);
    RunFacts(w, tr, acts, e, |acts|);
    InvOf(w, s);
    KnownConfig(w);
    UntruthfulMeans(C(w), s.main);
    if G(w).Keys <= MainLoop.FatalIds(w.wf) { EngineStatusExactAllFatal(w, tr, acts); }
    forall id | id in G(w) && Exposed(w, id) ensures Passable(w, e, id) {
      ExposedPassed(w, e, s, r, id);
    }
  }

  // ---------- the theorem ----------

  lemma EvaluatorRefers(w: World, order: seq<Id>)
    requires SoundWorld(w) && Topological(G(w), order)
    ensures Reference(w, Sequential(w, order)) && "input" !in Sequential(w, order)
  {
    ReferenceOf(w, order);
    SequentialKeys(w, order);
    NoTaskIsInput(w);
    hide SoundWorld, Sequential, G, Reference;
  }

  /** If the condition holds, some run cancels every task under `continue` that it gets to, calls no
      executor after that, and reports success. */
  lemma CanLieLies(w: World, order: seq<Id>) returns (tr: seq<Sys>, acts: seq<Action>)
    requires SoundWorld(w) && Sensible(w) && UniqueIds(w.wf.tasks) && Topological(G(w), order)
    requires CanLie(w, Sequential(w, order))
    ensures Lie(w, Continuing(w), tr, acts)
  {
    SomeContinue(w, Sequential(w, order));
    hide *;
    EvaluatorRefers(w, order);
    CutPlanWorks(w, Sequential(w, order));
    tr, acts := PlanLies(w, Continuing(w));
  }

  lemma SomeContinue(w: World, e: map<Id, Span>)
    requires CanLie(w, e)
    ensures Continuing(w) != {} && Continuing(w) <= G(w).Keys && Continuing(w) !! MainLoop.FatalIds(w.wf)
  {
    hide Passable, Exposed, G, MainLoop.FatalIds;
    var x :| x in G(w).Keys && x !in MainLoop.FatalIds(w.wf);
    assert x in Continuing(w);
  }

  /** Exactly when the reports of a workflow can be trusted whatever is cancelled from outside: when
      every task is under `fail_fast`, or some exposed task cannot be passed - one under `fail_fast`
      that does not succeed in the sequential evaluator, or one under `continue` that cannot start
      on the outputs the evaluator shows it. */
  lemma WorkflowTruthfulExactly(w: World, order: seq<Id>)
    requires SoundWorld(w) && Sensible(w) && UniqueIds(w.wf.tasks) && Topological(G(w), order)
    ensures EngineTruthful(w) <==> !CanLie(w, Sequential(w, order))
  {
    var e := Sequential(w, order);
    EvaluatorRefers(w, order);
    if CanLie(w, e) {
      SomeContinue(w, e);
      hide *;
      var tr, acts := CanLieLies(w, order);
      LieIsUntruthful(w, Continuing(w), tr, acts);
    } else {
      hide CanLie, SoundWorld, Sensible, UniqueIds, Run, SP.Truthful, C, Reference, Sequential, Topological, G;
      forall tr: seq<Sys>, acts: seq<Action> | Run(w, tr, acts) && |tr| == |acts| + 1 && tr[|acts|].main.phase.Finished?
        ensures SP.Truthful(C(w), tr[|acts|].main)
      {
        if !SP.Truthful(C(w), tr[|acts|].main) { LieNeeds(w, e, tr, acts); }
      }
      forall tr: seq<Sys>, acts: seq<Action> | Run(w, tr, acts) ensures |tr| == |acts| + 1 { RunLength(w, tr, acts); }
    }
  }

  /** One task without dependencies whose inputs do not resolve keeps every report truthful: it
      fails before it can be cancelled. */
  lemma UnresolvedRootIsHonest(w: World, order: seq<Id>, id: Id)
    requires SoundWorld(w) && Sensible(w) && UniqueIds(w.wf.tasks) && Topological(G(w), order)
    requires id in G(w) && G(w)[id] == [] && id !in MainLoop.FatalIds(w.wf) && !Starts(w, id, map[])
    ensures EngineTruthful(w)
  {
    var e := Sequential(w, order);
    EvaluatorRefers(w, order);
    RootIsExposed(w, id);
    OutputsKeys(e);
    StartsLocal(w, id, map[], Outputs(e));
    WorkflowTruthfulExactly(w, order);
    hide SoundWorld, Sensible, UniqueIds, Topological, G, EngineTruthful, Exposed, Sequential, Starts, MainLoop.FatalIds;
    if CanLie(w, e) { CanLieAt(w, e, id); }
  }

  lemma RootIsExposed(w: World, id: Id)
    requires id in G(w) && G(w)[id] == []
    ensures Exposed(w, id) && SameFor(w, id, map[], Outputs(map[])) && forall d :: !DependsOn(G(w), id, d)
  {
    forall d ensures !DependsOn(G(w), id, d) {
      if DependsOn(G(w), id, d) { var b := DependsFirstEdge(G(w), id, d); }
    }
  }
}
