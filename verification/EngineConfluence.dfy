/** Confluence of the whole engine: whatever the interleaving of goroutines, permits, limiters
    and clock, an uncancelled run under `continue` gives every task the span the sequential
    evaluator gives it. */
module EngineConfluence {
  import opened Values
  import opened Graphs
  import opened Workflows
  import opened Spans
  import Scheduling
  import SI = SchedulerInvariant
  import MainLoop
  import TaskExecution
  import Templates
  import opened Confluence
  import opened Engine
  import opened EngineInvariant
  import opened EngineRuns

  /** What is still to come completes the goroutine's span to the one its snapshot determines. */
  ghost predicate ToCome(w: World, id: Id, k: Worker, attempt: nat)
    requires id in G(w)
  {
    TaskExecution.RunFrom(id, k.inputs, MaxRetries(w, id), w.skill, AlwaysPass(), attempt, k.span) == SpanIn(w, id, k.seen)
  }

  ghost predicate OnTrack(w: World, id: Id, k: Worker)
    requires id in G(w)
  {
    match k.pc
    case Start => true
    case WantPermit(a) => ToCome(w, id, k, a) && a <= MaxRetries(w, id) + 1
    case WantGlobal(a) => ToCome(w, id, k, a) && k.span.attempts == a <= MaxRetries(w, id) + 1
    case WantProvider(a) => ToCome(w, id, k, a) && k.span.attempts == a <= MaxRetries(w, id) + 1
    case MayCall(a) => ToCome(w, id, k, a) && k.span.attempts == a <= MaxRetries(w, id) + 1
    case Calling(a) => ToCome(w, id, k, a) && k.span.attempts == a <= MaxRetries(w, id) + 1
    case Backoff(a) => ToCome(w, id, k, a + 1)
    case Sending => Core(k.span) == SpanIn(w, id, k.seen)
    case Sent => Core(k.span) == SpanIn(w, id, k.seen)
  }

  predicate Quits(m: Move) {
    m.QuitAtPermit? || m.QuitAtGlobal? || m.QuitAtProvider?
  }

  lemma {:induction false} RunFromAttempts(id: Id, v: Value, max: int, skill: TaskExecution.Skill, attempt: nat, span: Span)
    requires attempt <= max + 1
    ensures TaskExecution.RunFrom(id, v, max, skill, AlwaysPass(), attempt, span.(attempts := attempt)) ==
            TaskExecution.RunFrom(id, v, max, skill, AlwaysPass(), attempt, span)
  {
    TaskExecution.RunFromStep(id, v, max, skill, AlwaysPass(), attempt, span);
    TaskExecution.RunFromStep(id, v, max, skill, AlwaysPass(), attempt, span.(attempts := attempt));
    hide TaskExecution.RunFrom;
  }

  lemma CoreOfSpan(w: World, id: Id, seen: map<Id, Value>)
    requires id in G(w)
    ensures Core(SpanIn(w, id, seen)) == SpanIn(w, id, seen)
  {
    SpanRan(w, id, seen);
    hide SpanIn;
  }

  lemma BeginOnTrack(w: World, id: Id, k: Worker, attempt: nat)
    requires id in G(w) && ToCome(w, id, k, attempt)
    ensures OnTrack(w, id, Begin(w, id, k, attempt))
  {
    CoreOfSpan(w, id, k.seen);
    hide SpanIn, DependencyGraph;
  }

  lemma ReturnOnTrack(w: World, id: Id, k: Worker, d: nat)
    requires id in G(w) && OnTrack(w, id, k) && k.pc.Calling?
    ensures OnTrack(w, id, Moved(w, id, k, Return(d)))
  {
    hide SpanIn, DependencyGraph, TaskExecution.RunFrom, TaskExecution.AfterCall, MaxRetries;
    TaskExecution.RunFromStep(id, k.inputs, MaxRetries(w, id), w.skill, AlwaysPass(), k.pc.attempt, k.span);
    CoreOfSpan(w, id, k.seen);
    assert k.span.(attempts := k.pc.attempt) == k.span;
  }

  lemma ResolveOnTrack(w: World, id: Id, k: Worker)
    requires id in G(w) && k.pc.Start?
    ensures OnTrack(w, id, Moved(w, id, k, ResolveInputs))
  {
    TaskMapKeys(w.wf.tasks);
    CoreOfSpan(w, id, k.seen);
    var t := TaskOf(w, id);
    match Templates.Resolve(Obj(t.inputs), TaskExecution.ScopeOf(w.inputs, k.seen), w.json) {
      case None =>
      case Some(v) => BeginOnTrack(w, id, k.(inputs := v, span := TaskExecution.FreshSpan(id)), 1);
    }
    hide TaskExecution.RunFrom, Templates.Resolve, TaskMap;
  }

  lemma PermitOnTrack(w: World, id: Id, k: Worker)
    requires id in G(w) && OnTrack(w, id, k) && k.pc.WantPermit?
    ensures OnTrack(w, id, Moved(w, id, k, TakePermit))
  {
    RunFromAttempts(id, k.inputs, MaxRetries(w, id), w.skill, k.pc.attempt, k.span);
    hide SpanIn, DependencyGraph, TaskExecution.RunFrom, MaxRetries;
  }

  lemma MoveOnTrack(w: World, id: Id, k: Worker, m: Move)
    requires id in G(w) && CanMove(w, id, k, m) && OnTrack(w, id, k) && !Quits(m)
    ensures OnTrack(w, id, Moved(w, id, k, m))
  {
    hide SpanIn, DependencyGraph, TaskExecution.RunFrom, MaxRetries, TaskExecution.AfterCall, Templates.Resolve, UsesProvider;
    match m {
      case ResolveInputs => ResolveOnTrack(w, id, k);
      case TakePermit => PermitOnTrack(w, id, k);
      case Return(d) => ReturnOnTrack(w, id, k, d);
      case Wake => BeginOnTrack(w, id, k, k.pc.attempt + 1);
      case _ =>
    }
  }

  ghost predicate AllOnTrack(w: World, s: Sys) {
    forall id :: id in s.workers ==> id in G(w) && OnTrack(w, id, s.workers[id])
  }

  // ---------- any mix of error policies ----------

  lemma WorkStaysOnTrack(w: World, s: Sys, id: Id, m: Move)
    requires AllOnTrack(w, s) && !s.cancelled && Enabled(w, s, Work(id, m))
    ensures AllOnTrack(w, Apply(w, s, Work(id, m)))
  {
    WorkEnabled(w, s, id, m);
    WorkApply(w, s, id, m);
    assert !Quits(m);
    hide OnTrack, Moved, DependencyGraph, PolledBuckets, Grants, Apply, Enabled;
    MoveOnTrack(w, id, s.workers[id], m);
  }

  lemma DispatchStaysOnTrack(w: World, s: Sys, id: Id)
    requires EInv(w, s) && AllOnTrack(w, s) && Enabled(w, s, Dispatch(id))
    ensures AllOnTrack(w, Apply(w, s, Dispatch(id)))
  {
    DispatchKnown(w, s, id);
    hide SpanIn, DependencyGraph, C, EInv;
  }

  lemma CancelledStays(w: World, s: Sys, a: Action)
    requires Enabled(w, s, a)
    ensures s.cancelled ==> Apply(w, s, a).cancelled
  {
    hide Moved, PolledBuckets, C, DependencyGraph, Scheduling.Apply, Scheduling.Enabled;
  }

  lemma StepStaysOnTrack(w: World, s: Sys, a: Action)
    requires EInv(w, s) && Enabled(w, s, a) && !a.Cancel? && (!s.cancelled ==> AllOnTrack(w, s))
    ensures !Apply(w, s, a).cancelled ==> AllOnTrack(w, Apply(w, s, a))
  {
    CancelledStays(w, s, a);
    hide EInv, OnTrack, WorkStep, C, DependencyGraph, Scheduling.Apply;
    if !Apply(w, s, a).cancelled {
      match a {
        case Work(id, m) => WorkStaysOnTrack(w, s, id, m);
        case Dispatch(id) => DispatchStaysOnTrack(w, s, id);
        case _ =>
      }
    }
  }

  lemma {:induction false} RunOnTrack(w: World, tr: seq<Sys>, acts: seq<Action>, i: nat)
    requires Sensible(w) && Run(w, tr, acts) && NeverCancelled(acts) && i < |tr|
    ensures !tr[i].cancelled ==> AllOnTrack(w, tr[i])
    decreases i
  {
    hide EInv, Apply, Enabled, Sensible, OnTrack;
    if i > 0 {
      RunOnTrack(w, tr, acts, i - 1);
      RunEInv(w, tr, acts, i - 1);
      assert StepAt(w, tr, acts, i - 1);
      StepStaysOnTrack(w, tr[i - 1], acts[i - 1]);
    }
  }

  /** Without outside cancellation, for any mix of error policies, every span the main loop acts on
      is the one its task's retry loop gives for what the task saw, durations aside. */
  lemma ReceivedFaithful(w: World, tr: seq<Sys>, acts: seq<Action>, i: nat)
    requires Sensible(w) && Run(w, tr, acts) && NeverCancelled(acts) && i < |acts| && acts[i].Receive?
    requires tr[i].main.phase.Running?
    ensures tr[i].done != [] && Faithful(w, tr[i].main, Taking(tr[i]))
  {
    assert StepAt(w, tr, acts, i);
    RunEInv(w, tr, acts, i);
    RunHonest(w, tr, acts, i);
    RunOnTrack(w, tr, acts, i);
    ReceiveNeedsSpan(w, tr[i]);
    RunningNotFailed(w, tr[i]);
    hide EInv, Sensible, Run, AllOnTrack, Enabled, Apply, Faithful;
    HeadIsFaithful(w, tr[i]);
  }

  lemma RunningNotFailed(w: World, s: Sys)
    requires EInv(w, s) && s.main.phase.Running?
    ensures !s.main.runFailed
  {
    hide SI.Partition, SI.ResultsMatch, SI.CountsExact, SI.StartedIffZero, SI.SkipClosed, SI.SkippedBlocked, SI.SnapshotsOk;
  }

  // ---------- `continue` throughout ----------

  /** So far nothing was cancelled, every goroutine is on track, and every span is the reference's. */
  ghost predicate Tracks(w: World, s: Sys, e: map<Id, Span>) {
    !s.cancelled && !s.main.runFailed && AllOnTrack(w, s) && Agrees(s.main, e)
  }

  lemma DispatchTracks(w: World, s: Sys, id: Id, e: map<Id, Span>)
    requires EInv(w, s) && Enabled(w, s, Dispatch(id)) && Tracks(w, s, e)
    ensures Tracks(w, Apply(w, s, Dispatch(id)), e)
  {
    hide SpanIn, DependencyGraph, SI.ResultsMatch, SI.CountsExact, SI.StartedIffZero, SI.SkipClosed, SI.SkippedBlocked, SI.SnapshotsOk;
    assert id in C(w).g;
    KnownGraph(w);
  }

  lemma KnownGraph(w: World)
    ensures C(w).g == G(w)
  {
  }

  /** The span at the head of the channel is what its task does with what it saw. */
  lemma HeadIsFaithful(w: World, s: Sys)
    requires EInv(w, s) && AllOnTrack(w, s) && s.done != []
    ensures Faithful(w, s.main, Taking(s))
  {
    hide SI.Inv, SpanIn, DependencyGraph, PermitsOk;
    var id := s.done[0].id;
    assert s.workers[id].span == s.done[0] && s.workers[id].seen == s.main.inFlight[id];
    assert OnTrack(w, id, s.workers[id]);
  }

  lemma ReceiveTracks(w: World, s: Sys, e: map<Id, Span>)
    requires SoundWorld(w) && MainLoop.FatalIds(w.wf) == {} && EInv(w, s) && Enabled(w, s, Receive)
    requires Reference(w, e) && Tracks(w, s, e)
    ensures Tracks(w, Apply(w, s, Receive), e)
  {
    HeadIsFaithful(w, s);
    KnownGraph(w);
    StepAgrees(w, C(w), s.main, Taking(s), e);
    hide SI.Inv, SpanIn, DependencyGraph, Scheduling.Apply, Scheduling.Enabled, Agrees, OnTrack, SoundWorld, MainLoop.FatalIds, Reference;
  }

  lemma NoneFatal(w: World)
    requires MainLoop.FatalIds(w.wf) == {}
    ensures C(w).failFast == {}
  {
  }

  lemma EndingTracks(w: World, s: Sys, a: Action, e: map<Id, Span>)
    requires SoundWorld(w) && MainLoop.FatalIds(w.wf) == {} && EInv(w, s) && Enabled(w, s, a) && (a.EndDrain? || a.Complete?)
    requires Reference(w, e) && Tracks(w, s, e)
    ensures Tracks(w, Apply(w, s, a), e)
  {
    hide SI.Inv, SpanIn, DependencyGraph, Agrees, OnTrack, SoundWorld, MainLoop.FatalIds, Reference;
    KnownGraph(w);
    var b := MainAction(s, a).value;
    assert Faithful(w, s.main, b);
    NoneFatal(w);
    StepAgrees(w, C(w), s.main, b, e);
    hide SI.Inv, SpanIn, DependencyGraph, Scheduling.Apply, Scheduling.Enabled, Agrees, OnTrack, SoundWorld, MainLoop.FatalIds, Reference;
  }

  lemma WorkTracks(w: World, s: Sys, id: Id, m: Move, e: map<Id, Span>)
    requires id in s.workers && id in G(w) && CanMove(w, id, s.workers[id], m) && Resources(w, s, id, m)
    requires Tracks(w, s, e)
    ensures Tracks(w, WorkStep(w, s, id, m), e)
  {
    assert !Quits(m);
    MoveOnTrack(w, id, s.workers[id], m);
    hide OnTrack, Moved, DependencyGraph, Agrees, PolledBuckets, Grants;
  }

  lemma StepTracks(w: World, s: Sys, a: Action, e: map<Id, Span>)
    requires SoundWorld(w) && MainLoop.FatalIds(w.wf) == {} && EInv(w, s) && Enabled(w, s, a) && !a.Cancel?
    requires Reference(w, e) && Tracks(w, s, e)
    ensures Tracks(w, Apply(w, s, a), e)
  {
    hide EInv, Enabled, WorkStep, SoundWorld, Reference, OnTrack, Agrees, MainLoop.FatalIds;
    match a {
      case Dispatch(id) => DispatchTracks(w, s, id, e);
      case Receive => ReceiveTracks(w, s, e);
      case EndDrain => EndingTracks(w, s, a, e);
      case Complete => EndingTracks(w, s, a, e);
      case Tick(dt) =>
      case Work(id, m) => WorkEnabled(w, s, id, m); WorkTracks(w, s, id, m, e); WorkApply(w, s, id, m);
    }
  }

  lemma {:induction false} RunTracks(w: World, tr: seq<Sys>, acts: seq<Action>, e: map<Id, Span>, i: nat)
    requires SoundWorld(w) && Sensible(w) && MainLoop.FatalIds(w.wf) == {} && Reference(w, e)
    requires Run(w, tr, acts) && NeverCancelled(acts) && i < |tr|
    ensures Tracks(w, tr[i], e)
    decreases i
  {
    if i > 0 {
      RunTracks(w, tr, acts, e, i - 1);
      RunEInv(w, tr, acts, i - 1);
      assert StepAt(w, tr, acts, i - 1);
      StepTracks(w, tr[i - 1], acts[i - 1], e);
      hide *;
    }
  }

  /** Every interleaving of the engine agrees with the sequential evaluator at every moment, and
      a finished run has exactly its spans, durations aside. */
  lemma EngineConfluent(w: World, order: seq<Id>, tr: seq<Sys>, acts: seq<Action>)
    requires SoundWorld(w) && Sensible(w) && MainLoop.FatalIds(w.wf) == {} && Topological(G(w), order)
    requires Run(w, tr, acts) && NeverCancelled(acts)
    ensures forall i :: 0 <= i < |tr| ==> Agrees(tr[i].main, Sequential(w, order))
    ensures tr[|acts|].main.phase.Finished? ==> Cores(tr[|acts|].main.spans) == Sequential(w, order)
  {
    hide SoundWorld, Sensible, Sequential, DependencyGraph, NeverCancelled, Reference, Topological, StepAt;
    var e := Sequential(w, order);
    ReferenceOf(w, order);
    forall i | 0 <= i < |tr| ensures Agrees(tr[i].main, e) {
      RunTracks(w, tr, acts, e, i);
    }
    if tr[|acts|].main.phase.Finished? {
      FinishedSpans(w, tr, acts);
      TopologicalKeys(w, order);
    }
  }

  lemma TopologicalKeys(w: World, order: seq<Id>)
    requires Topological(G(w), order)
    ensures Sequential(w, order).Keys == G(w).Keys
  {
    SequentialKeys(w, order);
    hide Sequential, DependencyGraph;
  }

  lemma FinishedSpans(w: World, tr: seq<Sys>, acts: seq<Action>)
    requires Sensible(w) && Run(w, tr, acts) && tr[|acts|].main.phase.Finished?
    ensures tr[|acts|].main.spans.Keys == G(w).Keys
  {
    RunEInv(w, tr, acts, |acts|);
    KnownGraph(w);
  }
}
